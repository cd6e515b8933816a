/** The three executors of the G12 review migration as sessions of one server. Any number of sessions of any
    kind may run at once, each may be lost at any point, and a commit may happen without its caller hearing. */
module G12Review {
  import opened Counting
  import opened Sql

  const PROPOSAL_ROWS: nat := 262
  const SEED_ROWS: nat := 4
  const MAX_ROWS: nat := PROPOSAL_ROWS + SEED_ROWS
  const SCHEMA_STATEMENTS: nat := 3
  const FIXED_STATEMENTS: nat := 6
  const STATEMENTS: nat := FIXED_STATEMENTS + PROPOSAL_ROWS

  datatype SchemaObject = ProposalTable | ActionTable | CurrentView

  type ProposalNo = i: nat | i < PROPOSAL_ROWS

  datatype Role = Librarian | ResearchAdmin

  datatype Fact = Permission | Grant(role: Role) | Marker | Proposal(n: ProposalNo)

  type Store = Durable<SchemaObject, Fact>

  function AllFacts(): set<Fact> {
    {Permission, Grant(Librarian), Grant(ResearchAdmin), Marker} + set i: ProposalNo | true :: Proposal(i)
  }

  /** The six statements of the migration file followed by one insert per proposal. */
  function StatementAt(pc: nat): Statement<SchemaObject, Fact>
    requires pc < STATEMENTS
  {
    if pc == 0 then CreateTable(ProposalTable)
    else if pc == 1 then CreateTable(ActionTable)
    else if pc == 2 then CreateView(CurrentView)
    else if pc == 3 then InsertIgnore({}, {Permission})
    else if pc == 4 then InsertIgnore({}, {Grant(Librarian), Grant(ResearchAdmin)})
    else if pc == 5 then InsertIgnore({}, {Marker})
    else InsertIgnore({ProposalTable}, {Proposal(pc - FIXED_STATEMENTS)})
  }

  /** The statement that inserts the fact. */
  function StatementOf(f: Fact): nat {
    match f
    case Permission => 3
    case Grant(_) => 4
    case Marker => 5
    case Proposal(n) => FIXED_STATEMENTS + n
  }

  // ---------------------------------------------------------------- sessions

  datatype Kind = Plan | Successor | Finalizer

  datatype Phase =
    | Connected
    | Running(pc: nat, affected: nat)
    | Committed
    | Passed
    | Stopped // refused, failed, or the connection was lost

  datatype Session = Session(kind: Kind, phase: Phase, pending: set<Fact>)

  datatype World = World(durable: Store, sessions: map<nat, Session>)

  datatype Action =
    | Connect(sid: nat, kind: Kind)
    | Admit(sid: nat)
    | Perform(sid: nat, rejected: set<Fact>)
    | Commit(sid: nat, heard: bool)
    | Reconcile(sid: nat)
    | Lose(sid: nat)

  /** The admission check each executor makes before it writes. */
  predicate Admits(kind: Kind, d: Store) {
    match kind
    case Plan => Marker !in d.facts && d.objects == {}
    case Successor => d.objects == {ProposalTable, ActionTable} && d.facts == {}
    case Finalizer => d.objects == {ProposalTable, ActionTable, CurrentView} && d.facts == {}
  }

  /** The first statement each executor issues. */
  function Start(kind: Kind): nat {
    match kind
    case Plan => 0
    case Successor => 2
    case Finalizer => SCHEMA_STATEMENTS
  }

  predicate Complete(d: Store) {
    d.objects == {ProposalTable, ActionTable, CurrentView} && d.facts == AllFacts()
  }

  /** Rows another open transaction has inserted are locked. */
  predicate Blocked(w: World, sid: nat, statement: Statement<SchemaObject, Fact>) {
    statement.InsertIgnore? &&
    exists other :: other in w.sessions && other != sid && w.sessions[other].pending * statement.rows != {}
  }

  function Put(w: World, sid: nat, session: Session): World {
    w.(sessions := w.sessions[sid := session])
  }

  /** Rollback and end of the run. */
  function Stop(w: World, sid: nat): World
    requires sid in w.sessions
  {
    Put(w, sid, w.sessions[sid].(phase := Stopped, pending := {}))
  }

  function DoPerform(w: World, sid: nat, rejected: set<Fact>): World
    requires sid in w.sessions && w.sessions[sid].phase.Running? && w.sessions[sid].phase.pc < STATEMENTS
  {
    var s := w.sessions[sid];
    var statement := StatementAt(s.phase.pc);
    if Blocked(w, sid, statement) then w
    else
      var e := Execute(w.durable, s.pending, statement, false, rejected);
      var next := World(e.durable, w.sessions[sid := AfterEffect(s, e)]);
      if !e.ok || (s.phase.pc >= FIXED_STATEMENTS && AfterEffect(s, e).phase.affected > MAX_ROWS)
      then Stop(next, sid) else next
  }

  /** The issuing session after a statement: the row count is added to what it has affected so far. */
  function AfterEffect(s: Session, e: Effect<SchemaObject, Fact>): (s': Session)
    requires s.phase.Running?
    ensures s'.phase.Running?
  {
    s.(phase := Running(s.phase.pc + 1, s.phase.affected + e.rowCount), pending := e.pending)
  }

  function DoCommit(w: World, sid: nat, heard: bool): World
    requires sid in w.sessions && w.sessions[sid].phase.Running?
  {
    var s := w.sessions[sid];
    if s.phase.affected != MAX_ROWS then Stop(w, sid)
    else
      var phase := if !heard then Stopped else if s.kind == Plan then Passed else Committed;
      World(w.durable.(facts := w.durable.facts + s.pending), w.sessions[sid := s.(phase := phase, pending := {})])
  }

  /** One step of the server; an action that is not enabled changes nothing. */
  function Do(w: World, a: Action): World {
    match a
    case Connect(sid, kind) =>
      if sid in w.sessions then w else Put(w, sid, Session(kind, Connected, {}))
    case Admit(sid) =>
      if sid in w.sessions && w.sessions[sid].phase.Connected? then
        var s := w.sessions[sid];
        Put(w, sid, s.(phase := if Admits(s.kind, w.durable) then Running(Start(s.kind), 0) else Stopped))
      else w
    case Perform(sid, rejected) =>
      if sid in w.sessions && w.sessions[sid].phase.Running? && w.sessions[sid].phase.pc < STATEMENTS
      then DoPerform(w, sid, rejected) else w
    case Commit(sid, heard) =>
      if sid in w.sessions && w.sessions[sid].phase.Running? && w.sessions[sid].phase.pc == STATEMENTS
      then DoCommit(w, sid, heard) else w
    case Reconcile(sid) =>
      if sid in w.sessions && w.sessions[sid].phase.Committed? then
        Put(w, sid, w.sessions[sid].(phase := if w.durable.facts == AllFacts() then Passed else Stopped))
      else w
    case Lose(sid) =>
      if sid in w.sessions && !w.sessions[sid].phase.Passed? then Stop(w, sid) else w
  }

  function Run(w: World, actions: seq<Action>): World {
    if actions == [] then w else Do(Run(w, actions[..|actions| - 1]), actions[|actions| - 1])
  }

  /** Before G12: no object, no row, nobody connected. */
  const INITIAL := World(Durable({}, {}), map[])

  // ---------------------------------------------------------------- invariant

  ghost predicate StoreOk(d: Store) {
    && (ActionTable in d.objects ==> ProposalTable in d.objects)
    && (CurrentView in d.objects ==> ActionTable in d.objects)
    && (d.facts == {} || (d.facts == AllFacts() && CurrentView in d.objects))
  }

  /** The schema statements before `pc` have taken effect. */
  ghost predicate Installed(d: Store, pc: nat) {
    && (pc > 0 ==> ProposalTable in d.objects)
    && (pc > 1 ==> ActionTable in d.objects)
    && (pc > 2 ==> CurrentView in d.objects)
  }

  ghost predicate SessionOk(s: Session, d: Store) {
    match s.phase
    case Running(pc, affected) =>
      && Start(s.kind) <= pc <= STATEMENTS
      && Installed(d, pc)
      && (forall f :: f in s.pending ==> StatementOf(f) < pc)
      && affected == |s.pending|
      && s.pending !! d.facts
    case Committed => s.pending == {} && d.facts == AllFacts()
    case Passed => s.pending == {} && d.facts == AllFacts()
    case Connected => s.pending == {}
    case Stopped => s.pending == {}
  }

  ghost predicate SessionsOk(w: World) {
    forall sid {:trigger w.sessions[sid]} :: sid in w.sessions ==> SessionOk(w.sessions[sid], w.durable)
  }

  ghost predicate LocksDisjoint(w: World) {
    forall s, t {:trigger w.sessions[s].pending, w.sessions[t].pending} ::
      s in w.sessions && t in w.sessions && s != t ==> w.sessions[s].pending !! w.sessions[t].pending
  }

  /** The session has made the migration durable and knows it. */
  ghost predicate Won(s: Session) {
    s.phase.Committed? || s.phase.Passed?
  }

  ghost predicate OneWinner(w: World) {
    forall s, t :: s in w.sessions && t in w.sessions && Won(w.sessions[s]) && Won(w.sessions[t]) ==> s == t
  }

  ghost predicate Inv(w: World) {
    StoreOk(w.durable) && SessionsOk(w) && LocksDisjoint(w) && OneWinner(w)
  }

  lemma {:induction false} ProposalCount(n: nat)
    requires n <= PROPOSAL_ROWS
    ensures |set i: ProposalNo | i < n :: Proposal(i)| == n
  {
    if n > 0 {
      ProposalCount(n - 1);
      var fewer := set i: ProposalNo | i < n - 1 :: Proposal(i);
      var all := set i: ProposalNo | i < n :: Proposal(i);
      assert all == fewer + {Proposal(n - 1)};
    } else {
      assert (set i: ProposalNo | i < n :: Proposal(i)) == {};
    }
  }

  lemma FactCount()
    ensures |AllFacts()| == MAX_ROWS
    ensures forall f: Fact :: f in AllFacts()
  {
    ProposalCount(PROPOSAL_ROWS);
    var proposals := set i: ProposalNo | i < PROPOSAL_ROWS :: Proposal(i);
    var seeds := {Permission, Grant(Librarian), Grant(ResearchAdmin), Marker};
    assert AllFacts() == seeds + proposals;
    assert seeds !! proposals;
    assert |seeds| == SEED_ROWS;
    forall f: Fact
      ensures f in AllFacts()
    {
      match f
      case Permission =>
      case Grant(role) => match role { case Librarian => case ResearchAdmin => }
      case Marker =>
      case Proposal(n) => assert Proposal(n) in proposals;
    }
  }

  // ---------------------------------------------------------------- every step keeps the invariant

  /** A step that changes one session and leaves the store alone. */
  lemma SessionStep(w: World, sid: nat, s: Session)
    requires Inv(w) && SessionOk(s, w.durable)
    requires forall t :: t in w.sessions && t != sid ==> w.sessions[t].pending !! s.pending
    requires Won(s) ==> sid in w.sessions && Won(w.sessions[sid])
    ensures Inv(Put(w, sid, s))
  {
    var v := Put(w, sid, s);
    forall t | t in v.sessions
      ensures SessionOk(v.sessions[t], v.durable)
    {
      if t != sid {
        assert SessionOk(w.sessions[t], w.durable);
      }
    }
  }

  /** The session of the issuing executor after an insert. */
  function AfterInsert(s: Session, d: Store, rejected: set<Fact>): (s': Session)
    requires s.phase.Running? && SCHEMA_STATEMENTS <= s.phase.pc < STATEMENTS
    ensures s'.phase.Running?
  {
    AfterEffect(s, Execute(d, s.pending, StatementAt(s.phase.pc), false, rejected))
  }

  lemma InsertedByStatement(pc: nat, f: Fact)
    requires SCHEMA_STATEMENTS <= pc < STATEMENTS && f in StatementAt(pc).rows
    ensures StatementOf(f) == pc
  {
  }

  function Added(s: Session, d: Store, rejected: set<Fact>): set<Fact>
    requires s.phase.Running? && SCHEMA_STATEMENTS <= s.phase.pc < STATEMENTS
  {
    StatementAt(s.phase.pc).rows - rejected - d.facts - s.pending
  }

  lemma TableInstalled(d: Store, pc: nat)
    requires SCHEMA_STATEMENTS <= pc < STATEMENTS && Installed(d, pc)
    ensures StatementAt(pc).InsertIgnore? && StatementAt(pc).tables <= d.objects
  {
  }

  lemma InsertOutcome(s: Session, d: Store, rejected: set<Fact>)
    requires s.phase.Running? && SCHEMA_STATEMENTS <= s.phase.pc < STATEMENTS && Installed(d, s.phase.pc)
    ensures var added := Added(s, d, rejected);
      AfterInsert(s, d, rejected) ==
        Session(s.kind, Running(s.phase.pc + 1, s.phase.affected + |added|), s.pending + added)
  {
    TableInstalled(d, s.phase.pc);
    var statement := StatementAt(s.phase.pc);
    assert Execute(d, s.pending, statement, false, rejected) ==
      Effect(d, s.pending + Added(s, d, rejected), |Added(s, d, rejected)|, true);
  }

  lemma InsertedSessionOk(s: Session, d: Store, rejected: set<Fact>)
    requires SessionOk(s, d) && s.phase.Running? && SCHEMA_STATEMENTS <= s.phase.pc < STATEMENTS
    ensures SessionOk(AfterInsert(s, d, rejected), d)
    ensures AfterInsert(s, d, rejected).phase.affected <= MAX_ROWS
  {
    InsertOutcome(s, d, rejected);
    var added := Added(s, d, rejected);
    assert added !! s.pending;
    forall f | f in added
      ensures StatementOf(f) == s.phase.pc
    {
      InsertedByStatement(s.phase.pc, f);
    }
    FactCount();
    SubsetCount(s.pending + added, AllFacts());
  }

  lemma PerformInsert(w: World, sid: nat, rejected: set<Fact>)
    requires sid in w.sessions && w.sessions[sid].phase.Running?
    requires SCHEMA_STATEMENTS <= w.sessions[sid].phase.pc < STATEMENTS
    requires !Blocked(w, sid, StatementAt(w.sessions[sid].phase.pc)) && Installed(w.durable, w.sessions[sid].phase.pc)
    requires AfterInsert(w.sessions[sid], w.durable, rejected).phase.affected <= MAX_ROWS
    ensures DoPerform(w, sid, rejected) ==
      Put(w, sid, AfterInsert(w.sessions[sid], w.durable, rejected))
  {
  }

  lemma NotBlockedApart(w: World, sid: nat, rejected: set<Fact>, t: nat)
    requires LocksDisjoint(w) && sid in w.sessions && w.sessions[sid].phase.Running?
    requires SCHEMA_STATEMENTS <= w.sessions[sid].phase.pc < STATEMENTS
    requires !Blocked(w, sid, StatementAt(w.sessions[sid].phase.pc))
    requires t in w.sessions && t != sid
    ensures w.sessions[t].pending !!
      AfterInsert(w.sessions[sid], w.durable, rejected).pending
  {
    assert w.sessions[t].pending !! w.sessions[sid].pending;
    assert w.sessions[t].pending * StatementAt(w.sessions[sid].phase.pc).rows == {};
  }

  /** The row locks keep what a session inserts apart from what the others hold. */
  lemma InsertStep(w: World, sid: nat, rejected: set<Fact>)
    requires Inv(w) && sid in w.sessions && w.sessions[sid].phase.Running?
    requires SCHEMA_STATEMENTS <= w.sessions[sid].phase.pc < STATEMENTS
    ensures Inv(DoPerform(w, sid, rejected)) && DoPerform(w, sid, rejected).durable == w.durable
  {
    var s := w.sessions[sid];
    var statement := StatementAt(s.phase.pc);
    assert SessionOk(s, w.durable);
    if !Blocked(w, sid, statement) {
      var s' := AfterInsert(s, w.durable, rejected);
      InsertedSessionOk(s, w.durable, rejected);
      forall t | t in w.sessions && t != sid
        ensures w.sessions[t].pending !! s'.pending
      {
        NotBlockedApart(w, sid, rejected, t);
      }
      SessionStep(w, sid, s');
      PerformInsert(w, sid, rejected);
    }
  }

  /** A session that still has schema statements to issue has inserted nothing. */
  lemma NothingPending(s: Session, d: Store)
    requires SessionOk(s, d) && s.phase.Running? && s.phase.pc <= SCHEMA_STATEMENTS
    ensures s.pending == {} && s.phase.affected == 0
  {
    forall f | f in s.pending
      ensures false
    {
    }
  }

  /** More schema is fine for every session. */
  lemma MoreObjects(s: Session, d: Store, d': Store)
    requires SessionOk(s, d) && d.objects <= d'.objects && d'.facts == d.facts
    ensures SessionOk(s, d')
  {
  }

  lemma SchemaStep(w: World, sid: nat, rejected: set<Fact>)
    requires Inv(w) && sid in w.sessions && w.sessions[sid].phase.Running?
    requires w.sessions[sid].phase.pc < SCHEMA_STATEMENTS
    ensures Inv(DoPerform(w, sid, rejected))
    ensures w.durable.objects <= DoPerform(w, sid, rejected).durable.objects
    ensures DoPerform(w, sid, rejected).durable.facts == w.durable.facts
  {
    var s := w.sessions[sid];
    assert SessionOk(s, w.durable);
    NothingPending(s, w.durable);
    var v := DoPerform(w, sid, rejected);
    assert v.durable.facts == w.durable.facts;
    forall t | t in v.sessions
      ensures SessionOk(v.sessions[t], v.durable)
    {
      if t != sid {
        assert SessionOk(w.sessions[t], w.durable);
        MoreObjects(w.sessions[t], w.durable, v.durable);
      }
    }
  }

  /** The commit check leaves only one possibility: the transaction holds every one of the 266 rows. */
  lemma CommitHoldsAll(w: World, sid: nat)
    requires Inv(w) && sid in w.sessions && w.sessions[sid].phase.Running?
    requires w.sessions[sid].phase.affected == MAX_ROWS
    ensures w.sessions[sid].pending == AllFacts() && w.durable.facts == {}
    ensures forall t :: t in w.sessions && t != sid ==> w.sessions[t].pending == {}
  {
    var s := w.sessions[sid];
    assert SessionOk(s, w.durable);
    FactCount();
    SubsetCount(s.pending, AllFacts());
    assert Marker in s.pending;
    forall t | t in w.sessions && t != sid
      ensures w.sessions[t].pending == {}
    {
      assert w.sessions[t].pending !! w.sessions[sid].pending;
    }
  }

  lemma CommitStep(w: World, sid: nat, heard: bool)
    requires Inv(w) && sid in w.sessions && w.sessions[sid].phase.Running? && w.sessions[sid].phase.pc == STATEMENTS
    ensures Inv(DoCommit(w, sid, heard))
    ensures DoCommit(w, sid, heard).durable.objects == w.durable.objects
    ensures w.durable.facts <= DoCommit(w, sid, heard).durable.facts
  {
    var s := w.sessions[sid];
    assert SessionOk(s, w.durable);
    if s.phase.affected != MAX_ROWS {
      SessionStep(w, sid, s.(phase := Stopped, pending := {}));
    } else {
      CommitHoldsAll(w, sid);
      var v := DoCommit(w, sid, heard);
      assert v.durable.facts == AllFacts();
      assert Marker in AllFacts() && Marker !in w.durable.facts;
      forall t | t in v.sessions
        ensures SessionOk(v.sessions[t], v.durable)
        ensures t != sid ==> !Won(v.sessions[t])
      {
        if t != sid {
          assert SessionOk(w.sessions[t], w.durable);
        }
      }
    }
  }

  /** Every action, by any session, keeps the invariant and never takes anything back. */
  lemma DoKeepsInv(w: World, a: Action)
    requires Inv(w)
    ensures Inv(Do(w, a))
    ensures w.durable.objects <= Do(w, a).durable.objects && w.durable.facts <= Do(w, a).durable.facts
  {
    match a
    case Connect(sid, kind) =>
      if sid !in w.sessions {
        SessionStep(w, sid, Session(kind, Connected, {}));
      }
    case Admit(sid) =>
      if sid in w.sessions && w.sessions[sid].phase.Connected? {
        var s := w.sessions[sid];
        assert SessionOk(s, w.durable);
        var phase := if Admits(s.kind, w.durable) then Running(Start(s.kind), 0) else Stopped;
        SessionStep(w, sid, s.(phase := phase));
      }
    case Perform(sid, rejected) =>
      if sid in w.sessions && w.sessions[sid].phase.Running? && w.sessions[sid].phase.pc < STATEMENTS {
        if w.sessions[sid].phase.pc < SCHEMA_STATEMENTS {
          SchemaStep(w, sid, rejected);
        } else {
          InsertStep(w, sid, rejected);
        }
      }
    case Commit(sid, heard) =>
      if sid in w.sessions && w.sessions[sid].phase.Running? && w.sessions[sid].phase.pc == STATEMENTS {
        CommitStep(w, sid, heard);
      }
    case Reconcile(sid) =>
      if sid in w.sessions && w.sessions[sid].phase.Committed? {
        var s := w.sessions[sid];
        assert SessionOk(s, w.durable);
        SessionStep(w, sid, s.(phase := if w.durable.facts == AllFacts() then Passed else Stopped));
      }
    case Lose(sid) =>
      if sid in w.sessions && !w.sessions[sid].phase.Passed? {
        SessionStep(w, sid, w.sessions[sid].(phase := Stopped, pending := {}));
      }
  }

  lemma {:induction false} RunKeepsInv(w: World, actions: seq<Action>)
    requires Inv(w)
    ensures Inv(Run(w, actions))
    ensures w.durable.objects <= Run(w, actions).durable.objects && w.durable.facts <= Run(w, actions).durable.facts
  {
    if actions != [] {
      RunKeepsInv(w, actions[..|actions| - 1]);
      DoKeepsInv(Run(w, actions[..|actions| - 1]), actions[|actions| - 1]);
    }
  }

  /** Every reachable world of every interleaving satisfies the invariant. */
  lemma AlwaysInv(actions: seq<Action>)
    ensures Inv(Run(INITIAL, actions))
  {
    RunKeepsInv(INITIAL, actions);
  }

  // ---------------------------------------------------------------- main results

  /** The marker and the other 265 rows become durable together or not at all, and never before the schema. */
  lemma AllOrNothing(actions: seq<Action>)
    ensures var d := Run(INITIAL, actions).durable;
      && (d.facts == {} || (Complete(d) && |d.facts| == 266))
      && (Marker in d.facts <==> Complete(d))
      && (forall f: Fact :: f in d.facts <==> Marker in d.facts)
  {
    AlwaysInv(actions);
    FactCount();
    var d := Run(INITIAL, actions).durable;
    SchemaStages(d);
    assert Marker in AllFacts();
  }

  /** The admission states of two different executors never coincide, reachable or not. */
  lemma AdmissionDisjoint(d: Store, k: Kind, k': Kind)
    requires Admits(k, d) && Admits(k', d)
    ensures k == k'
  {
    assert ActionTable in {ProposalTable, ActionTable} && CurrentView !in {ProposalTable, ActionTable};
    assert CurrentView in {ProposalTable, ActionTable, CurrentView};
  }

  /** Every reachable store is complete, or holds the first table only, or is admitted by an executor. */
  lemma AdmissionCovers(actions: seq<Action>)
    ensures var d := Run(INITIAL, actions).durable;
      (exists k :: Admits(k, d)) <==> !Complete(d) && d.objects != {ProposalTable}
  {
    AllOrNothing(actions);
    AlwaysInv(actions);
    var d := Run(INITIAL, actions).durable;
    SchemaStages(d);
    assert ActionTable in {ProposalTable, ActionTable};
    assert CurrentView in {ProposalTable, ActionTable, CurrentView};
    if d.objects == {} {
      assert Admits(Plan, d);
    } else if d.objects == {ProposalTable, ActionTable} {
      assert Admits(Successor, d);
    } else if d.objects == {ProposalTable, ActionTable, CurrentView} && d.facts == {} {
      assert Admits(Finalizer, d);
    }
  }

  lemma SchemaStages(d: Store)
    requires StoreOk(d)
    ensures || d.objects == {} || d.objects == {ProposalTable} || d.objects == {ProposalTable, ActionTable}
            || d.objects == {ProposalTable, ActionTable, CurrentView}
    ensures d.facts != {} ==> d.objects == {ProposalTable, ActionTable, CurrentView}
  {
    ObjectSet(d.objects);
  }

  lemma ObjectSet(s: set<SchemaObject>)
    ensures s == (if ProposalTable in s then {ProposalTable} else {})
      + (if ActionTable in s then {ActionTable} else {})
      + (if CurrentView in s then {CurrentView} else {})
  {
    forall o | o in s
      ensures o == ProposalTable || o == ActionTable || o == CurrentView
    {
      match o { case ProposalTable => case ActionTable => case CurrentView => }
    }
  }

  /** The complete state is terminal: no run of any executor writes to it. */
  lemma {:induction false} CompleteIsTerminal(w: World, actions: seq<Action>)
    requires Inv(w) && Complete(w.durable)
    ensures Run(w, actions).durable == w.durable
  {
    RunKeepsInv(w, actions);
    var d := Run(w, actions).durable;
    assert ProposalTable in w.durable.objects && ActionTable in w.durable.objects && CurrentView in w.durable.objects;
    ObjectSet(d.objects);
    FactCount();
    assert d.objects == w.durable.objects;
    assert d.facts == w.durable.facts;
  }

  /** A run that reports success has made the whole migration durable, and at most one run ever does. */
  lemma PassMeansComplete(actions: seq<Action>, sid: nat)
    requires sid in Run(INITIAL, actions).sessions && Run(INITIAL, actions).sessions[sid].phase.Passed?
    ensures Complete(Run(INITIAL, actions).durable)
    ensures forall t :: t in Run(INITIAL, actions).sessions && Run(INITIAL, actions).sessions[t].phase.Passed? ==> t == sid
  {
    AlwaysInv(actions);
    AllOrNothing(actions);
    var w := Run(INITIAL, actions);
    assert SessionOk(w.sessions[sid], w.durable);
    FactCount();
    forall t | t in w.sessions && w.sessions[t].phase.Passed?
      ensures t == sid
    {
      assert Won(w.sessions[t]) && Won(w.sessions[sid]);
    }
  }

  // ---------------------------------------------------------------- dead ends and recovery

  /** No executor is in the middle of a run. */
  ghost predicate Quiet(w: World) {
    forall sid {:trigger w.sessions[sid]} :: sid in w.sessions ==> !w.sessions[sid].phase.Running? && w.sessions[sid].pending == {}
  }

  ghost predicate Admitted(d: Store) {
    exists k :: Admits(k, d)
  }

  lemma QuietStep(w: World, a: Action)
    requires Quiet(w) && !Admitted(w.durable)
    ensures Quiet(Do(w, a)) && Do(w, a).durable == w.durable
  {
  }

  /** When nothing runs and no executor admits the store, no run will ever change it. */
  lemma {:induction false} FrozenUnlessAdmitted(w: World, actions: seq<Action>)
    requires Quiet(w) && !Admitted(w.durable)
    ensures Quiet(Run(w, actions)) && Run(w, actions).durable == w.durable
  {
    if actions != [] {
      FrozenUnlessAdmitted(w, actions[..|actions| - 1]);
      QuietStep(Run(w, actions[..|actions| - 1]), actions[|actions| - 1]);
    }
  }

  lemma RunFour(w: World, a: Action, b: Action, c: Action, d: Action)
    ensures Run(w, [a, b, c, d]) == Do(Do(Do(Do(w, a), b), c), d)
  {
    RunAppend(w, [], a);
    RunAppend(w, [a], b);
    RunAppend(w, [a, b], c);
    RunAppend(w, [a, b, c], d);
    assert [] + [a] == [a] && [a] + [b] == [a, b] && [a, b] + [c] == [a, b, c] && [a, b, c] + [d] == [a, b, c, d];
  }

  /** The first executor, alone on the server, up to its first statement. */
  lemma FirstStatementAlone(s: Session)
    requires s == Session(Plan, Connected, {})
    ensures Do(INITIAL, Connect(0, Plan)) == World(Durable({}, {}), map[0 := s])
    ensures Do(World(Durable({}, {}), map[0 := s]), Admit(0)) ==
      World(Durable({}, {}), map[0 := s.(phase := Running(0, 0))])
    ensures Do(World(Durable({}, {}), map[0 := s.(phase := Running(0, 0))]), Perform(0, {})) ==
      World(Durable({ProposalTable}, {}), map[0 := s.(phase := Running(1, 0))])
  {
    assert map[0 := s][0 := s.(phase := Running(0, 0))] == map[0 := s.(phase := Running(0, 0))];
    var r := s.(phase := Running(0, 0));
    assert map[0 := r][0 := s.(phase := Running(1, 0))] == map[0 := s.(phase := Running(1, 0))];
    assert {} + {ProposalTable} == {ProposalTable};
  }

  /** The one dead end, "first table only", is really reachable: the first executor lost after one statement. */
  lemma FirstTableOnlyReachable()
    ensures var w := Run(INITIAL, [Connect(0, Plan), Admit(0), Perform(0, {}), Lose(0)]);
      Quiet(w) && w.durable.objects == {ProposalTable} && !Admitted(w.durable)
  {
    FirstStatementAlone(Session(Plan, Connected, {}));
    RunFour(INITIAL, Connect(0, Plan), Admit(0), Perform(0, {}), Lose(0));
    assert ActionTable in {ProposalTable, ActionTable} && ProposalTable in {ProposalTable};
    assert ActionTable in {ProposalTable, ActionTable, CurrentView};
  }

  /** The rows inserted by the statements before `pc`. */
  function Written(pc: nat): set<Fact> {
    set f | f in AllFacts() && StatementOf(f) < pc
  }

  function ObjectsAt(pc: nat): set<SchemaObject> {
    (if pc > 0 then {ProposalTable} else {}) + (if pc > 1 then {ActionTable} else {})
    + (if pc > 2 then {CurrentView} else {})
  }

  /** A lone undisturbed run of `kind` that has reached statement `pc`. */
  ghost predicate Midway(w: World, sid: nat, kind: Kind, pc: nat) {
    && sid in w.sessions
    && w.sessions[sid] == Session(kind, Running(pc, |Written(pc)|), Written(pc))
    && w.durable == Durable(ObjectsAt(pc), {})
    && forall t :: t in w.sessions && t != sid ==> w.sessions[t].pending == {}
  }

  lemma RowsOfStatement(pc: nat, f: Fact)
    requires SCHEMA_STATEMENTS <= pc < STATEMENTS
    ensures StatementOf(f) == pc <==> f in StatementAt(pc).rows
  {
    match f
    case Permission =>
    case Grant(role) => match role { case Librarian => case ResearchAdmin => }
    case Marker =>
    case Proposal(n) =>
  }

  lemma WrittenNext(pc: nat)
    requires pc < STATEMENTS
    ensures pc < SCHEMA_STATEMENTS ==> Written(pc + 1) == {} && Written(pc) == {}
    ensures pc >= SCHEMA_STATEMENTS ==>
      Written(pc + 1) == Written(pc) + StatementAt(pc).rows && Written(pc) !! StatementAt(pc).rows
  {
    FactCount();
    if pc >= SCHEMA_STATEMENTS {
      forall f: Fact
        ensures StatementOf(f) == pc <==> f in StatementAt(pc).rows
      {
        RowsOfStatement(pc, f);
      }
    }
  }

  /** What the statement does to an undisturbed session. */
  ghost predicate Advances(kind: Kind, pc: nat)
    requires pc < STATEMENTS
  {
    var s := Session(kind, Running(pc, |Written(pc)|), Written(pc));
    var e := Execute(Durable(ObjectsAt(pc), {}), s.pending, StatementAt(pc), false, {});
    && e.ok && e.durable == Durable(ObjectsAt(pc + 1), {})
    && AfterEffect(s, e) == Session(kind, Running(pc + 1, |Written(pc + 1)|), Written(pc + 1))
  }

  lemma SchemaAdvances(kind: Kind, pc: nat)
    requires pc < SCHEMA_STATEMENTS
    ensures Advances(kind, pc)
  {
    WrittenNext(pc);
    var e := Execute(Durable(ObjectsAt(pc), {}), {}, StatementAt(pc), false, {});
    assert e.durable.objects == ObjectsAt(pc + 1);
  }

  lemma InsertAdvances(kind: Kind, pc: nat)
    requires SCHEMA_STATEMENTS <= pc < STATEMENTS
    ensures Advances(kind, pc)
  {
    WrittenNext(pc);
    var rows := StatementAt(pc).rows;
    assert rows - {} - {} - Written(pc) == rows;
    assert |Written(pc + 1)| == |Written(pc)| + |rows|;
    assert ObjectsAt(pc + 1) == ObjectsAt(pc);
  }

  lemma WrittenBounded(pc: nat)
    ensures |Written(pc)| <= MAX_ROWS
  {
    FactCount();
    SubsetCount(Written(pc), AllFacts());
  }

  lemma PerformUndisturbed(w: World, sid: nat, e: Effect<SchemaObject, Fact>, s': Session)
    requires sid in w.sessions && w.sessions[sid].phase.Running? && w.sessions[sid].phase.pc < STATEMENTS
    requires !Blocked(w, sid, StatementAt(w.sessions[sid].phase.pc))
    requires e == Execute(w.durable, w.sessions[sid].pending, StatementAt(w.sessions[sid].phase.pc), false, {})
    requires e.ok && s' == AfterEffect(w.sessions[sid], e) && s'.phase.affected <= MAX_ROWS
    ensures Do(w, Perform(sid, {})) == World(e.durable, w.sessions[sid := s'])
  {
  }

  lemma MidwayStep(w: World, sid: nat, kind: Kind, pc: nat)
    requires Midway(w, sid, kind, pc) && pc < STATEMENTS
    ensures Midway(Do(w, Perform(sid, {})), sid, kind, pc + 1)
  {
    if pc < SCHEMA_STATEMENTS {
      SchemaAdvances(kind, pc);
    } else {
      InsertAdvances(kind, pc);
    }
    WrittenBounded(pc + 1);
    assert !Blocked(w, sid, StatementAt(pc));
    AdvancedIsMidway(w, sid, kind, pc);
  }

  lemma AdvancedIsMidway(w: World, sid: nat, kind: Kind, pc: nat)
    requires Midway(w, sid, kind, pc) && pc < STATEMENTS && Advances(kind, pc)
    requires !Blocked(w, sid, StatementAt(pc)) && |Written(pc + 1)| <= MAX_ROWS
    ensures Midway(Do(w, Perform(sid, {})), sid, kind, pc + 1)
  {
    var s := w.sessions[sid];
    var e := Execute(w.durable, s.pending, StatementAt(pc), false, {});
    PerformUndisturbed(w, sid, e, AfterEffect(s, e));
  }

  function Performs(sid: nat, n: nat): seq<Action> {
    seq(n, i => Perform(sid, {}))
  }

  /** The world after the next `n` statements of one session. */
  function Performed(w: World, sid: nat, n: nat): World {
    Run(w, Performs(sid, n))
  }

  lemma PerformedNext(w: World, sid: nat, n: nat)
    ensures Performed(w, sid, 0) == w && Performed(w, sid, n + 1) == Do(Performed(w, sid, n), Perform(sid, {}))
  {
    assert Performs(sid, 0) == [];
    assert Performs(sid, n + 1) == Performs(sid, n) + [Perform(sid, {})];
    RunAppend(w, Performs(sid, n), Perform(sid, {}));
  }

  lemma MidwayStart(w: World, sid: nat, kind: Kind, pc: nat, n: nat, end: nat)
    requires Midway(w, sid, kind, pc) && n == 0 && end == pc
    ensures Midway(Performed(w, sid, n), sid, kind, end)
  {
    PerformedNext(w, sid, 0);
  }

  lemma MidwayMore(w: World, sid: nat, kind: Kind, n: nat, more: nat, pc: nat, next: nat)
    requires Midway(Performed(w, sid, n), sid, kind, pc) && pc < STATEMENTS && next == pc + 1 && more == n + 1
    ensures Midway(Performed(w, sid, more), sid, kind, next)
  {
    PerformedNext(w, sid, n);
    MidwayStep(Performed(w, sid, n), sid, kind, pc);
  }

  lemma {:induction false} MidwayRun(w: World, sid: nat, kind: Kind, pc: nat, n: nat, end: nat)
    requires Midway(w, sid, kind, pc) && end == pc + n && end <= STATEMENTS
    ensures Midway(Performed(w, sid, n), sid, kind, end)
    decreases n
  {
    if n == 0 {
      MidwayStart(w, sid, kind, pc, n, end);
    } else {
      var m, e := n - 1, end - 1;
      MidwayRun(w, sid, kind, pc, m, e);
      MidwayMore(w, sid, kind, m, n, e, end);
    }
  }

  lemma RunAppend(w: World, actions: seq<Action>, a: Action)
    ensures Run(w, actions + [a]) == Do(Run(w, actions), a)
  {
    assert (actions + [a])[..|actions + [a]| - 1] == actions;
  }

  lemma {:induction false} RunConcat(w: World, a: seq<Action>, b: seq<Action>)
    ensures Run(w, a + b) == Run(Run(w, a), b)
  {
    if b == [] {
      assert a + b == a;
    } else {
      RunConcat(w, a, b[..|b| - 1]);
      assert a + b == (a + b[..|b| - 1]) + [b[|b| - 1]];
      RunAppend(w, a + b[..|b| - 1], b[|b| - 1]);
    }
  }

  /** The undisturbed run of an executor. */
  function Opening(sid: nat, kind: Kind): seq<Action> {
    [Connect(sid, kind), Admit(sid)]
  }

  function CompletingRun(sid: nat, kind: Kind): seq<Action> {
    Opening(sid, kind) + Performs(sid, STATEMENTS - Start(kind)) + [Commit(sid, true)] + [Reconcile(sid)]
  }

  /** From every quiet reachable store that an executor admits, one undisturbed run of it completes the migration
      and reports success; so "first table only" is the only state the chain cannot finish from. */
  lemma AdmittedCompletes(w: World, sid: nat, kind: Kind)
    requires Inv(w) && Quiet(w) && sid !in w.sessions && Admits(kind, w.durable)
    ensures var v := Run(w, CompletingRun(sid, kind));
      Complete(v.durable) && sid in v.sessions && v.sessions[sid].phase == Passed
  {
    var n := STATEMENTS - Start(kind);
    OpeningIsMidway(w, sid, kind);
    MidwayRun(Run(w, Opening(sid, kind)), sid, kind, Start(kind), n, STATEMENTS);
    assert Performed(Run(w, Opening(sid, kind)), sid, n) == Run(Run(w, Opening(sid, kind)), Performs(sid, n));
    RunConcat(w, Opening(sid, kind), Performs(sid, n));
    ClosingCompletes(w, Opening(sid, kind) + Performs(sid, n), sid, kind);
  }

  lemma OpeningIsMidway(w: World, sid: nat, kind: Kind)
    requires Inv(w) && Quiet(w) && sid !in w.sessions && Admits(kind, w.durable)
    ensures Midway(Run(w, Opening(sid, kind)), sid, kind, Start(kind))
  {
    AdmittedIsMidway(w, sid, kind);
    RunAppend(w, [], Connect(sid, kind));
    assert [] + [Connect(sid, kind)] == [Connect(sid, kind)];
    RunAppend(w, [Connect(sid, kind)], Admit(sid));
    assert Opening(sid, kind) == [Connect(sid, kind)] + [Admit(sid)];
  }

  lemma ClosingCompletes(w: World, actions: seq<Action>, sid: nat, kind: Kind)
    requires Midway(Run(w, actions), sid, kind, STATEMENTS)
    ensures var v := Run(w, actions + [Commit(sid, true)] + [Reconcile(sid)]);
      Complete(v.durable) && sid in v.sessions && v.sessions[sid].phase == Passed
  {
    CommitCompletes(Run(w, actions), sid, kind);
    RunAppend(w, actions, Commit(sid, true));
    RunAppend(w, actions + [Commit(sid, true)], Reconcile(sid));
  }

  lemma AdmittedIsMidway(w: World, sid: nat, kind: Kind)
    requires Inv(w) && Quiet(w) && sid !in w.sessions && Admits(kind, w.durable)
    ensures Midway(Do(Do(w, Connect(sid, kind)), Admit(sid)), sid, kind, Start(kind))
  {
    FactCount();
    assert Marker in AllFacts();
    assert Written(Start(kind)) == {};
    assert w.durable.objects == ObjectsAt(Start(kind));
  }

  lemma CommitCompletes(w: World, sid: nat, kind: Kind)
    requires Midway(w, sid, kind, STATEMENTS)
    ensures var v := Do(w, Commit(sid, true));
      && Complete(v.durable)
      && Do(v, Reconcile(sid)).durable == v.durable && sid in Do(v, Reconcile(sid)).sessions
      && Do(v, Reconcile(sid)).sessions[sid].phase == Passed
  {
    FactCount();
    assert Written(STATEMENTS) == AllFacts();
    assert ObjectsAt(STATEMENTS) == {ProposalTable, ActionTable, CurrentView};
  }
}
