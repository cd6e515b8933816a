/** The G11 identity migration (one transaction) and its successor (autocommit) as sessions of one server,
    with the statements in canonical order: twelve tables, three views, four seed inserts. */
module G11Identity {
  import opened Counting
  import opened Sql

  const TABLES: nat := 12
  const SCHEMA: nat := 15
  const STATEMENTS: nat := 19
  const MAX_ROWS: nat := 37

  /** Object `i` is created by statement `i`: tables first, then views. */
  type SchemaObject = i: nat | i < SCHEMA

  /** The seed rows in the order of their inserts: 4 roles, 15 permissions, 17 grants, the marker. */
  type Fact = i: nat | i < MAX_ROWS

  const Marker: Fact := 36

  type Store = Durable<SchemaObject, Fact>

  /** The statement that inserts a row. */
  function StatementOf(f: Fact): nat {
    if f < 4 then 15 else if f < 19 then 16 else if f < 36 then 17 else 18
  }

  /** The statement that creates an object. */
  function CreatedBy(o: SchemaObject): nat {
    o
  }

  /** The rows of the statements before `pc`. */
  function Written(pc: nat): set<Fact> {
    set f: Fact | StatementOf(f) < pc
  }

  /** The rows statement `pc` inserts. */
  function Rows(pc: nat): set<Fact> {
    set f: Fact | StatementOf(f) == pc
  }

  function AllSeeds(): set<Fact> {
    Written(STATEMENTS)
  }

  function ObjectsBefore(pc: nat): set<SchemaObject> {
    set o: SchemaObject | CreatedBy(o) < pc
  }

  function AllObjects(): set<SchemaObject> {
    ObjectsBefore(SCHEMA)
  }

  function StatementAt(pc: nat): Statement<SchemaObject, Fact>
    requires pc < STATEMENTS
  {
    if pc < TABLES then CreateTable(pc)
    else if pc < SCHEMA then CreateView(pc)
    else InsertIgnore(TablesOf(pc), Rows(pc))
  }

  /** The table insert `pc` writes to, when it is one of the twelve; the marker's table was there before. */
  function TablesOf(pc: nat): set<SchemaObject> {
    if SCHEMA <= pc < STATEMENTS - 1 then {pc - TABLES} else {}
  }

  predicate Complete(d: Store) {
    d.objects == AllObjects() && d.facts == AllSeeds()
  }

  // ---------------------------------------------------------------- sessions

  datatype Kind = Migration | Successor

  datatype Phase =
    | Connected
    | Running(pc: nat, affected: nat)
    | Committed(affected: nat)
    | Passed
    | Replayed // found everything in place and wrote nothing
    | Stopped

  datatype Session = Session(kind: Kind, phase: Phase, pending: set<Fact>)

  datatype World = World(durable: Store, sessions: map<nat, Session>)

  datatype Action =
    | Connect(sid: nat, kind: Kind)
    | Admit(sid: nat)
    | Perform(sid: nat, rejected: set<Fact>)
    | Commit(sid: nat, heard: bool)
    | Reconcile(sid: nat)
    | Lose(sid: nat)

  function Start(kind: Kind): nat {
    if kind == Migration then 0 else TABLES
  }

  /** The reads before the first write, and what they decide. */
  function Decide(kind: Kind, d: Store): Phase {
    match kind
    case Migration =>
      if Marker in d.facts then
        if d.objects != AllObjects() || d.facts != AllSeeds() then Stopped else Replayed
      else if d.objects != {} then Stopped
      else Running(0, 0)
    case Successor =>
      if Marker in d.facts && d.objects == AllObjects() then Replayed
      else if d.objects == ObjectsBefore(TABLES) && d.facts == {} then Running(TABLES, 0)
      else Stopped
  }

  predicate Blocked(w: World, sid: nat, statement: Statement<SchemaObject, Fact>) {
    statement.InsertIgnore? &&
    exists other :: other in w.sessions && other != sid && w.sessions[other].pending * statement.rows != {}
  }

  function Put(w: World, sid: nat, session: Session): World {
    w.(sessions := w.sessions[sid := session])
  }

  function Stop(w: World, sid: nat): World
    requires sid in w.sessions
  {
    Put(w, sid, w.sessions[sid].(phase := Stopped, pending := {}))
  }

  function AfterEffect(s: Session, e: Effect<SchemaObject, Fact>): (s': Session)
    requires s.phase.Running?
    ensures s'.phase.Running?
  {
    s.(phase := Running(s.phase.pc + 1, s.phase.affected + e.rowCount), pending := e.pending)
  }

  function DoPerform(w: World, sid: nat, rejected: set<Fact>): World
    requires sid in w.sessions && w.sessions[sid].phase.Running? && w.sessions[sid].phase.pc < STATEMENTS
  {
    var s := w.sessions[sid];
    var statement := StatementAt(s.phase.pc);
    if Blocked(w, sid, statement) then w
    else
      var e := Execute(w.durable, s.pending, statement, s.kind == Successor, rejected);
      var next := World(e.durable, w.sessions[sid := AfterEffect(s, e)]);
      if !e.ok || AfterEffect(s, e).phase.affected > MAX_ROWS then Stop(next, sid) else next
  }

  function Do(w: World, a: Action): World {
    match a
    case Connect(sid, kind) =>
      if sid in w.sessions then w else Put(w, sid, Session(kind, Connected, {}))
    case Admit(sid) =>
      if sid in w.sessions && w.sessions[sid].phase.Connected? then
        Put(w, sid, w.sessions[sid].(phase := Decide(w.sessions[sid].kind, w.durable)))
      else w
    case Perform(sid, rejected) =>
      if sid in w.sessions && w.sessions[sid].phase.Running? && w.sessions[sid].phase.pc < STATEMENTS
      then DoPerform(w, sid, rejected) else w
    case Commit(sid, heard) =>
      if sid in w.sessions && w.sessions[sid].phase.Running? && w.sessions[sid].phase.pc == STATEMENTS then
        var s := w.sessions[sid];
        World(w.durable.(facts := w.durable.facts + s.pending),
              w.sessions[sid := s.(phase := if heard then Committed(s.phase.affected) else Stopped, pending := {})])
      else w
    case Reconcile(sid) =>
      // after the commit: object and seed counts, then the affected total
      if sid in w.sessions && w.sessions[sid].phase.Committed? then
        var phase := if Complete(w.durable) && w.sessions[sid].phase.affected == MAX_ROWS then Passed else Stopped;
        Put(w, sid, w.sessions[sid].(phase := phase))
      else w
    case Lose(sid) =>
      if sid in w.sessions && !w.sessions[sid].phase.Passed? && !w.sessions[sid].phase.Replayed?
      then Stop(w, sid) else w
  }

  function Run(w: World, actions: seq<Action>): World {
    if actions == [] then w else Do(Run(w, actions[..|actions| - 1]), actions[|actions| - 1])
  }

  /** The seed rows a step turns away: rows of an insert it really executes. */
  function SkippedBy(w: World, a: Action): set<Fact> {
    if a.Perform? && a.sid in w.sessions && w.sessions[a.sid].phase.Running? && w.sessions[a.sid].phase.pc < STATEMENTS
    then
      var statement := StatementAt(w.sessions[a.sid].phase.pc);
      if statement.InsertIgnore? && !Blocked(w, a.sid, statement) then statement.rows * a.rejected else {}
    else {}
  }

  /** The seed rows turned away during a run. */
  function Skipped(w: World, actions: seq<Action>): set<Fact> {
    if actions == [] then {}
    else
      var before := actions[..|actions| - 1];
      Skipped(w, before) + SkippedBy(Run(w, before), actions[|actions| - 1])
  }

  const INITIAL := World(Durable({}, {}), map[])

  // ---------------------------------------------------------------- invariant

  /** Past the first CREATE VIEW: the statement only one session ever gets through. */
  ghost predicate Owner(s: Session) {
    s.phase.Running? && s.phase.pc > TABLES
  }

  /** The number of statements a session at `pc` has made durable itself. */
  function DurablePart(kind: Kind, pc: nat): nat {
    if kind == Successor || pc <= SCHEMA then pc else SCHEMA
  }

  /** The rows of the statements before `pc` are `r` and, turned away, `k`. */
  ghost predicate Splits(pc: nat, r: set<Fact>, k: set<Fact>) {
    r !! k && r + k == Written(pc)
  }

  /** `n` statements are durable, and `k` are the seed rows turned away so far. */
  ghost predicate StoreOk(d: Store, n: nat, k: set<Fact>) {
    && n <= STATEMENTS && d.objects == ObjectsBefore(n)
    && k <= AllSeeds() && (n <= TABLES ==> k == {})
    && (if n <= SCHEMA then d.facts == {} else Splits(n, d.facts, k))
  }

  /** The rows the owner has written: still its own, or durable under autocommit. */
  function Held(s: Session, d: Store): set<Fact> {
    if s.kind == Migration then s.pending else d.facts
  }

  ghost predicate SessionOk(s: Session, d: Store, n: nat, k: set<Fact>) {
    match s.phase
    case Running(pc, affected) =>
      && Start(s.kind) <= pc <= STATEMENTS && (s.kind == Successor ==> s.pending == {})
      && (if pc > TABLES then n == DurablePart(s.kind, pc) && Splits(pc, Held(s, d), k) && affected == |Held(s, d)|
          else pc <= n && s.pending == {} && affected == 0)
    case Committed(affected) => n == STATEMENTS && s.pending == {} && affected == |d.facts|
    case Passed => n == STATEMENTS && s.pending == {} && k == {}
    case Replayed => n == STATEMENTS && s.pending == {} && Marker !in k && (s.kind == Migration ==> k == {})
    case Connected => s.pending == {}
    case Stopped => s.pending == {}
  }

  /** The session has committed and knows it. */
  ghost predicate Won(s: Session) {
    s.phase.Committed? || s.phase.Passed?
  }

  ghost predicate OneActive(w: World) {
    forall s, t {:trigger w.sessions[s].phase, w.sessions[t].phase} ::
      s in w.sessions && t in w.sessions && s != t ==>
        !((Owner(w.sessions[s]) || Won(w.sessions[s])) && (Owner(w.sessions[t]) || Won(w.sessions[t])))
  }

  ghost predicate InvAt(w: World, n: nat, k: set<Fact>) {
    && StoreOk(w.durable, n, k)
    && (forall sid {:trigger w.sessions[sid]} :: sid in w.sessions ==> SessionOk(w.sessions[sid], w.durable, n, k))
    && OneActive(w)
  }

  // ---------------------------------------------------------------- counting

  predicate Below(f: Fact, n: nat) {
    f < n
  }

  lemma {:induction false} FirstRows(n: nat)
    requires n <= MAX_ROWS
    ensures |set f: Fact | Below(f, n)| == n
  {
    if n > 0 {
      FirstRows(n - 1);
      var m := n - 1;
      assert (set f: Fact | Below(f, n)) == (set f: Fact | Below(f, m)) + {m};
    } else {
      assert (set f: Fact | Below(f, n)) == {};
    }
  }

  lemma SeedCounts()
    ensures |Rows(15)| == 4 && |Rows(16)| == 15 && |Rows(17)| == 17 && |Rows(18)| == 1
  {
    WrittenTotals();
    WrittenCount(15);
    WrittenCount(16);
    WrittenCount(17);
    WrittenCount(18);
  }

  lemma WrittenNext(pc: nat)
    requires pc < STATEMENTS
    ensures Written(pc + 1) == Written(pc) + Rows(pc) && Written(pc) !! Rows(pc)
    ensures pc < SCHEMA ==> Written(pc) == {} && Rows(pc) == {}
  {
  }

  lemma WrittenCount(pc: nat)
    requires pc < STATEMENTS
    ensures |Written(pc + 1)| == |Written(pc)| + |Rows(pc)|
  {
    WrittenNext(pc);
  }

  /** Seed rows never exceed 37, and the counts per statement are the fixed ones. */
  lemma WrittenTotals()
    ensures Written(15) == {} && |Written(16)| == 4 && |Written(17)| == 19 && |Written(18)| == 36
    ensures |Written(19)| == MAX_ROWS == 37 && Written(19) == AllSeeds()
  {
    FirstRows(4);
    FirstRows(19);
    FirstRows(36);
    FirstRows(37);
    assert Written(16) == set f: Fact | Below(f, 4);
    assert Written(17) == set f: Fact | Below(f, 19);
    assert Written(18) == set f: Fact | Below(f, 36);
    assert Written(19) == set f: Fact | Below(f, 37);
  }

  lemma WrittenBounded(pc: nat)
    ensures |Written(pc)| <= MAX_ROWS
  {
    WrittenTotals();
    SubsetCount(Written(pc), AllSeeds());
  }

  // ---------------------------------------------------------------- every step keeps the invariant

  ghost predicate Active(s: Session) {
    Owner(s) || Won(s)
  }

  lemma SessionStep(w: World, n: nat, k: set<Fact>, sid: nat, s: Session)
    requires InvAt(w, n, k) && SessionOk(s, w.durable, n, k)
    requires Active(s) ==> sid in w.sessions && Active(w.sessions[sid])
    ensures InvAt(Put(w, sid, s), n, k)
  {
    var v := Put(w, sid, s);
    forall t | t in v.sessions
      ensures SessionOk(v.sessions[t], v.durable, n, k)
    {
      if t != sid {
        assert SessionOk(w.sessions[t], w.durable, n, k);
      }
    }
    forall t, u | t in v.sessions && u in v.sessions && t != u
      ensures !(Active(v.sessions[t]) && Active(v.sessions[u]))
    {
      if t != sid && u != sid {
        assert w.sessions[t].phase == v.sessions[t].phase && w.sessions[u].phase == v.sessions[u].phase;
      } else if Active(s) {
        var other := if t == sid then u else t;
        assert w.sessions[other].phase == v.sessions[other].phase && Active(w.sessions[sid]);
        assert !(Active(w.sessions[sid]) && Active(w.sessions[other])) by {
          var a, b := w.sessions[sid].phase, w.sessions[other].phase;
        }
      }
    }
  }

  /** The store moves on under a session that becomes or stays the only active one. */
  lemma StoreStep(w: World, n: nat, k: set<Fact>, sid: nat, s: Session, d: Store, m: nat, l: set<Fact>)
    requires InvAt(w, n, k) && sid in w.sessions && n <= m && StoreOk(d, m, l) && SessionOk(s, d, m, l)
    requires forall t :: t in w.sessions && t != sid ==> !Active(w.sessions[t]) && w.sessions[t].phase != Replayed
    ensures InvAt(World(d, w.sessions[sid := s]), m, l)
  {
    var v := World(d, w.sessions[sid := s]);
    forall t | t in v.sessions
      ensures SessionOk(v.sessions[t], d, m, l)
    {
      if t != sid {
        assert SessionOk(w.sessions[t], w.durable, n, k);
        assert !Active(w.sessions[t]);
      }
    }
  }

  lemma NobodyElseActive(w: World, n: nat, k: set<Fact>, sid: nat, t: nat)
    requires InvAt(w, n, k) && sid in w.sessions && (Active(w.sessions[sid]) || n <= TABLES)
    requires t in w.sessions && t != sid
    ensures !Active(w.sessions[t])
    ensures n < STATEMENTS ==> w.sessions[t].phase != Replayed
  {
    assert SessionOk(w.sessions[t], w.durable, n, k);
    var a, b := w.sessions[sid].phase, w.sessions[t].phase;
  }

  lemma OthersInactive(w: World, n: nat, k: set<Fact>, sid: nat)
    requires InvAt(w, n, k) && n < STATEMENTS && sid in w.sessions && (Active(w.sessions[sid]) || n <= TABLES)
    ensures forall t :: t in w.sessions && t != sid ==> !Active(w.sessions[t]) && w.sessions[t].phase != Replayed
  {
    forall t | t in w.sessions && t != sid
      ensures !Active(w.sessions[t]) && w.sessions[t].phase != Replayed
    {
      NobodyElseActive(w, n, k, sid, t);
    }
  }

  /** The world after an unblocked statement. */
  lemma PerformResult(w: World, sid: nat, rejected: set<Fact>, e: Effect<SchemaObject, Fact>, s': Session)
    requires sid in w.sessions && w.sessions[sid].phase.Running? && w.sessions[sid].phase.pc < STATEMENTS
    requires !Blocked(w, sid, StatementAt(w.sessions[sid].phase.pc))
    requires e == Execute(w.durable, w.sessions[sid].pending, StatementAt(w.sessions[sid].phase.pc),
                          w.sessions[sid].kind == Successor, rejected)
    requires s' == AfterEffect(w.sessions[sid], e) && s'.phase.affected <= MAX_ROWS
    ensures DoPerform(w, sid, rejected) ==
      World(e.durable, w.sessions[sid := if e.ok then s' else s'.(phase := Stopped, pending := {})])
  {
  }

  /** Before the inserts nothing has been written or turned away. */
  lemma SchemaSession(s: Session, d: Store, n: nat, k: set<Fact>)
    requires StoreOk(d, n, k) && SessionOk(s, d, n, k) && s.phase.Running? && s.phase.pc < SCHEMA
    ensures s.pending == {} && s.phase.affected == 0 && s.phase.pc <= n
    ensures s.phase.pc > TABLES ==> s.phase.pc == n
    ensures s.phase.pc == n ==> d.facts == {} && k == {}
  {
    WrittenNext(s.phase.pc);
  }

  lemma SchemaEffect(d: Store, n: nat, pc: nat, autocommit: bool, rejected: set<Fact>)
    requires pc < SCHEMA && pc <= n && d.objects == ObjectsBefore(n)
    ensures var e := Execute(d, {}, StatementAt(pc), autocommit, rejected);
      && e.rowCount == 0 && e.pending == {} && (e.ok <==> pc < TABLES || pc == n)
      && e.durable == Durable(ObjectsBefore(if pc == n then n + 1 else n), d.facts)
  {
    if pc == n {
      assert ObjectsBefore(n) + {pc} == ObjectsBefore(n + 1);
    } else {
      assert pc in ObjectsBefore(n);
      assert ObjectsBefore(n) + {pc} == ObjectsBefore(n);
    }
    assert d.facts + {} == d.facts;
  }

  lemma NextSchemaSession(s: Session, d: Store, n: nat)
    requires s.phase.Running? && s.phase.pc == n < SCHEMA && Start(s.kind) <= n
    requires s.pending == {} && s.phase.affected == 0 && d.facts == {}
    ensures SessionOk(s.(phase := Running(n + 1, 0)), d, n + 1, {})
  {
    WrittenNext(n);
  }

  /** A schema statement: a new object moves the store on; otherwise a table is skipped and a view fails, so CREATE VIEW
      lets exactly one session through and stops every other one. */
  lemma SchemaStep(w: World, n: nat, k: set<Fact>, sid: nat, rejected: set<Fact>) returns (m: nat)
    requires InvAt(w, n, k) && sid in w.sessions && w.sessions[sid].phase.Running? && w.sessions[sid].phase.pc < SCHEMA
    ensures n <= m && InvAt(DoPerform(w, sid, rejected), m, k)
    ensures w.durable.facts == DoPerform(w, sid, rejected).durable.facts
  {
    var s := w.sessions[sid];
    var pc := s.phase.pc;
    assert SessionOk(s, w.durable, n, k);
    SchemaSession(s, w.durable, n, k);
    SchemaEffect(w.durable, n, pc, s.kind == Successor, rejected);
    var e := Execute(w.durable, s.pending, StatementAt(pc), s.kind == Successor, rejected);
    var s' := s.(phase := Running(pc + 1, 0));
    PerformResult(w, sid, rejected, e, s');
    if pc == n {
      m := n + 1;
      NextSchemaSession(s, e.durable, n);
      OthersInactive(w, n, k, sid);
      StoreStep(w, n, k, sid, s', e.durable, m, k);
    } else {
      m := n;
      SessionStep(w, n, k, sid, if e.ok then s' else s'.(phase := Stopped, pending := {}));
    }
  }

  // ---------------------------------------------------------------- inserts

  /** An insert of `rows` after `r + k` were written: `added` is kept, the rest turned away. */
  lemma SplitsOn<T>(rows: set<T>, rejected: set<T>, r: set<T>, k: set<T>, added: set<T>)
    requires r !! k && (r + k) !! rows && added == rows - rejected - r
    ensures (r + added) !! (k + rows * rejected) && (r + added) + (k + rows * rejected) == (r + k) + rows
    ensures |r + added| == |r| + |added|
  {
  }

  lemma InsertSplits(pc: nat, r: set<Fact>, k: set<Fact>, rejected: set<Fact>, added: set<Fact>)
    requires SCHEMA <= pc < STATEMENTS && Splits(pc, r, k) && added == Rows(pc) - rejected - r
    ensures Splits(pc + 1, r + added, k + Rows(pc) * rejected) && |r + added| == |r| + |added|
  {
    WrittenNext(pc);
    SplitsOn(Rows(pc), rejected, r, k, added);
  }

  lemma SplitBounded(pc: nat, r: set<Fact>, k: set<Fact>)
    requires pc <= STATEMENTS && Splits(pc, r, k)
    ensures |r| <= MAX_ROWS
  {
    WrittenBounded(pc);
    SubsetCount(r, Written(pc));
  }

  /** The order in which an insert leaves rows out does not matter. */
  lemma AddedRows<T>(rows: set<T>, rejected: set<T>, r: set<T>)
    ensures rows - rejected - r - {} == rows - rejected - {} - r == rows - rejected - r
    ensures r + {} + (rows - rejected - r) == r + (rows - rejected - r)
  {
  }

  lemma TargetThere(pc: nat, n: nat)
    requires SCHEMA <= pc < STATEMENTS && SCHEMA <= n
    ensures TablesOf(pc) <= ObjectsBefore(n) && ObjectsBefore(n) == ObjectsBefore(n + 1)
  {
  }

  lemma AutocommitEffect(d: Store, pc: nat, rejected: set<Fact>, added: set<Fact>)
    requires SCHEMA <= pc < STATEMENTS && d.objects == ObjectsBefore(pc) && added == Rows(pc) - rejected - d.facts
    ensures Execute(d, {}, StatementAt(pc), true, rejected) ==
      Effect(Durable(ObjectsBefore(pc + 1), d.facts + added), {}, |added|, true)
  {
    TargetThere(pc, pc);
    AddedRows(Rows(pc), rejected, d.facts);
  }

  lemma TransactionEffect(d: Store, pending: set<Fact>, pc: nat, rejected: set<Fact>, added: set<Fact>)
    requires SCHEMA <= pc < STATEMENTS && d == Durable(ObjectsBefore(SCHEMA), {}) && added == Rows(pc) - rejected - pending
    ensures Execute(d, pending, StatementAt(pc), false, rejected) == Effect(d, pending + added, |added|, true)
  {
    TargetThere(pc, SCHEMA);
    AddedRows(Rows(pc), rejected, pending);
  }

  /** What an unblocked insert leads to. */
  lemma InsertResult(w: World, n: nat, sid: nat, rejected: set<Fact>, added: set<Fact>) returns (s': Session, d': Store)
    requires sid in w.sessions && w.sessions[sid].phase.Running?
    requires SCHEMA <= w.sessions[sid].phase.pc < STATEMENTS && !Blocked(w, sid, StatementAt(w.sessions[sid].phase.pc))
    requires added == Rows(w.sessions[sid].phase.pc) - rejected - Held(w.sessions[sid], w.durable)
    requires var s := w.sessions[sid];
      && n == DurablePart(s.kind, s.phase.pc) && w.durable.objects == ObjectsBefore(n)
      && s.phase.affected == |Held(s, w.durable)| && |Held(s, w.durable)| + |added| <= MAX_ROWS
      && (if s.kind == Successor then s.pending == {} else w.durable.facts == {})
    ensures var s := w.sessions[sid];
      && s'.kind == s.kind && s'.phase == Running(s.phase.pc + 1, |Held(s, w.durable)| + |added|)
      && Held(s', d') == Held(s, w.durable) + added && (s.kind == Successor ==> s'.pending == {})
      && d'.objects == ObjectsBefore(DurablePart(s.kind, s.phase.pc + 1)) && (s.kind == Migration ==> d'.facts == {})
      && w.durable.facts <= d'.facts
      && DoPerform(w, sid, rejected) == World(d', w.sessions[sid := s'])
  {
    var s := w.sessions[sid];
    var pc := s.phase.pc;
    if s.kind == Successor {
      AutocommitEffect(w.durable, pc, rejected, added);
    } else {
      TransactionEffect(w.durable, s.pending, pc, rejected, added);
    }
    var e := Execute(w.durable, s.pending, StatementAt(pc), s.kind == Successor, rejected);
    s', d' := AfterEffect(s, e), e.durable;
    PerformResult(w, sid, rejected, e, s');
  }

  /** The rows only the owner inserts are locked by nobody else. */
  lemma OwnerNotBlocked(w: World, n: nat, k: set<Fact>, sid: nat)
    requires InvAt(w, n, k) && sid in w.sessions && Owner(w.sessions[sid]) && w.sessions[sid].phase.pc < STATEMENTS
    ensures !Blocked(w, sid, StatementAt(w.sessions[sid].phase.pc))
  {
    forall t | t in w.sessions && t != sid
      ensures w.sessions[t].pending == {}
    {
      NobodyElseActive(w, n, k, sid, t);
      assert SessionOk(w.sessions[t], w.durable, n, k);
    }
  }

  lemma InsertStep(w: World, n: nat, k: set<Fact>, sid: nat, rejected: set<Fact>) returns (m: nat)
    requires InvAt(w, n, k) && sid in w.sessions && w.sessions[sid].phase.Running?
    requires SCHEMA <= w.sessions[sid].phase.pc < STATEMENTS
    ensures !Blocked(w, sid, StatementAt(w.sessions[sid].phase.pc))
    ensures n <= m && InvAt(DoPerform(w, sid, rejected), m, k + Rows(w.sessions[sid].phase.pc) * rejected)
    ensures w.durable.facts <= DoPerform(w, sid, rejected).durable.facts
  {
    var s := w.sessions[sid];
    assert SessionOk(s, w.durable, n, k);
    OwnerNotBlocked(w, n, k, sid);
    var added, l := Rows(s.phase.pc) - rejected - Held(s, w.durable), k + Rows(s.phase.pc) * rejected;
    InsertSplits(s.phase.pc, Held(s, w.durable), k, rejected, added);
    SplitBounded(s.phase.pc + 1, Held(s, w.durable) + added, l);
    m := OwnerInsert(w, n, k, sid, rejected, added, l);
  }

  lemma OwnerInsert(w: World, n: nat, k: set<Fact>, sid: nat, rejected: set<Fact>, added: set<Fact>, l: set<Fact>)
      returns (m: nat)
    requires InvAt(w, n, k) && sid in w.sessions && w.sessions[sid].phase.Running?
    requires SCHEMA <= w.sessions[sid].phase.pc < STATEMENTS && !Blocked(w, sid, StatementAt(w.sessions[sid].phase.pc))
    requires added == Rows(w.sessions[sid].phase.pc) - rejected - Held(w.sessions[sid], w.durable)
    requires var r := Held(w.sessions[sid], w.durable);
      Splits(w.sessions[sid].phase.pc + 1, r + added, l) && |r + added| == |r| + |added| && |r| + |added| <= MAX_ROWS
    ensures n <= m && InvAt(DoPerform(w, sid, rejected), m, l)
    ensures w.durable.facts <= DoPerform(w, sid, rejected).durable.facts
  {
    OwnerIs(w, n, k, sid);
    var s', d' := InsertResult(w, n, sid, rejected, added);
    m := DurablePart(s'.kind, s'.phase.pc);
    InsertedOk(s', d', s'.phase.pc, m, l);
    OthersInactive(w, n, k, sid);
    StoreStep(w, n, k, sid, s', d', m, l);
  }

  lemma OwnerIs(w: World, n: nat, k: set<Fact>, sid: nat)
    requires InvAt(w, n, k) && sid in w.sessions && w.sessions[sid].phase.Running?
    requires SCHEMA <= w.sessions[sid].phase.pc < STATEMENTS
    ensures var s := w.sessions[sid];
      && n == DurablePart(s.kind, s.phase.pc) && w.durable.objects == ObjectsBefore(n) && Active(s) && n < STATEMENTS
      && s.phase.affected == |Held(s, w.durable)|
      && (if s.kind == Successor then s.pending == {} else w.durable.facts == {})
  {
    assert SessionOk(w.sessions[sid], w.durable, n, k);
  }

  lemma InsertedOk(s: Session, d: Store, pc: nat, m: nat, l: set<Fact>)
    requires SCHEMA < pc <= STATEMENTS && s.phase == Running(pc, |Held(s, d)|) && Splits(pc, Held(s, d), l)
    requires m == DurablePart(s.kind, pc) && d.objects == ObjectsBefore(m)
    requires s.kind == Successor ==> s.pending == {}
    requires s.kind == Migration ==> d.facts == {}
    ensures StoreOk(d, m, l) && SessionOk(s, d, m, l)
  {
    WrittenBounded(pc);
  }

  // ---------------------------------------------------------------- the other actions

  lemma LastObjects()
    ensures ObjectsBefore(SCHEMA) == ObjectsBefore(STATEMENTS) == AllObjects()
  {
  }

  /** What the commit makes durable: everything that was not turned away. */
  lemma CommitStep(w: World, n: nat, k: set<Fact>, sid: nat, heard: bool)
    requires InvAt(w, n, k) && sid in w.sessions
    requires w.sessions[sid].phase.Running? && w.sessions[sid].phase.pc == STATEMENTS
    ensures n <= STATEMENTS && InvAt(Do(w, Commit(sid, heard)), STATEMENTS, k)
    ensures w.durable.facts <= Do(w, Commit(sid, heard)).durable.facts
  {
    var s := w.sessions[sid];
    assert SessionOk(s, w.durable, n, k);
    LastObjects();
    var d' := Do(w, Commit(sid, heard)).durable;
    assert d'.facts == Held(s, w.durable);
    var s' := s.(phase := if heard then Committed(s.phase.affected) else Stopped, pending := {});
    if n == STATEMENTS {
      assert d' == w.durable;
      SessionStep(w, n, k, sid, s');
    } else {
      OthersInactive(w, n, k, sid);
      StoreStep(w, n, k, sid, s', d', STATEMENTS, k);
    }
  }

  lemma CommitOutcome(w: World, n: nat, k: set<Fact>, sid: nat, heard: bool)
    requires InvAt(w, n, k) && sid in w.sessions
    requires w.sessions[sid].phase.Running? && w.sessions[sid].phase.pc == STATEMENTS
    ensures var d := Do(w, Commit(sid, heard)).durable;
      d.objects == AllObjects() && |d.facts| == w.sessions[sid].phase.affected
  {
    assert SessionOk(w.sessions[sid], w.durable, n, k);
    LastObjects();
    assert Do(w, Commit(sid, heard)).durable.facts == Held(w.sessions[sid], w.durable);
  }

  lemma StageObjects(n: nat)
    requires n <= STATEMENTS
    ensures ObjectsBefore(n) == {} <==> n == 0
    ensures ObjectsBefore(n) == ObjectsBefore(TABLES) <==> n == TABLES
    ensures ObjectsBefore(n) == AllObjects() <==> n >= SCHEMA
  {
    assert 0 in ObjectsBefore(n) <==> n > 0;
    assert n < SCHEMA ==> n in AllObjects() && n !in ObjectsBefore(n);
    assert 11 in ObjectsBefore(TABLES) && 12 !in ObjectsBefore(TABLES);
    assert (12 in ObjectsBefore(n) <==> n > 12) && (11 in ObjectsBefore(n) <==> n > 11);
  }

  /** With every statement durable, the store is complete exactly when no row was turned away. */
  lemma LastStage(d: Store, k: set<Fact>)
    requires StoreOk(d, STATEMENTS, k)
    ensures d.objects == AllObjects() && d.facts == AllSeeds() - k && d.facts !! k
    ensures Complete(d) <==> k == {}
    ensures |d.facts| == 37 <==> k == {}
    ensures Marker in d.facts <==> Marker !in k
  {
    LastObjects();
    WrittenTotals();
    SubsetCount(d.facts, AllSeeds());
    assert d.facts == AllSeeds() - k;
  }

  lemma MarkerIsLast(d: Store, n: nat, k: set<Fact>)
    requires StoreOk(d, n, k) && Marker in d.facts
    ensures n == STATEMENTS
  {
    if n > SCHEMA {
      assert Marker in Written(n);
    }
  }

  /** What the admission reads decide in a reachable store, by the number of finished statements. */
  lemma DecideByStage(kind: Kind, d: Store, n: nat, k: set<Fact>)
    requires StoreOk(d, n, k)
    ensures Decide(kind, d) ==
      if n == STATEMENTS then (if Marker !in k && (kind == Migration ==> k == {}) then Replayed else Stopped)
      else if n == Start(kind) then Running(n, 0)
      else Stopped
  {
    StageObjects(n);
    if n == STATEMENTS {
      LastStage(d, k);
    } else if Marker in d.facts {
      MarkerIsLast(d, n, k);
    }
  }

  lemma AdmitStep(w: World, n: nat, k: set<Fact>, sid: nat)
    requires InvAt(w, n, k) && sid in w.sessions && w.sessions[sid].phase.Connected?
    ensures InvAt(Do(w, Admit(sid)), n, k)
  {
    var s := w.sessions[sid];
    assert SessionOk(s, w.durable, n, k);
    DecideByStage(s.kind, w.durable, n, k);
    SessionStep(w, n, k, sid, s.(phase := Decide(s.kind, w.durable)));
  }

  /** After the commit the reads find everything exactly when no row was turned away. */
  lemma ReconcileStep(w: World, n: nat, k: set<Fact>, sid: nat)
    requires InvAt(w, n, k) && sid in w.sessions && w.sessions[sid].phase.Committed?
    ensures InvAt(Do(w, Reconcile(sid)), n, k)
    ensures Do(w, Reconcile(sid)).sessions[sid].phase == (if k == {} then Passed else Stopped)
  {
    var s := w.sessions[sid];
    assert SessionOk(s, w.durable, n, k);
    LastStage(w.durable, k);
    SessionStep(w, n, k, sid, s.(phase := if k == {} then Passed else Stopped));
  }

  predicate Performing(w: World, a: Action) {
    a.Perform? && a.sid in w.sessions && w.sessions[a.sid].phase.Running? && w.sessions[a.sid].phase.pc < STATEMENTS
  }

  lemma PerformStep(w: World, n: nat, k: set<Fact>, a: Action) returns (m: nat)
    requires InvAt(w, n, k) && Performing(w, a)
    ensures n <= m && InvAt(Do(w, a), m, k + SkippedBy(w, a)) && w.durable.facts <= Do(w, a).durable.facts
  {
    if w.sessions[a.sid].phase.pc < SCHEMA {
      assert SkippedBy(w, a) == {} && k + {} == k;
      m := SchemaStep(w, n, k, a.sid, a.rejected);
    } else {
      m := InsertStep(w, n, k, a.sid, a.rejected);
    }
  }

  lemma OtherStep(w: World, n: nat, k: set<Fact>, a: Action) returns (m: nat)
    requires InvAt(w, n, k) && !Performing(w, a)
    ensures n <= m && InvAt(Do(w, a), m, k) && w.durable.facts <= Do(w, a).durable.facts
  {
    m := n;
    match a
    case Connect(sid, kind) =>
      if sid !in w.sessions {
        SessionStep(w, n, k, sid, Session(kind, Connected, {}));
      }
    case Admit(sid) =>
      if sid in w.sessions && w.sessions[sid].phase.Connected? {
        AdmitStep(w, n, k, sid);
      }
    case Perform(sid, rejected) =>
    case Commit(sid, heard) =>
      if sid in w.sessions && w.sessions[sid].phase.Running? && w.sessions[sid].phase.pc == STATEMENTS {
        CommitStep(w, n, k, sid, heard);
        m := STATEMENTS;
      }
    case Reconcile(sid) =>
      if sid in w.sessions && w.sessions[sid].phase.Committed? {
        ReconcileStep(w, n, k, sid);
      }
    case Lose(sid) =>
      if sid in w.sessions && !w.sessions[sid].phase.Passed? && !w.sessions[sid].phase.Replayed? {
        SessionStep(w, n, k, sid, w.sessions[sid].(phase := Stopped, pending := {}));
      }
  }

  /** Every action keeps the invariant, and the store only moves forward. */
  lemma DoKeepsInv(w: World, n: nat, k: set<Fact>, a: Action) returns (m: nat)
    requires InvAt(w, n, k)
    ensures n <= m && InvAt(Do(w, a), m, k + SkippedBy(w, a)) && w.durable.facts <= Do(w, a).durable.facts
  {
    if Performing(w, a) {
      m := PerformStep(w, n, k, a);
    } else {
      assert SkippedBy(w, a) == {} && k + {} == k;
      m := OtherStep(w, n, k, a);
    }
  }

  lemma {:induction false} RunKeepsInv(w: World, n: nat, k: set<Fact>, actions: seq<Action>) returns (m: nat)
    requires InvAt(w, n, k)
    ensures n <= m && InvAt(Run(w, actions), m, k + Skipped(w, actions)) && w.durable.facts <= Run(w, actions).durable.facts
  {
    if actions == [] {
      m := n;
      assert k + {} == k;
    } else {
      var before, last := actions[..|actions| - 1], actions[|actions| - 1];
      var i := RunKeepsInv(w, n, k, before);
      m := DoKeepsInv(Run(w, before), i, k + Skipped(w, before), last);
      assert k + Skipped(w, actions) == k + Skipped(w, before) + SkippedBy(Run(w, before), last);
    }
  }

  lemma AlwaysInv(actions: seq<Action>) returns (n: nat)
    ensures InvAt(Run(INITIAL, actions), n, Skipped(INITIAL, actions))
  {
    StageObjects(0);
    n := RunKeepsInv(INITIAL, 0, {}, actions);
    assert {} + Skipped(INITIAL, actions) == Skipped(INITIAL, actions);
  }

  // ---------------------------------------------------------------- main results

  /** In every run a durable marker comes with every table and view and with every seed row that was not turned away:
      all 37 of them exactly when none was. */
  lemma MarkerMeansSchema(actions: seq<Action>)
    requires Marker in Run(INITIAL, actions).durable.facts
    ensures var d := Run(INITIAL, actions).durable;
      d.objects == AllObjects() && d.facts == AllSeeds() - Skipped(INITIAL, actions)
    ensures Complete(Run(INITIAL, actions).durable) <==> Skipped(INITIAL, actions) == {}
    ensures |Run(INITIAL, actions).durable.facts| == 37 <==> Skipped(INITIAL, actions) == {}
  {
    var n := AlwaysInv(actions);
    var d, k := Run(INITIAL, actions).durable, Skipped(INITIAL, actions);
    MarkerIsLast(d, n, k);
    LastStage(d, k);
  }

  lemma {:induction false} NoneSkipped(w: World, actions: seq<Action>)
    requires forall a :: a in actions && a.Perform? ==> a.rejected == {}
    ensures Skipped(w, actions) == {}
  {
    if actions != [] {
      NoneSkipped(w, actions[..|actions| - 1]);
      assert actions[|actions| - 1] in actions;
    }
  }

  /** When no insert turns a row away, the marker is durable only with the exact seed counts 4, 15, 17 and 1. */
  lemma MarkerMeansComplete(actions: seq<Action>)
    requires forall a :: a in actions && a.Perform? ==> a.rejected == {}
    requires Marker in Run(INITIAL, actions).durable.facts
    ensures Complete(Run(INITIAL, actions).durable) && |Run(INITIAL, actions).durable.facts| == 37
    ensures |Rows(15)| == 4 && |Rows(16)| == 15 && |Rows(17)| == 17 && |Rows(18)| == 1
  {
    NoneSkipped(INITIAL, actions);
    MarkerMeansSchema(actions);
    SeedCounts();
  }

  lemma ObjectsGrow(n: nat, m: nat)
    requires n <= m
    ensures ObjectsBefore(n) <= ObjectsBefore(m)
  {
  }

  lemma StoreBounded(d: Store, n: nat, k: set<Fact>)
    requires StoreOk(d, n, k)
    ensures |d.facts| <= MAX_ROWS
  {
    if n > SCHEMA {
      WrittenBounded(n);
      SubsetCount(d.facts, Written(n));
    }
  }

  /** Objects and rows are never taken back, and there are never more than 37 seed rows. */
  lemma NothingTakenBack(actions: seq<Action>, more: seq<Action>)
    ensures var d, d' := Run(INITIAL, actions).durable, Run(Run(INITIAL, actions), more).durable;
      d.objects <= d'.objects && d.facts <= d'.facts && |d'.facts| <= 37
  {
    var n := AlwaysInv(actions);
    var w, k := Run(INITIAL, actions), Skipped(INITIAL, actions);
    var m := RunKeepsInv(w, n, k, more);
    ObjectsGrow(n, m);
    StoreBounded(Run(w, more).durable, m, k + Skipped(w, more));
  }

  lemma LastStageStep(w: World, k: set<Fact>, a: Action)
    requires InvAt(w, STATEMENTS, k)
    ensures InvAt(Do(w, a), STATEMENTS, k) && Do(w, a).durable == w.durable
  {
    var m := DoKeepsInv(w, STATEMENTS, k, a);
    if Performing(w, a) {
      assert SessionOk(w.sessions[a.sid], w.durable, STATEMENTS, k);
    }
    assert SkippedBy(w, a) == {} && k + {} == k;
    LastStage(w.durable, k);
    LastStage(Do(w, a).durable, k);
  }

  /** A store with the marker never changes again. The successor replays it whatever its seed rows; the migration
      replays it exactly when it is complete. */
  lemma {:induction false} MarkedOnlyReplays(w: World, k: set<Fact>, actions: seq<Action>)
    requires InvAt(w, STATEMENTS, k) && Marker in w.durable.facts
    ensures InvAt(Run(w, actions), STATEMENTS, k) && Run(w, actions).durable == w.durable
    ensures Decide(Successor, w.durable) == Replayed
    ensures Decide(Migration, w.durable) == if Complete(w.durable) then Replayed else Stopped
  {
    if actions != [] {
      MarkedOnlyReplays(w, k, actions[..|actions| - 1]);
      LastStageStep(Run(w, actions[..|actions| - 1]), k, actions[|actions| - 1]);
    }
    LastStage(w.durable, k);
    DecideByStage(Migration, w.durable, STATEMENTS, k);
    DecideByStage(Successor, w.durable, STATEMENTS, k);
  }

  /** The admission table over every reachable store: empty is for the migration, twelve empty tables for the
      successor; one with the marker is replayed by the successor, and by the migration when it is complete; every
      other store is refused by both. */
  lemma AdmissionTable(actions: seq<Action>) returns (n: nat)
    ensures var d := Run(INITIAL, actions).durable;
      && n <= STATEMENTS && d.objects == ObjectsBefore(n) && (n <= SCHEMA ==> d.facts == {})
      && (Decide(Migration, d).Running? <==> n == 0) && (Decide(Successor, d).Running? <==> n == TABLES)
      && (Decide(Migration, d).Replayed? <==> Complete(d)) && (Decide(Successor, d).Replayed? <==> Marker in d.facts)
      && (n != 0 && n != TABLES && Marker !in d.facts ==> forall kind :: Decide(kind, d) == Stopped)
  {
    n := AlwaysInv(actions);
    var d, k := Run(INITIAL, actions).durable, Skipped(INITIAL, actions);
    DecideByStage(Migration, d, n, k);
    DecideByStage(Successor, d, n, k);
    StageObjects(n);
    if n == STATEMENTS {
      LastStage(d, k);
    } else if Marker in d.facts {
      MarkerIsLast(d, n, k);
    }
  }

  /** A PASS after writing means the migration is complete, and only one run ever reports one; so does a PASS for a
      replay by the migration. A replay by the successor only means the marker and every object. */
  lemma PassMeansComplete(actions: seq<Action>, sid: nat)
    requires var w := Run(INITIAL, actions);
      sid in w.sessions && (w.sessions[sid].phase == Passed || w.sessions[sid].phase == Replayed)
    ensures var w := Run(INITIAL, actions);
      && Marker in w.durable.facts && w.durable.objects == AllObjects()
      && (w.sessions[sid].phase == Passed || w.sessions[sid].kind == Migration ==> Complete(w.durable))
    ensures var w := Run(INITIAL, actions);
      w.sessions[sid].phase == Passed ==> forall t :: t in w.sessions && t != sid ==> w.sessions[t].phase != Passed
  {
    var n := AlwaysInv(actions);
    var w, k := Run(INITIAL, actions), Skipped(INITIAL, actions);
    assert SessionOk(w.sessions[sid], w.durable, n, k);
    LastStage(w.durable, k);
    if w.sessions[sid].phase == Passed {
      forall t | t in w.sessions && t != sid
        ensures w.sessions[t].phase != Passed
      {
        NobodyElseActive(w, n, k, sid, t);
      }
    }
  }

  // ---------------------------------------------------------------- dead ends and recovery

  ghost predicate Quiet(w: World) {
    forall sid {:trigger w.sessions[sid]} :: sid in w.sessions ==> !w.sessions[sid].phase.Running? && w.sessions[sid].pending == {}
  }

  ghost predicate Admitted(d: Store) {
    exists kind :: Decide(kind, d).Running?
  }

  lemma QuietStep(w: World, a: Action)
    requires Quiet(w) && !Admitted(w.durable)
    ensures Quiet(Do(w, a)) && Do(w, a).durable == w.durable
  {
  }

  /** When nothing runs and neither executor admits the store, it never changes again. */
  lemma {:induction false} FrozenUnlessAdmitted(w: World, actions: seq<Action>)
    requires Quiet(w) && !Admitted(w.durable)
    ensures Quiet(Run(w, actions)) && Run(w, actions).durable == w.durable
  {
    if actions != [] {
      FrozenUnlessAdmitted(w, actions[..|actions| - 1]);
      QuietStep(Run(w, actions[..|actions| - 1]), actions[|actions| - 1]);
    }
  }

  lemma RunAppend(w: World, actions: seq<Action>, a: Action)
    ensures Run(w, actions + [a]) == Do(Run(w, actions), a)
  {
    assert (actions + [a])[..|actions + [a]| - 1] == actions;
  }

  lemma {:induction false} RunConcat(w: World, a: seq<Action>, b: seq<Action>)
    ensures Run(w, a + b) == Run(Run(w, a), b)
  {
    if b == [] {
      assert a + b == a;
    } else {
      RunConcat(w, a, b[..|b| - 1]);
      assert a + b == (a + b[..|b| - 1]) + [b[|b| - 1]];
      RunAppend(w, a + b[..|b| - 1], b[|b| - 1]);
    }
  }

  /** The rows an undisturbed run has written before `pc`, the rows `rejected` always turned away. */
  function Left(pc: nat, rejected: set<Fact>): set<Fact> {
    Written(pc) - rejected
  }

  function LoneStore(kind: Kind, pc: nat, rejected: set<Fact>): Store {
    Durable(ObjectsBefore(pc), if kind == Successor then Left(pc, rejected) else {})
  }

  function LoneSession(kind: Kind, pc: nat, rejected: set<Fact>): Session {
    Session(kind, Running(pc, |Left(pc, rejected)|), if kind == Migration then Left(pc, rejected) else {})
  }

  /** Such a run has reached statement `pc`. */
  ghost predicate Lone(w: World, sid: nat, kind: Kind, pc: nat, rejected: set<Fact>) {
    && sid in w.sessions && w.sessions[sid] == LoneSession(kind, pc, rejected)
    && w.durable == LoneStore(kind, pc, rejected) && OthersIdle(w, sid)
  }

  ghost predicate OthersIdle(w: World, sid: nat) {
    forall t {:trigger w.sessions[t]} :: t in w.sessions && t != sid ==> w.sessions[t].pending == {}
  }

  lemma LeftOn<T>(before: set<T>, rows: set<T>, rejected: set<T>, added: set<T>)
    requires before !! rows && added == rows - rejected - (before - rejected)
    ensures (before + rows) - rejected == (before - rejected) + added
    ensures |(before - rejected) + added| == |before - rejected| + |added|
  {
  }

  lemma LeftNext(pc: nat, rejected: set<Fact>, added: set<Fact>)
    requires SCHEMA <= pc < STATEMENTS && added == Rows(pc) - rejected - Left(pc, rejected)
    ensures Left(pc + 1, rejected) == Left(pc, rejected) + added && |Left(pc + 1, rejected)| == |Left(pc, rejected)| + |added|
  {
    WrittenNext(pc);
    LeftOn(Written(pc), Rows(pc), rejected, added);
  }

  lemma LeftBounded(pc: nat, rejected: set<Fact>)
    requires pc <= STATEMENTS
    ensures |Left(pc, rejected)| <= MAX_ROWS
  {
    WrittenBounded(pc);
    SubsetCount(Left(pc, rejected), Written(pc));
  }

  lemma NoneLeft(pc: nat, rejected: set<Fact>)
    requires pc <= SCHEMA
    ensures Left(pc, rejected) == {}
  {
    if pc > 0 {
      WrittenNext(pc - 1);
    }
  }

  /** What one statement of such a run does. */
  ghost predicate Advances(kind: Kind, pc: nat, rejected: set<Fact>)
    requires pc < STATEMENTS
  {
    var s := LoneSession(kind, pc, rejected);
    var e := Execute(LoneStore(kind, pc, rejected), s.pending, StatementAt(pc), kind == Successor, rejected);
    && e.ok && e.durable == LoneStore(kind, pc + 1, rejected) && AfterEffect(s, e) == LoneSession(kind, pc + 1, rejected)
    && |Left(pc + 1, rejected)| <= MAX_ROWS
  }

  lemma SchemaAdvances(kind: Kind, pc: nat, rejected: set<Fact>)
    requires pc < SCHEMA
    ensures Advances(kind, pc, rejected)
  {
    NoneLeft(pc, rejected);
    NoneLeft(pc + 1, rejected);
    SchemaEffect(LoneStore(kind, pc, rejected), pc, pc, kind == Successor, rejected);
  }

  lemma AutocommitAdvances(pc: nat, rejected: set<Fact>, added: set<Fact>)
    requires SCHEMA <= pc < STATEMENTS && added == Rows(pc) - rejected - Left(pc, rejected)
    requires Left(pc + 1, rejected) == Left(pc, rejected) + added
    requires |Left(pc + 1, rejected)| == |Left(pc, rejected)| + |added| <= MAX_ROWS
    ensures Advances(Successor, pc, rejected)
  {
    AutocommitEffect(LoneStore(Successor, pc, rejected), pc, rejected, added);
  }

  lemma TransactionAdvances(pc: nat, rejected: set<Fact>, added: set<Fact>)
    requires SCHEMA <= pc < STATEMENTS && added == Rows(pc) - rejected - Left(pc, rejected)
    requires Left(pc + 1, rejected) == Left(pc, rejected) + added
    requires |Left(pc + 1, rejected)| == |Left(pc, rejected)| + |added| <= MAX_ROWS
    ensures Advances(Migration, pc, rejected)
  {
    ObjectsAfterSchema(pc);
    ObjectsAfterSchema(pc + 1);
    TransactionEffect(LoneStore(Migration, pc, rejected), Left(pc, rejected), pc, rejected, added);
  }

  lemma InsertAdvances(kind: Kind, pc: nat, rejected: set<Fact>, added: set<Fact>)
    requires SCHEMA <= pc < STATEMENTS && added == Rows(pc) - rejected - Left(pc, rejected)
    ensures Advances(kind, pc, rejected)
  {
    LeftBounded(pc + 1, rejected);
    LeftNext(pc, rejected, added);
    if kind == Successor {
      AutocommitAdvances(pc, rejected, added);
    } else {
      TransactionAdvances(pc, rejected, added);
    }
  }

  lemma ObjectsAfterSchema(pc: nat)
    requires SCHEMA <= pc
    ensures ObjectsBefore(pc) == ObjectsBefore(SCHEMA)
  {
  }

  lemma LoneStep(w: World, sid: nat, kind: Kind, pc: nat, rejected: set<Fact>, next: nat)
    requires Lone(w, sid, kind, pc, rejected) && pc < STATEMENTS && next == pc + 1
    ensures Lone(Do(w, Perform(sid, rejected)), sid, kind, next, rejected)
  {
    if pc < SCHEMA {
      SchemaAdvances(kind, pc, rejected);
    } else {
      InsertAdvances(kind, pc, rejected, Rows(pc) - rejected - Left(pc, rejected));
    }
    LoneAdvances(w, sid, kind, pc, rejected, next);
  }

  lemma LoneAdvances(w: World, sid: nat, kind: Kind, pc: nat, rejected: set<Fact>, next: nat)
    requires Lone(w, sid, kind, pc, rejected) && pc < STATEMENTS && next == pc + 1 && Advances(kind, pc, rejected)
    ensures Lone(Do(w, Perform(sid, rejected)), sid, kind, next, rejected)
  {
    var e := Execute(w.durable, w.sessions[sid].pending, StatementAt(pc), kind == Successor, rejected);
    assert !Blocked(w, sid, StatementAt(pc));
    PerformResult(w, sid, rejected, e, LoneSession(kind, next, rejected));
  }

  function Performs(sid: nat, n: nat, rejected: set<Fact>): seq<Action> {
    seq(n, i => Perform(sid, rejected))
  }

  /** The world after the next `n` statements of one session. */
  function Performed(w: World, sid: nat, n: nat, rejected: set<Fact>): World {
    Run(w, Performs(sid, n, rejected))
  }

  lemma PerformedNext(w: World, sid: nat, n: nat, rejected: set<Fact>)
    ensures Performed(w, sid, 0, rejected) == w
    ensures Performed(w, sid, n + 1, rejected) == Do(Performed(w, sid, n, rejected), Perform(sid, rejected))
  {
    assert Performs(sid, 0, rejected) == [];
    assert Performs(sid, n + 1, rejected) == Performs(sid, n, rejected) + [Perform(sid, rejected)];
    RunAppend(w, Performs(sid, n, rejected), Perform(sid, rejected));
  }

  lemma LoneMore(w: World, sid: nat, kind: Kind, rejected: set<Fact>, n: nat, more: nat, pc: nat, next: nat)
    requires Lone(Performed(w, sid, n, rejected), sid, kind, pc, rejected)
    requires pc < STATEMENTS && next == pc + 1 && more == n + 1
    ensures Lone(Performed(w, sid, more, rejected), sid, kind, next, rejected)
  {
    PerformedNext(w, sid, n, rejected);
    LoneStep(Performed(w, sid, n, rejected), sid, kind, pc, rejected, next);
  }

  lemma LoneStart(w: World, sid: nat, kind: Kind, pc: nat, rejected: set<Fact>, n: nat, end: nat)
    requires Lone(w, sid, kind, pc, rejected) && n == 0 && end == pc
    ensures Lone(Performed(w, sid, n, rejected), sid, kind, end, rejected)
  {
    PerformedNext(w, sid, 0, rejected);
  }

  lemma {:induction false} LoneRun(w: World, sid: nat, kind: Kind, pc: nat, rejected: set<Fact>, n: nat, end: nat)
    requires Lone(w, sid, kind, pc, rejected) && end == pc + n && end <= STATEMENTS
    ensures Lone(Performed(w, sid, n, rejected), sid, kind, end, rejected)
    decreases n
  {
    if n == 0 {
      LoneStart(w, sid, kind, pc, rejected, n, end);
    } else {
      var m, e := n - 1, end - 1;
      LoneRun(w, sid, kind, pc, rejected, m, e);
      LoneMore(w, sid, kind, rejected, m, n, e, end);
    }
  }

  function Opening(sid: nat, kind: Kind): seq<Action> {
    [Connect(sid, kind), Admit(sid)]
  }

  function WholeRun(sid: nat, kind: Kind, rejected: set<Fact>): seq<Action> {
    Opening(sid, kind) + Performs(sid, STATEMENTS - Start(kind), rejected) + [Commit(sid, true)] + [Reconcile(sid)]
  }

  lemma OpenedIsLone(w: World, sid: nat, kind: Kind, rejected: set<Fact>)
    requires Quiet(w) && sid !in w.sessions && w.durable == Durable(ObjectsBefore(Start(kind)), {})
    ensures Lone(Do(Do(w, Connect(sid, kind)), Admit(sid)), sid, kind, Start(kind), rejected)
  {
    DecideByStage(kind, w.durable, Start(kind), {});
    NoneLeft(Start(kind), rejected);
  }

  lemma OpeningIsLone(w: World, sid: nat, kind: Kind, rejected: set<Fact>)
    requires Quiet(w) && sid !in w.sessions && w.durable == Durable(ObjectsBefore(Start(kind)), {})
    ensures Lone(Run(w, Opening(sid, kind)), sid, kind, Start(kind), rejected)
  {
    OpenedIsLone(w, sid, kind, rejected);
    RunAppend(w, [], Connect(sid, kind));
    assert [] + [Connect(sid, kind)] == [Connect(sid, kind)];
    RunAppend(w, [Connect(sid, kind)], Admit(sid));
    assert Opening(sid, kind) == [Connect(sid, kind)] + [Admit(sid)];
  }

  lemma SomeTurnedAway(rejected: set<Fact>)
    ensures rejected !! AllSeeds() <==> AllSeeds() - rejected == AllSeeds()
    ensures rejected !! AllSeeds() <==> |AllSeeds() - rejected| == MAX_ROWS
  {
    WrittenTotals();
    SubsetCount(AllSeeds() - rejected, AllSeeds());
  }

  lemma CommitLone(w: World, sid: nat, kind: Kind, rejected: set<Fact>)
    requires Lone(w, sid, kind, STATEMENTS, rejected)
    ensures var v := Do(w, Commit(sid, true));
      && v.durable == Durable(AllObjects(), AllSeeds() - rejected)
      && sid in v.sessions && v.sessions[sid] == Session(kind, Committed(|AllSeeds() - rejected|), {})
  {
    WrittenTotals();
    LastObjects();
    assert Left(STATEMENTS, rejected) + {} == {} + Left(STATEMENTS, rejected) == AllSeeds() - rejected;
  }

  lemma ReconcileLone(w: World, sid: nat, kind: Kind, rejected: set<Fact>)
    requires w.durable == Durable(AllObjects(), AllSeeds() - rejected)
    requires sid in w.sessions && w.sessions[sid] == Session(kind, Committed(|AllSeeds() - rejected|), {})
    ensures var v := Do(w, Reconcile(sid));
      && v.durable == w.durable && sid in v.sessions
      && v.sessions[sid].phase == if rejected !! AllSeeds() then Passed else Stopped
  {
    SomeTurnedAway(rejected);
  }

  /** From each admitted quiet store one undisturbed run of its executor makes everything durable that is not turned
      away, and reports success exactly when nothing is. */
  lemma AdmittedCompletes(w: World, sid: nat, kind: Kind, rejected: set<Fact>)
    requires Quiet(w) && sid !in w.sessions && w.durable == Durable(ObjectsBefore(Start(kind)), {})
    ensures var v := Run(w, WholeRun(sid, kind, rejected));
      && v.durable == Durable(AllObjects(), AllSeeds() - rejected) && sid in v.sessions
      && v.sessions[sid].phase == if rejected !! AllSeeds() then Passed else Stopped
  {
    var n := STATEMENTS - Start(kind);
    OpeningIsLone(w, sid, kind, rejected);
    LoneRun(Run(w, Opening(sid, kind)), sid, kind, Start(kind), rejected, n, STATEMENTS);
    assert Performed(Run(w, Opening(sid, kind)), sid, n, rejected) ==
      Run(Run(w, Opening(sid, kind)), Performs(sid, n, rejected));
    RunConcat(w, Opening(sid, kind), Performs(sid, n, rejected));
    var actions := Opening(sid, kind) + Performs(sid, n, rejected);
    RunAppend(w, actions, Commit(sid, true));
    RunAppend(w, actions + [Commit(sid, true)], Reconcile(sid));
    CommitLone(Run(w, actions), sid, kind, rejected);
    ReconcileLone(Run(w, actions + [Commit(sid, true)]), sid, kind, rejected);
  }

  const A_GRANT: Fact := 19

  /** One grant turned away: the migration fails after its commit, every later migration is refused, and the successor
      takes the incomplete store for a replay. */
  lemma IncompleteReplayReachable()
    ensures var w := Run(INITIAL, WholeRun(0, Migration, {A_GRANT}));
      && 0 in w.sessions && w.sessions[0].phase == Stopped && Marker in w.durable.facts && !Complete(w.durable)
      && Decide(Migration, w.durable) == Stopped && Decide(Successor, w.durable) == Replayed
  {
    SeedCounts();
    StageObjects(0);
    AdmittedCompletes(INITIAL, 0, Migration, {A_GRANT});
    assert A_GRANT in AllSeeds() && Marker in AllSeeds();
    assert !({A_GRANT} !! AllSeeds());
  }
}
