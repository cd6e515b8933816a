/** The first administrator: bootstrap and activation as sessions on one database, each a transaction behind the
    account row's lock. A session may lose its connection at any statement, and the response to its commit. */
module AdminIdentity {

  datatype AccountState = NoAccount | Pending | Active

  datatype TokenState = NoToken | Unused | Consumed

  datatype Role = User | Librarian | ResearchAdmin

  /** The identity rows of the approved material. */
  datatype Db = Db(account: AccountState, identifier: bool, roles: set<Role>, token: TokenState, provisioned: bool,
                   credential: bool, activated: bool)

  const EMPTY := Db(NoAccount, false, {}, NoToken, false, false, false)
  const PENDING := Db(Pending, true, {User, Librarian, ResearchAdmin}, Unused, true, false, false)
  const ACTIVE := Db(Active, true, {User, Librarian, ResearchAdmin}, Consumed, true, true, true)

  datatype Kind = Bootstrap | Activation

  /** A running session keeps what its own clock said of the token before it asked for the first lock. */
  datatype Phase =
    | Connected
    | Running(pc: nat, draft: Db, wrote: nat, timely: bool)
    | Replayed
    | Refused
    | Passed
    | Stopped

  datatype Session = Session(kind: Kind, phase: Phase)

  /** `commits` records which transactions became durable, in order. */
  datatype World = World(db: Db, sessions: map<nat, Session>, commits: seq<Kind>)

  /** `Admit` asks the server's clock whether the token has expired, and then the session's own. */
  datatype Action =
    | Connect(sid: nat, kind: Kind)
    | Admit(sid: nat, unexpired: bool, timely: bool)
    | Perform(sid: nat)
    | Commit(sid: nat, heard: bool)
    | Lose(sid: nat)

  // ---------------------------------------------------------------- the checks

  /** Every bootstrap row is there exactly once, as bootstrap leaves it. */
  predicate BootstrapRows(d: Db) {
    d.account == Pending && d.identifier && d.roles == {User, Librarian, ResearchAdmin} && d.token == Unused && d.provisioned
  }

  predicate AnyBootstrapRow(d: Db) {
    d.account == Pending || d.identifier || d.roles != {} || d.token == Unused || d.provisioned
  }

  /** `_fresh_state`; a token that has expired does not count. */
  predicate FreshState(d: Db, unexpired: bool) {
    d.account == Pending && d.identifier && d.token == Unused && unexpired && !d.credential && !d.activated
  }

  predicate CompletedState(d: Db) {
    d.account == Active && d.credential && d.token == Consumed && d.activated
  }

  datatype Decision = Replay | Apply | Refuse

  function Decide(kind: Kind, d: Db, unexpired: bool): Decision {
    match kind
    case Bootstrap =>
      if BootstrapRows(d) then Replay
      else if AnyBootstrapRow(d) || d.account != NoAccount then Refuse
      else Apply
    case Activation =>
      if CompletedState(d) then Replay
      else if !FreshState(d, unexpired) then Refuse
      else Apply
  }

  // ---------------------------------------------------------------- the statements

  datatype Effect = Done(d: Db, rows: nat) | Error

  /** Number of statements before the commit, the postflight check included. */
  function Length(kind: Kind): nat {
    match kind case Bootstrap => 8 case Activation => 7
  }

  function Insert(absent: bool, d: Db): Effect {
    if absent then Done(d, 1) else Error
  }

  function GrantRole(d: Db, role: Role): Effect {
    Insert(role !in d.roles, d.(roles := d.roles + {role}))
  }

  /** Inserts fail on a row that is already there, updates on one that is not in the expected state. */
  function Statement(kind: Kind, pc: nat, d: Db, timely: bool): Effect {
    match kind
    case Bootstrap => (
      match pc
      case 0 => Insert(d.account == NoAccount, d.(account := Pending))
      case 1 => Insert(!d.identifier, d.(identifier := true))
      case 2 => GrantRole(d, User)
      case 3 => GrantRole(d, Librarian)
      case 4 => GrantRole(d, ResearchAdmin)
      case 5 => Insert(d.token == NoToken, d.(token := Unused))
      case 6 => Insert(!d.provisioned, d.(provisioned := true))
      case _ => if BootstrapRows(d) then Done(d, 0) else Error)
    case Activation => (
      match pc
      case 0 => Done(d, 0)
      case 1 => if d.account == Pending && d.token == Unused && timely then Done(d, 0) else Error
      case 2 => Insert(!d.credential, d.(credential := true))
      case 3 => Insert(d.token == Unused, d.(token := Consumed))
      case 4 => Insert(d.account == Pending, d.(account := Active))
      case 5 => Insert(!d.activated, d.(activated := true))
      case _ => if CompletedState(d) then Done(d, 0) else Error)
  }

  // ---------------------------------------------------------------- steps

  /** A session holds the account row's lock from its first statement to the end of its transaction. */
  predicate Holds(s: Session) {
    s.phase.Running? && s.phase.pc > 0
  }

  predicate Blocked(w: World, sid: nat) {
    exists t :: t in w.sessions && t != sid && Holds(w.sessions[t])
  }

  function Put(w: World, sid: nat, s: Session): World {
    w.(sessions := w.sessions[sid := s])
  }

  function DoAdmit(w: World, sid: nat, unexpired: bool, timely: bool): World
    requires sid in w.sessions
  {
    var s := w.sessions[sid];
    match Decide(s.kind, w.db, unexpired)
    case Replay => Put(w, sid, s.(phase := Replayed))
    case Refuse => Put(w, sid, s.(phase := Refused))
    case Apply => Put(w, sid, s.(phase := Running(0, w.db, 0, timely)))
  }

  /** The first statement reads the current rows; later ones read the transaction's own. */
  function DoPerform(w: World, sid: nat): World
    requires sid in w.sessions && w.sessions[sid].phase.Running?
  {
    var s := w.sessions[sid];
    var pc := s.phase.pc;
    match Statement(s.kind, pc, if pc == 0 then w.db else s.phase.draft, s.phase.timely)
    case Done(d, rows) => Put(w, sid, s.(phase := Running(pc + 1, d, s.phase.wrote + rows, s.phase.timely)))
    case Error => Put(w, sid, s.(phase := Stopped))
  }

  function DoCommit(w: World, sid: nat, heard: bool): World
    requires sid in w.sessions && w.sessions[sid].phase.Running?
  {
    var s := w.sessions[sid];
    Put(w, sid, s.(phase := if heard then Passed else Stopped)).(db := s.phase.draft, commits := w.commits + [s.kind])
  }

  function Do(w: World, a: Action): World {
    match a
    case Connect(sid, kind) => if sid in w.sessions then w else Put(w, sid, Session(kind, Connected))
    case Admit(sid, unexpired, timely) =>
      if sid in w.sessions && w.sessions[sid].phase.Connected? then DoAdmit(w, sid, unexpired, timely) else w
    case Perform(sid) =>
      if sid in w.sessions && w.sessions[sid].phase.Running? && w.sessions[sid].phase.pc < Length(w.sessions[sid].kind)
         && !Blocked(w, sid)
      then DoPerform(w, sid) else w
    case Commit(sid, heard) =>
      if sid in w.sessions && w.sessions[sid].phase.Running? && w.sessions[sid].phase.pc == Length(w.sessions[sid].kind)
      then DoCommit(w, sid, heard) else w
    case Lose(sid) =>
      if sid in w.sessions && (w.sessions[sid].phase.Connected? || w.sessions[sid].phase.Running?)
      then Put(w, sid, w.sessions[sid].(phase := Stopped)) else w
  }

  function Run(w: World, actions: seq<Action>): World {
    if actions == [] then w else Do(Run(w, actions[..|actions| - 1]), actions[|actions| - 1])
  }

  const INITIAL := World(EMPTY, map[], [])

  // ---------------------------------------------------------------- the invariant

  /** The draft of a transaction after its first `pc` statements. */
  function Draft(kind: Kind, pc: nat): Db {
    match kind
    case Bootstrap => (
      match pc
      case 0 => EMPTY
      case 1 => EMPTY.(account := Pending)
      case 2 => EMPTY.(account := Pending, identifier := true)
      case 3 => EMPTY.(account := Pending, identifier := true, roles := {User})
      case 4 => EMPTY.(account := Pending, identifier := true, roles := {User, Librarian})
      case 5 => EMPTY.(account := Pending, identifier := true, roles := {User, Librarian, ResearchAdmin})
      case 6 => EMPTY.(account := Pending, identifier := true, roles := {User, Librarian, ResearchAdmin}, token := Unused)
      case _ => PENDING)
    case Activation => (
      match pc
      case 0 => PENDING
      case 1 => PENDING
      case 2 => PENDING
      case 3 => PENDING.(credential := true)
      case 4 => PENDING.(credential := true, token := Consumed)
      case 5 => PENDING.(credential := true, token := Consumed, account := Active)
      case _ => ACTIVE)
  }

  function RowsAt(kind: Kind, pc: nat): nat {
    match kind
    case Bootstrap => if pc <= 7 then pc else 7
    case Activation => if pc <= 2 then 0 else if pc <= 6 then pc - 2 else 4
  }

  /** Where each kind of transaction starts. */
  function Before(kind: Kind): Db {
    match kind case Bootstrap => EMPTY case Activation => PENDING
  }

  function After(kind: Kind): Db {
    match kind case Bootstrap => PENDING case Activation => ACTIVE
  }

  /** A transaction that holds the lock works on the state it was written for, and has written exactly its rows;
      an activation that has only taken the lock has seen whatever was there. */
  ghost predicate SessionOk(s: Session, d: Db) {
    Holds(s) ==>
      if s.kind.Activation? && s.phase.pc == 1 then s.phase.draft == d && s.phase.wrote == 0
      else
        && s.phase.pc <= Length(s.kind) && d == Before(s.kind) && (s.kind.Activation? ==> s.phase.timely)
        && s.phase.draft == Draft(s.kind, s.phase.pc) && s.phase.wrote == RowsAt(s.kind, s.phase.pc)
  }

  /** Before the first statement nothing has been written. */
  ghost predicate NothingYet(s: Session) {
    s.phase.Running? && s.phase.pc == 0 ==> s.phase.wrote == 0
  }

  ghost predicate StageOk(w: World) {
    || (w.db == EMPTY && w.commits == [])
    || (w.db == PENDING && w.commits == [Bootstrap])
    || (w.db == ACTIVE && w.commits == [Bootstrap, Activation])
  }

  ghost predicate SessionsOk(w: World) {
    forall t {:trigger SessionOk(w.sessions[t], w.db)} :: t in w.sessions ==>
      SessionOk(w.sessions[t], w.db) && NothingYet(w.sessions[t])
  }

  ghost predicate OneHolder(w: World) {
    forall s, t {:trigger Holds(w.sessions[s]), Holds(w.sessions[t])} ::
      s in w.sessions && t in w.sessions && Holds(w.sessions[s]) && Holds(w.sessions[t]) ==> s == t
  }

  /** A run that was told of its commit is on record, and so is what a replay found. */
  ghost predicate ReportOk(s: Session, commits: seq<Kind>) {
    (s.phase.Passed? || s.phase.Replayed?) ==> s.kind in commits
  }

  ghost predicate ReportsOk(w: World) {
    forall t {:trigger ReportOk(w.sessions[t], w.commits)} :: t in w.sessions ==> ReportOk(w.sessions[t], w.commits)
  }

  ghost predicate Inv(w: World) {
    StageOk(w) && SessionsOk(w) && OneHolder(w) && ReportsOk(w)
  }

  lemma BootstrapStatements(pc: nat, timely: bool)
    requires pc < Length(Bootstrap)
    ensures var e := Statement(Bootstrap, pc, Draft(Bootstrap, pc), timely);
      e.Done? && e.d == Draft(Bootstrap, pc + 1) && RowsAt(Bootstrap, pc + 1) == RowsAt(Bootstrap, pc) + e.rows
  {
  }

  lemma ActivationStatements(pc: nat, timely: bool)
    requires pc < Length(Activation)
    ensures var e := Statement(Activation, pc, Draft(Activation, pc), timely);
      e.Done? ==> e.d == Draft(Activation, pc + 1) && RowsAt(Activation, pc + 1) == RowsAt(Activation, pc) + e.rows
    ensures Statement(Activation, pc, Draft(Activation, pc), timely).Error? <==> pc == 1 && !timely
  {
  }

  lemma StatementAdvances(kind: Kind, pc: nat, timely: bool)
    requires pc < Length(kind)
    ensures var e := Statement(kind, pc, Draft(kind, pc), timely);
      e.Done? ==> e.d == Draft(kind, pc + 1) && RowsAt(kind, pc + 1) == RowsAt(kind, pc) + e.rows
  {
    if kind.Bootstrap? {
      BootstrapStatements(pc, timely);
    } else {
      ActivationStatements(pc, timely);
    }
  }

  lemma DraftEnds(kind: Kind)
    ensures Draft(kind, Length(kind)) == After(kind) && Draft(kind, 0) == Before(kind)
  {
  }

  // ---------------------------------------------------------------- every step keeps it

  /** Replacing one session by one that is in order, with the database unchanged, keeps the invariant. */
  lemma PutKeeps(w: World, sid: nat, s: Session)
    requires Inv(w) && SessionOk(s, w.db) && NothingYet(s) && ReportOk(s, w.commits)
    requires Holds(s) ==> !Blocked(w, sid)
    ensures Inv(Put(w, sid, s))
  {
    var w' := Put(w, sid, s);
    forall t | t in w'.sessions
      ensures SessionOk(w'.sessions[t], w'.db) && NothingYet(w'.sessions[t]) && ReportOk(w'.sessions[t], w'.commits)
    {
      if t != sid {
        assert SessionOk(w.sessions[t], w.db) && ReportOk(w.sessions[t], w.commits);
      }
    }
    forall a, b | a in w'.sessions && b in w'.sessions && Holds(w'.sessions[a]) && Holds(w'.sessions[b])
      ensures a == b
    {
      if a != sid && b != sid {
        assert Holds(w.sessions[a]) && Holds(w.sessions[b]);
      }
    }
  }

  lemma AdmitKeeps(w: World, sid: nat, unexpired: bool, timely: bool)
    requires Inv(w) && sid in w.sessions && w.sessions[sid].phase.Connected?
    ensures Inv(DoAdmit(w, sid, unexpired, timely))
  {
    var s := w.sessions[sid];
    match Decide(s.kind, w.db, unexpired) {
      case Replay => PutKeeps(w, sid, s.(phase := Replayed));
      case Refuse => PutKeeps(w, sid, s.(phase := Refused));
      case Apply => PutKeeps(w, sid, s.(phase := Running(0, w.db, 0, timely)));
    }
  }

  lemma PerformKeeps(w: World, sid: nat)
    requires Inv(w) && sid in w.sessions && w.sessions[sid].phase.Running?
    requires w.sessions[sid].phase.pc < Length(w.sessions[sid].kind) && !Blocked(w, sid)
    ensures Inv(DoPerform(w, sid))
  {
    var s := w.sessions[sid];
    var pc := s.phase.pc;
    assert SessionOk(s, w.db) && NothingYet(s);
    StatementAdvances(s.kind, pc, s.phase.timely);
    var e := Statement(s.kind, pc, if pc == 0 then w.db else s.phase.draft, s.phase.timely);
    if e.Error? {
      PutKeeps(w, sid, s.(phase := Stopped));
    } else {
      PutKeeps(w, sid, s.(phase := Running(pc + 1, e.d, s.phase.wrote + e.rows, s.phase.timely)));
    }
  }

  lemma CommitKeeps(w: World, sid: nat, heard: bool)
    requires Inv(w) && sid in w.sessions && w.sessions[sid].phase.Running?
    requires w.sessions[sid].phase.pc == Length(w.sessions[sid].kind)
    ensures Inv(DoCommit(w, sid, heard))
    ensures w.db == Before(w.sessions[sid].kind) && DoCommit(w, sid, heard).db == After(w.sessions[sid].kind)
  {
    var s := w.sessions[sid];
    assert SessionOk(s, w.db) && Holds(s);
    DraftEnds(s.kind);
    var w' := DoCommit(w, sid, heard);
    forall t | t in w'.sessions
      ensures SessionOk(w'.sessions[t], w'.db) && NothingYet(w'.sessions[t]) && ReportOk(w'.sessions[t], w'.commits)
      ensures !Holds(w'.sessions[t])
    {
      if t != sid {
        assert !Holds(w.sessions[t]);
        assert SessionOk(w.sessions[t], w.db) && ReportOk(w.sessions[t], w.commits);
      }
    }
  }

  lemma DoKeepsInv(w: World, a: Action)
    requires Inv(w)
    ensures Inv(Do(w, a))
  {
    match a {
      case Connect(sid, kind) =>
        if sid !in w.sessions {
          PutKeeps(w, sid, Session(kind, Connected));
        }
      case Admit(sid, unexpired, timely) =>
        if sid in w.sessions && w.sessions[sid].phase.Connected? {
          AdmitKeeps(w, sid, unexpired, timely);
        }
      case Perform(sid) =>
        if sid in w.sessions && w.sessions[sid].phase.Running? && w.sessions[sid].phase.pc < Length(w.sessions[sid].kind)
           && !Blocked(w, sid) {
          PerformKeeps(w, sid);
        }
      case Commit(sid, heard) =>
        if sid in w.sessions && w.sessions[sid].phase.Running?
           && w.sessions[sid].phase.pc == Length(w.sessions[sid].kind) {
          CommitKeeps(w, sid, heard);
        }
      case Lose(sid) =>
        if sid in w.sessions && (w.sessions[sid].phase.Connected? || w.sessions[sid].phase.Running?) {
          PutKeeps(w, sid, w.sessions[sid].(phase := Stopped));
        }
    }
  }

  lemma {:induction false} RunKeepsInv(w: World, actions: seq<Action>)
    requires Inv(w)
    ensures Inv(Run(w, actions))
  {
    if actions != [] {
      RunKeepsInv(w, actions[..|actions| - 1]);
      DoKeepsInv(Run(w, actions[..|actions| - 1]), actions[|actions| - 1]);
    }
  }

  lemma AlwaysInv(actions: seq<Action>)
    ensures Inv(Run(INITIAL, actions))
  {
    RunKeepsInv(INITIAL, actions);
  }

  // ---------------------------------------------------------------- what runs keep

  /** In every run the database is empty, pending or active, and the commits so far are exactly those that lead there:
      each transition happens whole and at most once, bootstrap first. */
  lemma OnlyThreeStages(actions: seq<Action>)
    ensures var w := Run(INITIAL, actions);
      && w.db in {EMPTY, PENDING, ACTIVE}
      && w.commits == (if w.db == EMPTY then [] else if w.db == PENDING then [Bootstrap] else [Bootstrap, Activation])
  {
    AlwaysInv(actions);
  }

  /** A transaction at its end with all its rows: 7 for bootstrap, 4 changes for activation. */
  predicate CommitsWhole(s: Session) {
    s.phase.Running? && s.phase.wrote == (if s.kind.Bootstrap? then 7 else 4)
  }

  /** A single step leaves the database alone or completes the next stage. */
  lemma StepsForward(w: World, a: Action)
    requires Inv(w)
    ensures Do(w, a).db == w.db || (w.db == EMPTY && Do(w, a).db == PENDING) || (w.db == PENDING && Do(w, a).db == ACTIVE)
    ensures Do(w, a).db != w.db ==> a.Commit? && a.sid in w.sessions && CommitsWhole(w.sessions[a.sid])
  {
    if a.Commit? && a.sid in w.sessions && w.sessions[a.sid].phase.Running?
       && w.sessions[a.sid].phase.pc == Length(w.sessions[a.sid].kind) {
      CommitKeeps(w, a.sid, a.heard);
      assert SessionOk(w.sessions[a.sid], w.db);
    }
  }

  function Stage(d: Db): nat {
    if d == EMPTY then 0 else if d == PENDING then 1 else 2
  }

  /** The stage never goes back. */
  lemma {:induction false} NeverBack(w: World, actions: seq<Action>)
    requires Inv(w)
    ensures Stage(w.db) <= Stage(Run(w, actions).db)
    ensures w.db == ACTIVE ==> Run(w, actions).db == ACTIVE
  {
    if actions != [] {
      var n := |actions| - 1;
      NeverBack(w, actions[..n]);
      RunKeepsInv(w, actions[..n]);
      StepsForward(Run(w, actions[..n]), actions[n]);
    }
  }

  /** What each executor decides at each stage; an expired token turns activation away. */
  lemma DecisionTable(unexpired: bool)
    ensures Decide(Bootstrap, EMPTY, unexpired) == Apply && Decide(Activation, EMPTY, unexpired) == Refuse
    ensures Decide(Bootstrap, PENDING, unexpired) == Replay
    ensures Decide(Activation, PENDING, unexpired) == if unexpired then Apply else Refuse
    ensures Decide(Bootstrap, ACTIVE, unexpired) == Refuse && Decide(Activation, ACTIVE, unexpired) == Replay
  {
  }

  /** Once the account is active a bootstrap run refuses and an activation run replays; neither can write again. */
  lemma AfterActivation(actions: seq<Action>, sid: nat, kind: Kind, unexpired: bool, timely: bool)
    requires Run(INITIAL, actions).db == ACTIVE && sid !in Run(INITIAL, actions).sessions
    ensures var w := Do(Do(Run(INITIAL, actions), Connect(sid, kind)), Admit(sid, unexpired, timely));
      && w.db == ACTIVE
      && w.sessions[sid].phase == (if kind.Bootstrap? then Refused else Replayed)
      && forall more :: Run(w, more).db == ACTIVE && sid in Run(w, more).sessions &&
           Run(w, more).sessions[sid] == w.sessions[sid]
  {
    AlwaysInv(actions);
    var w0 := Run(INITIAL, actions);
    var w1 := Do(w0, Connect(sid, kind));
    var w := Do(w1, Admit(sid, unexpired, timely));
    DoKeepsInv(w0, Connect(sid, kind));
    DoKeepsInv(w1, Admit(sid, unexpired, timely));
    DecisionTable(unexpired);
    forall more
      ensures Run(w, more).db == ACTIVE && sid in Run(w, more).sessions && Run(w, more).sessions[sid] == w.sessions[sid]
    {
      NeverBack(w, more);
      EndedStays(w, sid, more);
    }
  }

  /** No open activation has read its clock before the token's expiry. */
  ghost predicate NobodyInTime(w: World) {
    forall t {:trigger w.sessions[t]} ::
      t in w.sessions && w.sessions[t].kind.Activation? && w.sessions[t].phase.Running? ==> !w.sessions[t].phase.timely
  }

  /** A session that reads its clock now finds the token expired. */
  predicate Untimely(a: Action) {
    a.Admit? ==> !a.timely
  }

  lemma ExpiredStep(w: World, a: Action)
    requires Inv(w) && w.db == PENDING && NobodyInTime(w) && Untimely(a)
    ensures Do(w, a).db == PENDING && NobodyInTime(Do(w, a))
  {
    if a.Commit? && a.sid in w.sessions && w.sessions[a.sid].phase.Running? {
      assert SessionOk(w.sessions[a.sid], w.db);
    }
  }

  /** Once every clock reads past the token's expiry, and no open activation has read its clock before it, the account
      stays pending whatever runs of the two scripts follow: nobody can activate it, and bootstrap issues no new token.
      It does not matter what the server's clock says, nor how long anybody waits for a lock. */
  lemma {:induction false} ExpiredStaysPending(w: World, actions: seq<Action>)
    requires Inv(w) && w.db == PENDING && NobodyInTime(w)
    requires forall a :: a in actions ==> Untimely(a)
    ensures Run(w, actions).db == PENDING && NobodyInTime(Run(w, actions))
  {
    if actions != [] {
      var before, last := actions[..|actions| - 1], actions[|actions| - 1];
      ExpiredStaysPending(w, before);
      RunKeepsInv(w, before);
      ExpiredStep(Run(w, before), last);
    }
  }

  predicate Ended(s: Session) {
    s.phase.Replayed? || s.phase.Refused? || s.phase.Passed? || s.phase.Stopped?
  }

  lemma {:induction false} EndedStays(w: World, sid: nat, actions: seq<Action>)
    requires sid in w.sessions && Ended(w.sessions[sid])
    ensures sid in Run(w, actions).sessions && Run(w, actions).sessions[sid] == w.sessions[sid]
  {
    if actions != [] {
      EndedStays(w, sid, actions[..|actions| - 1]);
    }
  }

  /** A run that reports PASS, applied or replayed, speaks of a stage that is durable for good. */
  lemma PassIsDurable(actions: seq<Action>, sid: nat)
    requires sid in Run(INITIAL, actions).sessions
    requires Run(INITIAL, actions).sessions[sid].phase.Passed? || Run(INITIAL, actions).sessions[sid].phase.Replayed?
    ensures Stage(Run(INITIAL, actions).db) >= Stage(After(Run(INITIAL, actions).sessions[sid].kind))
  {
    AlwaysInv(actions);
    var w := Run(INITIAL, actions);
    assert ReportOk(w.sessions[sid], w.commits);
  }

  // ---------------------------------------------------------------- completion

  /** The transaction of an admitted session, undisturbed. */
  function Transaction(sid: nat, kind: Kind): seq<Action> {
    seq(Length(kind), i => Perform(sid)) + [Commit(sid, true)]
  }

  /** An undisturbed run of the executor the stage calls for. */
  function Attempt(sid: nat, kind: Kind): seq<Action> {
    [Connect(sid, kind), Admit(sid, true, true)] + Transaction(sid, kind)
  }

  lemma {:induction false} RunConcat(w: World, a: seq<Action>, b: seq<Action>)
    ensures Run(w, a + b) == Run(Run(w, a), b)
  {
    if b == [] {
      assert a + b == a;
    } else {
      assert (a + b)[..|a + b| - 1] == a + b[..|b| - 1];
      RunConcat(w, a, b[..|b| - 1]);
    }
  }

  lemma RunOne(w: World, a: Action)
    ensures Run(w, [a]) == Do(w, a)
  {
    assert [a][..0] == [];
    assert Run(w, []) == w;
  }

  ghost predicate Midway(w: World, sid: nat, kind: Kind, pc: nat) {
    && Inv(w) && w.db == Before(kind) && sid in w.sessions
    && w.sessions[sid].kind == kind && !Blocked(w, sid)
    && w.sessions[sid].phase.Running? && w.sessions[sid].phase.pc == pc && w.sessions[sid].phase.timely
    && (pc > 0 ==> w.sessions[sid].phase.draft == Draft(kind, pc))
  }

  lemma MidwayNext(w: World, sid: nat, kind: Kind, pc: nat)
    requires Midway(w, sid, kind, pc) && pc < Length(kind)
    ensures Midway(Do(w, Perform(sid)), sid, kind, pc + 1)
  {
    DoKeepsInv(w, Perform(sid));
    DraftEnds(kind);
    if kind.Bootstrap? {
      BootstrapStatements(pc, true);
    } else {
      ActivationStatements(pc, true);
    }
    var w' := Do(w, Perform(sid));
    forall t | t in w'.sessions && t != sid
      ensures !Holds(w'.sessions[t])
    {
      assert w'.sessions[t] == w.sessions[t];
    }
  }

  lemma {:induction false} MidwayAll(w: World, sid: nat, kind: Kind, n: nat)
    requires Midway(w, sid, kind, 0) && n <= Length(kind)
    ensures Midway(Run(w, seq(n, i => Perform(sid))), sid, kind, n)
  {
    var steps := seq(n, i => Perform(sid));
    if n > 0 {
      MidwayAll(w, sid, kind, n - 1);
      assert steps[..n - 1] == seq(n - 1, i => Perform(sid));
      MidwayNext(Run(w, steps[..n - 1]), sid, kind, n - 1);
    }
  }

  lemma TransactionCompletes(w: World, sid: nat, kind: Kind)
    requires Midway(w, sid, kind, 0)
    ensures Run(w, Transaction(sid, kind)).db == After(kind)
    ensures sid in Run(w, Transaction(sid, kind)).sessions
    ensures Run(w, Transaction(sid, kind)).sessions[sid].phase == Passed
  {
    var steps := seq(Length(kind), i => Perform(sid));
    MidwayAll(w, sid, kind, Length(kind));
    RunConcat(w, steps, [Commit(sid, true)]);
    RunOne(Run(w, steps), Commit(sid, true));
    CommitKeeps(Run(w, steps), sid, true);
  }

  /** At the stage before it, with no other transaction open, each executor completes its stage and reports PASS. */
  lemma AttemptCompletes(w: World, sid: nat, kind: Kind)
    requires Inv(w) && w.db == Before(kind) && sid !in w.sessions && forall t :: t in w.sessions ==> !Holds(w.sessions[t])
    ensures Run(w, Attempt(sid, kind)).db == After(kind)
    ensures sid in Run(w, Attempt(sid, kind)).sessions && Run(w, Attempt(sid, kind)).sessions[sid].phase == Passed
  {
    var opening := [Connect(sid, kind), Admit(sid, true, true)];
    var w1 := Do(w, Connect(sid, kind));
    var w2 := Do(w1, Admit(sid, true, true));
    DoKeepsInv(w, Connect(sid, kind));
    DoKeepsInv(w1, Admit(sid, true, true));
    DecisionTable(true);
    assert opening == [Connect(sid, kind)] + [Admit(sid, true, true)];
    RunConcat(w, [Connect(sid, kind)], [Admit(sid, true, true)]);
    RunOne(w, Connect(sid, kind));
    RunOne(w1, Admit(sid, true, true));
    TransactionCompletes(w2, sid, kind);
    RunConcat(w, opening, Transaction(sid, kind));
  }

  /** A session that read its clock in time, and then waited for its first lock, still activates when every clock reads
      past the expiry: its later steps are untimely in the sense of `ExpiredStaysPending`. */
  lemma InTimeStillActivates(w: World, sid: nat)
    requires Inv(w) && w.db == PENDING && sid in w.sessions && w.sessions[sid].kind.Activation? && !Blocked(w, sid)
    requires w.sessions[sid].phase.Running? && w.sessions[sid].phase.pc == 0 && w.sessions[sid].phase.timely
    ensures forall a :: a in Transaction(sid, Activation) ==> Untimely(a)
    ensures Run(w, Transaction(sid, Activation)).db == ACTIVE
  {
    TransactionCompletes(w, sid, Activation);
  }
}
