/** The three `apply` procedures, run against a server on which other sessions keep acting. */
module G12Executors {
  import opened Sql
  import opened G12Review

  /** What happens around one run, by point of the run: point `pc` is just before statement `pc`, and
      `STATEMENTS + 1`, `STATEMENTS + 2` are just before the commit and the postflight reads. */
  datatype Circumstances = Circumstances(
    others: nat -> seq<Action>,   // what other sessions do there
    rejected: nat -> set<Fact>,   // rows a constraint makes INSERT IGNORE skip
    cut: nat -> bool,             // the connection is lost there
    heard: bool)                  // the commit response arrives

  datatype Report = Pass(rowsWritten: nat) | Failed

  class Server {
    var world: World
    ghost var log: seq<Action>

    ghost predicate Valid()
      reads this
    {
      world == Run(INITIAL, log)
    }

    constructor ()
      ensures Valid() && world == INITIAL
    {
      world := INITIAL;
      log := [];
    }

    method Step(a: Action)
      requires Valid()
      modifies this
      ensures Valid() && log == old(log) + [a] && world == Do(old(world), a)
    {
      RunAppend(INITIAL, log, a);
      world := Do(world, a);
      log := log + [a];
    }

    /** The other sessions take their turns. */
    method Others(sid: nat, actions: seq<Action>)
      requires Valid() && sid in world.sessions
      modifies this
      ensures Valid() && old(log) <= log
      ensures sid in world.sessions && world.sessions[sid] == old(world.sessions[sid])
    {
      for i := 0 to |actions|
        invariant Valid() && old(log) <= log
        invariant sid in world.sessions && world.sessions[sid] == old(world.sessions[sid])
      {
        if actions[i].sid != sid {
          Step(actions[i]);
        }
      }
    }

    /** One statement on the connection: the row count, or an error that ends the run. */
    method Issue(sid: nat, kind: Kind, pc: nat, affected: nat, c: Circumstances) returns (ok: bool, rowCount: nat)
      requires Valid() && pc < STATEMENTS
      requires sid in world.sessions && world.sessions[sid].kind == kind
      requires world.sessions[sid].phase == Running(pc, affected)
      modifies this
      ensures Valid() && old(log) <= log
      ensures sid in world.sessions && world.sessions[sid].kind == kind
      ensures ok ==> world.sessions[sid].phase == Running(pc + 1, affected + rowCount)
      ensures !ok ==> world.sessions[sid].phase == Stopped
      ensures ok && pc == 2 ==> CurrentView in world.durable.objects
      ensures pc < SCHEMA_STATEMENTS ==> rowCount == 0
    {
      rowCount := 0;
      Others(sid, c.others(pc));
      if c.cut(pc) || Blocked(world, sid, StatementAt(pc)) {
        // the connection is lost, or the wait for a row lock times out
        Step(Lose(sid));
        return false, 0;
      }
      var e := Execute(world.durable, world.sessions[sid].pending, StatementAt(pc), false, c.rejected(pc));
      PerformOutcome(world, sid, pc, affected, c.rejected(pc), e);
      if pc < SCHEMA_STATEMENTS {
        SchemaOutcome(world.durable, world.sessions[sid].pending, pc, c.rejected(pc));
      }
      Step(Perform(sid, c.rejected(pc)));
      ok := e.ok && (pc < FIXED_STATEMENTS || affected + e.rowCount <= MAX_ROWS);
      rowCount := e.rowCount;
    }

    /** The admission reads: true when the executor may go on. */
    method Preflight(sid: nat, kind: Kind, c: Circumstances) returns (admitted: bool)
      requires Valid() && sid !in world.sessions
      modifies this
      ensures Valid() && old(log) <= log
      ensures sid in world.sessions && world.sessions[sid].kind == kind
      ensures admitted ==> world.sessions[sid].phase == Running(Start(kind), 0)
      ensures admitted <==> Admits(kind, world.durable)
      ensures !admitted ==> world.sessions[sid].phase == Stopped
    {
      Step(Connect(sid, kind));
      Others(sid, c.others(STATEMENTS));
      admitted := Admits(kind, world.durable);
      Step(Admit(sid));
    }

    /** `for statement in approved[3:]`, then `for proposal in proposals`. */
    method InsertFacts(sid: nat, kind: Kind, c: Circumstances) returns (ok: bool, affected: nat)
      requires Valid() && sid in world.sessions && world.sessions[sid].kind == kind
      requires world.sessions[sid].phase == Running(SCHEMA_STATEMENTS, 0)
      modifies this
      ensures Valid() && old(log) <= log
      ensures sid in world.sessions && world.sessions[sid].kind == kind
      ensures ok ==> world.sessions[sid].phase == Running(STATEMENTS, affected)
      ensures !ok ==> world.sessions[sid].phase == Stopped
    {
      affected := 0;
      for pc := SCHEMA_STATEMENTS to FIXED_STATEMENTS
        invariant Valid() && old(log) <= log
        invariant sid in world.sessions && world.sessions[sid].kind == kind
        invariant world.sessions[sid].phase == Running(pc, affected)
      {
        var rowCount;
        ok, rowCount := Issue(sid, kind, pc, affected, c);
        if !ok { return; }
        affected := affected + rowCount;
      }
      for i := 0 to PROPOSAL_ROWS
        invariant Valid() && old(log) <= log
        invariant sid in world.sessions && world.sessions[sid].kind == kind
        invariant world.sessions[sid].phase == Running(FIXED_STATEMENTS + i, affected)
      {
        var rowCount;
        ok, rowCount := Issue(sid, kind, FIXED_STATEMENTS + i, affected, c);
        if !ok { return; }
        affected := affected + rowCount;
      }
      ok := true;
    }

    /** The exact-total check and the commit; true when the caller hears that it happened. */
    method CommitAll(sid: nat, kind: Kind, affected: nat, c: Circumstances) returns (ok: bool)
      requires Valid() && sid in world.sessions && world.sessions[sid].kind == kind
      requires world.sessions[sid].phase == Running(STATEMENTS, affected)
      modifies this
      ensures Valid() && old(log) <= log
      ensures sid in world.sessions && world.sessions[sid].kind == kind
      ensures ok ==> affected == MAX_ROWS && world.sessions[sid].phase == if kind == Plan then Passed else Committed
      ensures !ok ==> world.sessions[sid].phase == Stopped
    {
      Others(sid, c.others(STATEMENTS + 1));
      if c.cut(STATEMENTS + 1) {
        Step(Lose(sid));
        return false;
      }
      Step(Commit(sid, c.heard));
      ok := affected == MAX_ROWS && c.heard;
    }

    /** The postflight counts. */
    method Postflight(sid: nat, kind: Kind, c: Circumstances) returns (ok: bool)
      requires Valid() && sid in world.sessions && world.sessions[sid].phase == Committed
      modifies this
      ensures Valid() && old(log) <= log
      ensures sid in world.sessions
      ensures ok <==> world.sessions[sid].phase == Passed
      // a committed run fails here only when it is cut off: the counts themselves always match
      ensures !c.cut(STATEMENTS + 2) ==> ok
    {
      Others(sid, c.others(STATEMENTS + 2));
      if c.cut(STATEMENTS + 2) {
        Step(Lose(sid));
        return false;
      }
      AlwaysInv(log);
      assert SessionOk(world.sessions[sid], world.durable);
      ok := world.durable.facts == AllFacts();
      Step(Reconcile(sid));
    }

    /** First stage: the whole migration from the untouched state. */
    method ApplyPlan(sid: nat, c: Circumstances) returns (r: Report)
      requires Valid() && sid !in world.sessions
      modifies this
      ensures Valid() && old(log) <= log
      ensures sid in world.sessions && (r.Pass? <==> world.sessions[sid].phase == Passed)
      ensures r.Pass? ==> r.rowsWritten == 266 && Complete(world.durable)
    {
      var ok := Preflight(sid, Plan, c);
      if !ok { return Failed; }
      var affected := 0;
      for pc := 0 to SCHEMA_STATEMENTS
        invariant Valid() && old(log) <= log
        invariant sid in world.sessions && world.sessions[sid].kind == Plan
        invariant world.sessions[sid].phase == Running(pc, 0)
      {
        var rowCount;
        ok, rowCount := Issue(sid, Plan, pc, 0, c);
        if !ok { return Failed; }
      }
      ok, affected := InsertFacts(sid, Plan, c);
      if !ok { return Failed; }
      ok := CommitAll(sid, Plan, affected, c);
      if !ok { return Failed; }
      PassMeansComplete(log, sid);
      r := Pass(affected);
    }

    /** Second stage: from the two empty tables. */
    method ApplySuccessor(sid: nat, c: Circumstances) returns (r: Report)
      requires Valid() && sid !in world.sessions
      modifies this
      ensures Valid() && old(log) <= log
      ensures sid in world.sessions && (r.Pass? <==> world.sessions[sid].phase == Passed)
      ensures r.Pass? ==> r.rowsWritten == 266 && Complete(world.durable)
    {
      var ok := Preflight(sid, Successor, c);
      if !ok { return Failed; }
      var rowCount;
      ok, rowCount := Issue(sid, Successor, 2, 0, c);
      if !ok { return Failed; }
      // the view is there, as the read after CREATE VIEW requires
      assert CurrentView in world.durable.objects;
      var affected;
      ok, affected := InsertFacts(sid, Successor, c);
      if !ok { return Failed; }
      ok := CommitAll(sid, Successor, affected, c);
      if !ok { return Failed; }
      ok := Postflight(sid, Successor, c);
      if !ok { return Failed; }
      PassMeansComplete(log, sid);
      r := Pass(affected);
    }

    /** Last stage: from the full empty schema. */
    method ApplyFinalizer(sid: nat, c: Circumstances) returns (r: Report)
      requires Valid() && sid !in world.sessions
      modifies this
      ensures Valid() && old(log) <= log
      ensures sid in world.sessions && (r.Pass? <==> world.sessions[sid].phase == Passed)
      ensures r.Pass? ==> r.rowsWritten == 266 && Complete(world.durable)
    {
      var ok := Preflight(sid, Finalizer, c);
      if !ok { return Failed; }
      var affected;
      ok, affected := InsertFacts(sid, Finalizer, c);
      if !ok { return Failed; }
      ok := CommitAll(sid, Finalizer, affected, c);
      if !ok { return Failed; }
      ok := Postflight(sid, Finalizer, c);
      if !ok { return Failed; }
      PassMeansComplete(log, sid);
      r := Pass(affected);
    }
  }

  /** The issuing session goes on exactly when the statement succeeds within the budget. */
  lemma PerformOutcome(w: World, sid: nat, pc: nat, affected: nat, rejected: set<Fact>,
                       e: Effect<SchemaObject, Fact>)
    requires sid in w.sessions && w.sessions[sid].phase == Running(pc, affected) && pc < STATEMENTS
    requires !Blocked(w, sid, StatementAt(pc))
    requires e == Execute(w.durable, w.sessions[sid].pending, StatementAt(pc), false, rejected)
    ensures var v := Do(w, Perform(sid, rejected));
      && v.durable == e.durable && sid in v.sessions && v.sessions[sid].kind == w.sessions[sid].kind
      && v.sessions[sid].phase ==
           (if e.ok && (pc < FIXED_STATEMENTS || affected + e.rowCount <= MAX_ROWS)
            then Running(pc + 1, affected + e.rowCount) else Stopped)
  {
    var s := w.sessions[sid];
  }

  lemma SchemaOutcome(d: Store, pending: set<Fact>, pc: nat, rejected: set<Fact>)
    requires pc < SCHEMA_STATEMENTS
    ensures var e := Execute(d, pending, StatementAt(pc), false, rejected);
      e.rowCount == 0 && (pc == 2 ==> CurrentView in e.durable.objects)
  {
  }
}
