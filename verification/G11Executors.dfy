/** The two G11 `apply` procedures, run against a server on which other sessions keep acting. */
module G11Executors {
  import opened Sql
  import opened G11Identity

  /** What happens around one run: point `pc` is just before statement `pc`; `STATEMENTS + 1` and
      `STATEMENTS + 2` are just before the commit and the reads after it. */
  datatype Circumstances = Circumstances(
    others: nat -> seq<Action>,
    cut: nat -> bool,
    rejected: nat -> set<Fact>,
    heard: bool)

  datatype Report = Applied(rowsWritten: nat) | IdempotentReplay | Failed

  class Server {
    var world: World
    ghost var log: seq<Action>

    ghost predicate Valid()
      reads this
    {
      world == Run(INITIAL, log)
    }

    constructor ()
      ensures Valid() && world == INITIAL
    {
      world := INITIAL;
      log := [];
    }

    method Step(a: Action)
      requires Valid()
      modifies this
      ensures Valid() && log == old(log) + [a] && world == Do(old(world), a)
    {
      RunAppend(INITIAL, log, a);
      world := Do(world, a);
      log := log + [a];
    }

    method Others(sid: nat, actions: seq<Action>)
      requires Valid() && sid in world.sessions
      modifies this
      ensures Valid() && old(log) <= log
      ensures sid in world.sessions && world.sessions[sid] == old(world.sessions[sid])
    {
      for i := 0 to |actions|
        invariant Valid() && old(log) <= log
        invariant sid in world.sessions && world.sessions[sid] == old(world.sessions[sid])
      {
        if actions[i].sid != sid {
          Step(actions[i]);
        }
      }
    }

    /** Connect, read the schema and the rows, and decide. */
    method Preflight(sid: nat, kind: Kind, c: Circumstances) returns (decision: Phase)
      requires Valid() && sid !in world.sessions
      modifies this
      ensures Valid() && old(log) <= log && sid in world.sessions
      ensures decision == Decide(kind, world.durable)
      ensures world.sessions[sid] == Session(kind, decision, {})
    {
      Step(Connect(sid, kind));
      Others(sid, c.others(STATEMENTS));
      decision := Decide(kind, world.durable);
      Step(Admit(sid));
    }

    /** `for statement in statements`: the total affected, or a failure that ends the run. */
    method RunStatements(sid: nat, kind: Kind, c: Circumstances) returns (ok: bool, affected: nat)
      requires Valid() && sid in world.sessions && world.sessions[sid].kind == kind
      requires world.sessions[sid].phase == Running(Start(kind), 0)
      modifies this
      ensures Valid() && old(log) <= log && sid in world.sessions && world.sessions[sid].kind == kind
      ensures ok ==> world.sessions[sid].phase == Running(STATEMENTS, affected)
      ensures !ok ==> world.sessions[sid].phase == Stopped
    {
      affected := 0;
      for pc := Start(kind) to STATEMENTS
        invariant Valid() && old(log) <= log && sid in world.sessions && world.sessions[sid].kind == kind
        invariant world.sessions[sid].phase == Running(pc, affected)
      {
        Others(sid, c.others(pc));
        if c.cut(pc) || Blocked(world, sid, StatementAt(pc)) {
          Step(Lose(sid));
          return false, affected;
        }
        var e := Execute(world.durable, world.sessions[sid].pending, StatementAt(pc), kind == Successor,
                         c.rejected(pc));
        Step(Perform(sid, c.rejected(pc)));
        affected := affected + e.rowCount;
        if !e.ok || affected > MAX_ROWS { return false, affected; }
      }
      ok := true;
    }

    /** Commit, then the reads that must find everything in place; the total is checked only after the commit. */
    method Finish(sid: nat, affected: nat, c: Circumstances) returns (ok: bool)
      requires Valid() && sid in world.sessions && world.sessions[sid].phase == Running(STATEMENTS, affected)
      modifies this
      ensures Valid() && old(log) <= log && sid in world.sessions && world.sessions[sid].kind == old(world.sessions[sid].kind)
      ensures ok ==> world.sessions[sid].phase == Passed && affected == MAX_ROWS
      ensures !ok ==> world.sessions[sid].phase == Stopped
      // cut off neither before nor after the commit, and heard: a wrong total is the only failure left
      ensures !c.cut(STATEMENTS + 1) && !c.cut(STATEMENTS + 2) && c.heard ==> (ok <==> affected == MAX_ROWS)
      // whether or not anybody hears of it, the commit has been made
      ensures !c.cut(STATEMENTS + 1) ==> world.durable.objects == AllObjects() && |world.durable.facts| == affected
    {
      Others(sid, c.others(STATEMENTS + 1));
      if c.cut(STATEMENTS + 1) {
        Step(Lose(sid));
        return false;
      }
      var n := AlwaysInv(log);
      CommitOutcome(world, n, Skipped(INITIAL, log), sid, c.heard);
      Step(Commit(sid, c.heard));
      if !c.heard { return false; }
      ok := Confirm(sid, affected, c);
    }

    /** The reads after the commit, and the check of the total. */
    method Confirm(sid: nat, affected: nat, c: Circumstances) returns (ok: bool)
      requires Valid() && sid in world.sessions && world.sessions[sid].phase == Committed(affected)
      modifies this
      ensures Valid() && old(log) <= log && sid in world.sessions && world.sessions[sid].kind == old(world.sessions[sid].kind)
      ensures ok ==> world.sessions[sid].phase == Passed && affected == MAX_ROWS
      ensures !ok ==> world.sessions[sid].phase == Stopped
      ensures !c.cut(STATEMENTS + 2) ==> (ok <==> affected == MAX_ROWS)
      ensures world.durable.objects == AllObjects() && |world.durable.facts| == affected
    {
      Others(sid, c.others(STATEMENTS + 2));
      CommittedCount(sid, affected);
      if c.cut(STATEMENTS + 2) {
        Step(Lose(sid));
        return false;
      }
      ok := Complete(world.durable) && affected == MAX_ROWS;
      Step(Reconcile(sid));
    }

    /** After a commit the store holds every object and the rows the session counted, whatever others do. */
    lemma CommittedCount(sid: nat, affected: nat)
      requires Valid() && sid in world.sessions && world.sessions[sid].phase == Committed(affected)
      ensures world.durable.objects == AllObjects() && |world.durable.facts| == affected
      ensures Complete(world.durable) <==> affected == MAX_ROWS
    {
      var n := AlwaysInv(log);
      assert SessionOk(world.sessions[sid], world.durable, n, Skipped(INITIAL, log));
      LastStage(world.durable, Skipped(INITIAL, log));
    }

    /** The migration: replay, refuse, or apply in one transaction. A PASS of either mode means a complete store. */
    method ApplyMigration(sid: nat, c: Circumstances) returns (r: Report)
      requires Valid() && sid !in world.sessions
      modifies this
      ensures Valid() && old(log) <= log && sid in world.sessions
      ensures r.Applied? <==> world.sessions[sid].phase == Passed
      ensures r.IdempotentReplay? <==> world.sessions[sid].phase == Replayed
      ensures r.Applied? ==> r.rowsWritten == 37
      ensures r.Applied? || r.IdempotentReplay? ==> Complete(world.durable)
    {
      r := Apply(sid, Migration, c);
    }

    /** The successor: the same, with autocommit, from the twelve empty tables; but its replay asks only for the marker
        and the objects. */
    method ApplySuccessor(sid: nat, c: Circumstances) returns (r: Report)
      requires Valid() && sid !in world.sessions
      modifies this
      ensures Valid() && old(log) <= log && sid in world.sessions
      ensures r.Applied? <==> world.sessions[sid].phase == Passed
      ensures r.IdempotentReplay? <==> world.sessions[sid].phase == Replayed
      ensures r.Applied? ==> r.rowsWritten == 37 && Complete(world.durable)
      ensures r.IdempotentReplay? ==> Marker in world.durable.facts && world.durable.objects == AllObjects()
    {
      r := Apply(sid, Successor, c);
    }

    method Apply(sid: nat, kind: Kind, c: Circumstances) returns (r: Report)
      requires Valid() && sid !in world.sessions
      modifies this
      ensures Valid() && old(log) <= log && sid in world.sessions
      ensures r.Applied? <==> world.sessions[sid].phase == Passed
      ensures r.IdempotentReplay? <==> world.sessions[sid].phase == Replayed
      ensures r.Applied? ==> r.rowsWritten == 37
      ensures r.Applied? || (r.IdempotentReplay? && kind == Migration) ==> Complete(world.durable)
      ensures r.IdempotentReplay? ==> Marker in world.durable.facts && world.durable.objects == AllObjects()
    {
      var decision := Preflight(sid, kind, c);
      if decision == Replayed {
        PassMeansComplete(log, sid);
        return IdempotentReplay;
      }
      if decision == Stopped { return Failed; }
      var ok, affected := RunStatements(sid, kind, c);
      if !ok { return Failed; }
      ok := Finish(sid, affected, c);
      if !ok {
        return Failed;
      }
      PassMeansComplete(log, sid);
      r := Applied(affected);
    }
  }
}
