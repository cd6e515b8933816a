/** The bootstrap and activation procedures, run against a server on which other sessions keep acting. */
module AdminExecutors {
  import opened AdminIdentity

  /** What happens around one run, by point of the run. */
  datatype Circumstances = Circumstances(
    others: nat -> seq<Action>,   // what other sessions do before statement `n`
    cut: nat -> bool,             // the connection is lost, or the wait for the lock times out, there
    unexpired: bool,              // by the server's clock the activation token has not expired
    timely: bool,                 // nor has it by the session's own, read after that
    heard: bool)                  // the commit response arrives

  datatype Report = Applied(rows: nat) | IdempotentReplay | Failed

  class Server {
    var world: World
    ghost var log: seq<Action>

    ghost predicate Valid()
      reads this
    {
      world == Run(INITIAL, log)
    }

    constructor ()
      ensures Valid() && log == []
    {
      world := INITIAL;
      log := [];
    }

    method Step(a: Action)
      requires Valid()
      modifies this
      ensures Valid() && log == old(log) + [a] && world == Do(old(world), a)
    {
      RunConcat(INITIAL, log, [a]);
      RunOne(Run(INITIAL, log), a);
      world := Do(world, a);
      log := log + [a];
    }

    /** The other sessions take their turns. */
    method Others(sid: nat, actions: seq<Action>)
      requires Valid() && sid in world.sessions
      modifies this
      ensures Valid() && old(log) <= log
      ensures sid in world.sessions && world.sessions[sid] == old(world.sessions[sid])
    {
      for i := 0 to |actions|
        invariant Valid() && old(log) <= log
        invariant sid in world.sessions && world.sessions[sid] == old(world.sessions[sid])
      {
        if actions[i].sid != sid {
          Step(actions[i]);
        }
      }
    }

    /** The statements of the transaction in order; an error or a lost connection rolls it back. */
    method Statements(sid: nat, kind: Kind, c: Circumstances) returns (rows: nat, ok: bool)
      requires Valid() && sid in world.sessions && world.sessions[sid].kind == kind
      requires world.sessions[sid].phase.Running? && world.sessions[sid].phase.pc == 0
      requires world.sessions[sid].phase.wrote == 0
      modifies this
      ensures Valid() && old(log) <= log && sid in world.sessions && world.sessions[sid].kind == kind
      ensures ok ==> world.sessions[sid].phase.Running? && world.sessions[sid].phase.pc == Length(kind)
      ensures ok ==> world.sessions[sid].phase.wrote == rows
      ensures !ok ==> world.sessions[sid].phase.Stopped?
    {
      rows := 0;
      for pc := 0 to Length(kind)
        invariant Valid() && old(log) <= log && sid in world.sessions && world.sessions[sid].kind == kind
        invariant world.sessions[sid].phase.Running? && world.sessions[sid].phase.pc == pc
        invariant world.sessions[sid].phase.wrote == rows
      {
        Others(sid, c.others(pc));
        if c.cut(pc) || Blocked(world, sid) {
          Step(Lose(sid));
          return rows, false;
        }
        Step(Perform(sid));
        if world.sessions[sid].phase.Stopped? {
          return rows, false;
        }
        rows := world.sessions[sid].phase.wrote;
      }
      ok := true;
    }

    /** The reads that decide between replaying, refusing and applying. */
    method Preflight(sid: nat, kind: Kind, c: Circumstances) returns (decision: Decision)
      requires Valid() && sid !in world.sessions
      modifies this
      ensures Valid() && old(log) <= log && sid in world.sessions && world.sessions[sid].kind == kind
      ensures decision == Decide(kind, world.db, c.unexpired)
      ensures decision.Replay? ==> world.sessions[sid].phase.Replayed?
      ensures decision.Refuse? ==> world.sessions[sid].phase.Refused?
      ensures decision.Apply? ==>
        world.sessions[sid].phase.Running? && world.sessions[sid].phase.pc == 0 && world.sessions[sid].phase.wrote == 0
    {
      Step(Connect(sid, kind));
      Others(sid, c.others(Length(kind) + 1));
      decision := Decide(kind, world.db, c.unexpired);
      Step(Admit(sid, c.unexpired, c.timely));
    }

    /** The commit of a complete transaction; when its response is lost the rows are durable all the same. */
    method Finish(sid: nat, kind: Kind, c: Circumstances) returns (ok: bool)
      requires Valid() && sid in world.sessions && world.sessions[sid].kind == kind
      requires world.sessions[sid].phase.Running? && world.sessions[sid].phase.pc == Length(kind)
      modifies this
      ensures Valid() && old(log) <= log && sid in world.sessions && world.sessions[sid].kind == kind
      ensures ok ==> world.sessions[sid].phase.Passed?
      ensures !ok ==> world.sessions[sid].phase.Stopped?
      ensures old(world.sessions[sid].phase.wrote) == if kind.Bootstrap? then 7 else 4
    {
      AlwaysInv(log);
      assert SessionOk(world.sessions[sid], world.db);
      Others(sid, c.others(Length(kind)));
      if c.cut(Length(kind)) {
        Step(Lose(sid));
        return false;
      }
      Step(Commit(sid, c.heard));
      ok := c.heard;
    }

    /** `apply_plan` of either script. */
    method ApplyPlan(sid: nat, kind: Kind, c: Circumstances) returns (r: Report)
      requires Valid() && sid !in world.sessions
      modifies this
      ensures Valid() && old(log) <= log && sid in world.sessions && world.sessions[sid].kind == kind
      ensures r.Applied? <==> world.sessions[sid].phase.Passed?
      ensures r.IdempotentReplay? <==> world.sessions[sid].phase.Replayed?
      ensures r.Failed? <==> world.sessions[sid].phase.Refused? || world.sessions[sid].phase.Stopped?
      ensures r.Applied? ==> r.rows == if kind.Bootstrap? then 7 else 4
      ensures !r.Failed? ==> Stage(world.db) >= Stage(After(kind))
    {
      var decision := Preflight(sid, kind, c);
      if decision.Replay? {
        PassIsDurable(log, sid);
        return IdempotentReplay;
      }
      if decision.Refuse? {
        return Failed;
      }
      var rows, ok := Statements(sid, kind, c);
      if !ok {
        return Failed;
      }
      ok := Finish(sid, kind, c);
      if !ok {
        return Failed;
      }
      PassIsDurable(log, sid);
      r := Applied(rows);
    }
  }
}
