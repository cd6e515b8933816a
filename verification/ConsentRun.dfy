/** The one-shot consent run: a phased client that never retries, against any API and any database. */
module ConsentRun {

  // ---------------------------------------------------------------- what the client sees

  datatype Request = Ready | Login | Me | Grant | Logout

  datatype Body = Unparsed | LoginBody(token: bool, userId: int) | MeBody(session: Uuid, userId: int)
    | ConsentBody(granted: bool)

  datatype Uuid = NoUuid | Uuid(n: int)

  /** A response, or none received, and then nobody knows whether the request took effect; or one the client handles as
      neither: a body that breaks off, or fields of a kind it does not expect, raise an error nothing catches. */
  datatype Reply = NoResponse | Broken | Response(status: int, body: Body)

  datatype Table = AuthSession | RefreshToken | SecurityEvent | ConsentFact | Other(name: string)

  /** Row counts of all tables, and the reader's account, roles and effective behavior-learning consent. */
  datatype State = State(counts: map<Table, int>, account: int, roles: set<int>, consent: bool)

  datatype SessionStatus = SessionStatus(present: bool, userId: int, revoked: bool)

  /** A database read answers, or fails with a database error or a system error. */
  datatype Read<T> = Value(value: T) | DatabaseError | SystemError

  /** Everything outside the client, chosen freely: replies by request, and what each database read finds. */
  datatype Environment = Environment(
    reply: Request -> Reply,
    afterGrant: Read<State>,
    afterLogout: Uuid -> Read<SessionStatus>,
    final: Read<State>,
    finalSession: Uuid -> Read<SessionStatus>,
    afterFailure: Read<State>)

  const READER := 10_001
  const PLAN := [Ready, Login, Me, Grant, Logout]

  function ExpectedDelta(t: Table): int {
    match t
    case AuthSession => 1 case RefreshToken => 1 case SecurityEvent => 2 case ConsentFact => 1 case Other(_) => 0
  }

  /** The counts a clean run leaves behind. */
  function ExpectedAfter(before: map<Table, int>): map<Table, int> {
    map t | t in before :: before[t] + ExpectedDelta(t)
  }

  // ---------------------------------------------------------------- what counts as proven

  predicate Healthy(r: Reply) {
    r.Response? && r.status == 200
  }

  predicate LoggedIn(r: Reply) {
    r.Response? && r.status == 200 && r.body.LoginBody? && r.body.token && r.body.userId == READER
  }

  predicate Identified(r: Reply) {
    r.Response? && r.status == 200 && r.body.MeBody? && r.body.session != NoUuid && r.body.userId == READER
  }

  /** A well-formed success answer decides alone; anything else is settled by reading the consent back. */
  predicate GrantProven(env: Environment) {
    var r := env.reply(Grant);
    if r.Broken? then false
    else if r.Response? && r.status == 200 && r.body != Unparsed then r.body.ConsentBody? && r.body.granted
    else env.afterGrant.Value? && env.afterGrant.value.consent
  }

  /** A status other than 204 is settled by reading the session; a missing or broken response is not. */
  predicate LogoutProven(env: Environment, session: Uuid) {
    var r := env.reply(Logout);
    r.Response? && (r.status == 204 || (env.afterLogout(session).Value? && env.afterLogout(session).value.revoked))
  }

  predicate Reconciled(before: State, env: Environment, session: Uuid) {
    && env.final.Value?
    && env.final.value.counts == ExpectedAfter(before.counts)
    && env.final.value.account == before.account && env.final.value.roles == before.roles
    && env.final.value.consent
    && env.finalSession(session).Value?
    && env.finalSession(session).value.present && env.finalSession(session).value.revoked
    && env.finalSession(session).value.userId == READER
  }

  // ---------------------------------------------------------------- the run

  datatype Outcome = Pass(after: State, grantReadBack: bool, logoutReadBack: bool)
    | PartialFailure(phase: Request, after: State)
    | ReconcileFailure(after: State)
    | Aborted          // a system error or a broken response leaves no evidence
    | NotStarted       // the live state differs from the approved baseline

  class Client {
    const env: Environment
    var sent: seq<Request>

    constructor (env: Environment)
      ensures this.env == env && sent == []
    {
      this.env := env;
      sent := [];
    }

    method Send(r: Request) returns (reply: Reply)
      modifies this
      ensures sent == old(sent) + [r] && reply == env.reply(r)
    {
      sent := sent + [r];
      reply := env.reply(r);
    }

    /** The state kept in failure evidence: a fresh read, or the first one when the database cannot be read. */
    function AfterFailure(before: State): State {
      if env.afterFailure.Value? then env.afterFailure.value else before
    }

    /** How a run ends that cannot go on after a reply. */
    function Failure(before: State, phase: Request, reply: Reply): Outcome {
      if reply.Broken? then Aborted else PartialFailure(phase, AfterFailure(before))
    }

    /** Readiness, login and identity: no evidence of a write is needed yet. */
    method SignIn(before: State) returns (ok: bool, session: Uuid, o: Outcome)
      requires sent == []
      modifies this
      ensures sent <= PLAN && sent != []
      ensures ok <==> Healthy(env.reply(Ready)) && LoggedIn(env.reply(Login)) && Identified(env.reply(Me))
      ensures ok ==> sent == [Ready, Login, Me] && session == env.reply(Me).body.session
      ensures !ok ==> o == Failure(before, sent[|sent| - 1], env.reply(sent[|sent| - 1])) && Grant !in sent && Logout !in sent
    {
      session, ok := NoUuid, false;
      var reply := Send(Ready);
      o := Failure(before, Ready, reply);
      if !Healthy(reply) { return; }
      reply := Send(Login);
      o := Failure(before, Login, reply);
      if !LoggedIn(reply) { return; }
      reply := Send(Me);
      o := Failure(before, Me, reply);
      if !Identified(reply) { return; }
      session, ok := reply.body.session, true;
    }

    method ProveGrant(before: State) returns (ok: bool, readBack: bool, o: Outcome)
      requires sent == [Ready, Login, Me]
      modifies this
      ensures sent == [Ready, Login, Me, Grant]
      ensures ok <==> GrantProven(env)
      ensures !ok ==> o.Aborted? || o == Failure(before, Grant, env.reply(Grant))
      ensures env.reply(Grant).Broken? ==> o.Aborted?
    {
      var reply := Send(Grant);
      o, readBack := Failure(before, Grant, reply), false;
      if reply.Broken? {
        return false, false, o;
      }
      if reply.Response? && reply.status == 200 && reply.body != Unparsed {
        ok := reply.body.ConsentBody? && reply.body.granted;
      } else {
        var state := env.afterGrant;
        if state.SystemError? {
          return false, false, Aborted;
        }
        readBack := state.Value? && state.value.consent;
        ok := readBack;
      }
    }

    method ProveLogout(before: State, session: Uuid) returns (ok: bool, readBack: bool, o: Outcome)
      requires sent == [Ready, Login, Me, Grant]
      modifies this
      ensures sent == PLAN
      ensures ok <==> LogoutProven(env, session)
      ensures !ok ==> o.Aborted? || o == Failure(before, Logout, env.reply(Logout))
      ensures env.reply(Logout).Broken? ==> o.Aborted?
    {
      var reply := Send(Logout);
      o, readBack := Failure(before, Logout, reply), false;
      if !reply.Response? {
        return false, false, o;
      }
      ok := true;
      if reply.status != 204 {
        var status := env.afterLogout(session);
        if status.SystemError? {
          return false, false, Aborted;
        }
        readBack := status.Value? && status.value.revoked;
        ok := readBack;
      }
    }

    /** Counts, account, roles, consent and session, each against the state before the run. */
    method Reconcile(before: State, session: Uuid) returns (ok: bool, o: Outcome)
      requires AuthSession in before.counts && RefreshToken in before.counts
      requires SecurityEvent in before.counts && ConsentFact in before.counts
      ensures ok <==> Reconciled(before, env, session)
      ensures !ok ==> o.Aborted? || o == ReconcileFailure(AfterFailure(before))
    {
      o, ok := ReconcileFailure(AfterFailure(before)), false;
      if env.final.SystemError? { return false, Aborted; }
      if env.final.DatabaseError? { return; }
      var after := env.final.value;
      var expected := before.counts;
      expected := expected[AuthSession := expected[AuthSession] + 1];
      expected := expected[RefreshToken := expected[RefreshToken] + 1];
      expected := expected[SecurityEvent := expected[SecurityEvent] + 2];
      expected := expected[ConsentFact := expected[ConsentFact] + 1];
      assert expected == ExpectedAfter(before.counts);
      if after.counts != expected { return; }
      if after.account != before.account || after.roles != before.roles { return; }
      if !after.consent { return; }
      var status := env.finalSession(session);
      if status.SystemError? { return false, Aborted; }
      if status.DatabaseError? { return; }
      ok := status.value.present && status.value.revoked && status.value.userId == READER;
    }

    /** The whole run from an approved baseline. */
    method Apply(baseline: State, before: State) returns (o: Outcome)
      requires sent == []
      requires AuthSession in baseline.counts && RefreshToken in baseline.counts
      requires SecurityEvent in baseline.counts && ConsentFact in baseline.counts
      modifies this
      // each request goes out at most once, in this order
      ensures sent <= PLAN
      ensures o.NotStarted? <==> before != baseline
      ensures before != baseline ==> sent == []
      // the session is only ended after the grant is proven
      ensures Logout in sent ==> GrantProven(env)
      ensures Grant in sent ==> LoggedIn(env.reply(Login)) && Identified(env.reply(Me))
      ensures o.Pass? <==> before == baseline && Clean(before, env)
      ensures o.Pass? ==> o.after == env.final.value && sent == PLAN
      ensures o.PartialFailure? || o.ReconcileFailure? ==> o.after == AfterFailure(before)
      // a broken answer ends the run there, without evidence
      ensures sent != [] && env.reply(sent[|sent| - 1]).Broken? ==> o.Aborted?
    {
      if before != baseline {
        return NotStarted;
      }
      var ok, session, grantReadBack, logoutReadBack;
      ok, session, o := SignIn(before);
      if !ok { return; }
      ok, grantReadBack, o := ProveGrant(before);
      if !ok { return; }
      ok, logoutReadBack, o := ProveLogout(before, session);
      if !ok { return; }
      ok, o := Reconcile(before, session);
      if !ok { return; }
      o := Pass(env.final.value, grantReadBack, logoutReadBack);
    }
  }

  /** Everything a PASS stands for. */
  predicate Clean(before: State, env: Environment) {
    && Healthy(env.reply(Ready)) && LoggedIn(env.reply(Login)) && Identified(env.reply(Me)) && GrantProven(env)
    && LogoutProven(env, env.reply(Me).body.session) && Reconciled(before, env, env.reply(Me).body.session)
  }

  // ---------------------------------------------------------------- consequences

  function Occurrences(sent: seq<Request>, r: Request): nat {
    multiset(sent)[r]
  }

  /** A run that follows the plan's order sends each request at most once, the consent request included. */
  lemma AtMostOnce(sent: seq<Request>, r: Request)
    requires sent <= PLAN
    ensures Occurrences(sent, r) <= 1
  {
    var rest := PLAN[|sent|..];
    assert PLAN == sent + rest;
    assert multiset(PLAN) == multiset(sent) + multiset(rest);
    assert multiset(PLAN) == multiset{Ready, Login, Me, Grant, Logout};
  }

  /** After a PASS every table moved by exactly its expected delta, and five rows were appended in all. */
  lemma PassMovesExactly(before: State, env: Environment, t: Table)
    requires Clean(before, env) && t in before.counts
    ensures t in env.final.value.counts && env.final.value.counts[t] - before.counts[t] == ExpectedDelta(t)
    ensures env.final.value.counts.Keys == before.counts.Keys
    ensures env.final.value.consent && env.final.value.account == before.account && env.final.value.roles == before.roles
  {
    assert t in ExpectedAfter(before.counts);
    assert env.final.value.counts[t] == ExpectedAfter(before.counts)[t];
  }

  // ---------------------------------------------------------------- an honest server

  /** What happens to a request that an honest server would accept. */
  datatype Fate = Undelivered | Turned(status: int)      // no effect: lost on the way, or refused
    | DoneUnheard | DoneCut | DoneGarbled | DoneBadly(status: int) | DoneHeard
      // took effect; the answer was lost, broke off, made no sense, was replaced by a status, or arrived

  predicate TookEffect(f: Fate) {
    f.DoneUnheard? || f.DoneCut? || f.DoneGarbled? || f.DoneBadly? || f.DoneHeard?
  }

  datatype Fates = Fates(ready: Fate, login: Fate, me: Fate, grant: Fate, logout: Fate)

  function ReplyOf(f: Fate, good: int, body: Body): Reply {
    match f
    case Undelivered => NoResponse
    case Turned(status) => Response(status, Unparsed)
    case DoneUnheard => NoResponse
    case DoneCut => Broken
    case DoneGarbled => Response(good, Unparsed)
    case DoneBadly(status) => Response(status, Unparsed)
    case DoneHeard => Response(good, body)
  }

  function Bumped(s: State, t: Table, n: int): State {
    if t in s.counts then s.(counts := s.counts[t := s.counts[t] + n]) else s
  }

  function AfterLogin(s: State, f: Fate): State {
    if TookEffect(f) then Bumped(Bumped(Bumped(s, AuthSession, 1), RefreshToken, 1), SecurityEvent, 1) else s
  }

  function AfterGrant(s: State, f: Fate): State {
    if TookEffect(f) then Bumped(s, ConsentFact, 1).(consent := true) else s
  }

  function AfterLogout(s: State, f: Fate): State {
    if TookEffect(f) then Bumped(s, SecurityEvent, 1) else s
  }

  /** Replies and reads when only this run touches the database. */
  function Honest(before: State, session: Uuid, f: Fates): Environment {
    var granted := AfterGrant(AfterLogin(before, f.login), f.grant);
    var ended := AfterLogout(granted, f.logout);
    var status: Uuid -> Read<SessionStatus> := (u: Uuid) => Value(SessionStatus(true, READER, TookEffect(f.logout)));
    Environment(
      (r: Request) => match r
        case Ready => ReplyOf(f.ready, 200, Unparsed)
        case Login => ReplyOf(f.login, 200, LoginBody(true, READER))
        case Me => ReplyOf(f.me, 200, MeBody(session, READER))
        case Grant => ReplyOf(f.grant, 200, ConsentBody(true))
        case Logout => ReplyOf(f.logout, 204, Unparsed),
      Value(granted), status, Value(ended), status, Value(ended))
  }

  /** Statuses that announce success only when they are genuine. */
  ghost predicate Truthful(f: Fates) {
    && (f.ready.Turned? ==> f.ready.status != 200) && (f.ready.DoneBadly? ==> f.ready.status != 200)
    && (f.login.Turned? ==> f.login.status != 200) && (f.me.Turned? ==> f.me.status != 200)
    && (f.grant.Turned? ==> f.grant.status != 200) && (f.logout.Turned? ==> f.logout.status != 204)
  }

  lemma HonestCounts(before: State, f: Fates)
    requires AuthSession in before.counts && RefreshToken in before.counts
    requires SecurityEvent in before.counts && ConsentFact in before.counts
    requires TookEffect(f.login) && TookEffect(f.grant)
    ensures var ended := AfterLogout(AfterGrant(AfterLogin(before, f.login), f.grant), f.logout);
      (ended.counts == ExpectedAfter(before.counts) <==> TookEffect(f.logout))
      && ended.account == before.account && ended.roles == before.roles && ended.consent
  {
    var ended := AfterLogout(AfterGrant(AfterLogin(before, f.login), f.grant), f.logout);
    if TookEffect(f.logout) {
      assert ended.counts == ExpectedAfter(before.counts);
    } else {
      assert ended.counts[SecurityEvent] == before.counts[SecurityEvent] + 1;
      assert ExpectedAfter(before.counts)[SecurityEvent] == before.counts[SecurityEvent] + 2;
    }
  }

  /** Alone with an honest server that has not granted the consent yet, a run passes exactly when sign-in went through
      cleanly, the grant took effect and its answer did not break off, and the logout took effect and a whole answer
      came back. */
  lemma HonestPassIff(before: State, session: Uuid, f: Fates)
    requires AuthSession in before.counts && RefreshToken in before.counts
    requires SecurityEvent in before.counts && ConsentFact in before.counts
    requires session != NoUuid && !before.consent && Truthful(f)
    ensures Clean(before, Honest(before, session, f)) <==>
      && (f.ready.DoneHeard? || f.ready.DoneGarbled?) && f.login.DoneHeard? && f.me.DoneHeard?
      && TookEffect(f.grant) && !f.grant.DoneCut?
      && TookEffect(f.logout) && !f.logout.DoneUnheard? && !f.logout.DoneCut?
  {
    var env := Honest(before, session, f);
    if LoggedIn(env.reply(Login)) && Identified(env.reply(Me)) {
      assert f.login.DoneHeard? && f.me.DoneHeard?;
      assert GrantProven(env) <==> TookEffect(f.grant) && !f.grant.DoneCut?;
      if TookEffect(f.grant) {
        HonestCounts(before, f);
      }
    }
  }

  /** A logout whose answer is lost is reported as a failure although the database is exactly as after a PASS. */
  lemma UnheardLogoutFails(before: State, session: Uuid, f: Fates)
    requires AuthSession in before.counts && RefreshToken in before.counts
    requires SecurityEvent in before.counts && ConsentFact in before.counts
    requires session != NoUuid && !before.consent && Truthful(f)
    requires f.ready.DoneHeard? && f.login.DoneHeard? && f.me.DoneHeard? && f.grant.DoneHeard? && f.logout.DoneUnheard?
    ensures !Clean(before, Honest(before, session, f))
    ensures Clean(before, Honest(before, session, f.(logout := DoneHeard)))
    ensures Honest(before, session, f).final == Honest(before, session, f.(logout := DoneHeard)).final
  {
    HonestPassIff(before, session, f);
    HonestPassIff(before, session, f.(logout := DoneHeard));
  }
}
