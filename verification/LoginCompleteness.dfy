/**
 The other half of login: a callback that presents the right cookie, claims and nonce in time is logged in,
 however the steps of others interleave with its own.
 */
module LoginCompleteness {
  import opened Prelude
  import opened Identity
  import opened LoginProtocol

  /**
   A login in progress: callback `c` presents `state`, under which `flow` is stored; the identity token
   carries `claims`; the session will be `token`, valid until `expiresAt`, the time of Mint plus its ttl.
   */
  datatype Login = Login(c: nat, state: string, flow: Flow, claims: Claims, token: string, expiresAt: Time)

  const ACTS := 6

  /** Acts a callback has done to get where it is. */
  function Stage(pc: Pc): nat {
    match pc
    case Arrived => 0
    case Consumed => 1
    case Checked(_) => 2
    case Verified(_, _, _) => 3
    case Resolved(_, _, _, _) => 4
    case Minted(_, _, _, _, _, _) => 5
    case LoggedIn(_, _, _, _) => ACTS
    case Rejected => 0
  }

  /** The callback has not been rejected and holds what a correct login holds by now. */
  predicate OnTrack(s: State, l: Login) {
    && l.c < |s.callbacks|
    && var cb := s.callbacks[l.c];
    && cb.state == l.state
    && match cb.pc
       case Arrived => l.state in s.flows && s.flows[l.state].flow == l.flow
       case Consumed => Holds(cb, l)
       case Checked(_) => Holds(cb, l)
       case Verified(_, claims, _) => Holds(cb, l) && claims == l.claims
       case Resolved(_, claims, _, _) => Holds(cb, l) && claims == l.claims
       case Minted(_, claims, _, _, token, expiresAt) =>
         Holds(cb, l) && claims == l.claims && token == l.token && expiresAt == l.expiresAt
       case LoggedIn(_, claims, _, token) => claims == l.claims && token == l.token && Opened(s, l)
       case Rejected => false
  }

  predicate Holds(cb: Callback, l: Login) { cb.row.Some? && cb.row.value.flow == l.flow }

  predicate Opened(s: State, l: Login) {
    && l.token in s.sessions && l.token in s.origin
    && s.origin[l.token] == l.c && s.sessions[l.token].expiresAt == l.expiresAt
  }

  /** The act belongs to this login: in time, with the right token, for an unused session token. */
  predicate ProperAct(s: State, act: Act, l: Login) {
    match act
    case Consume => true
    case CheckExpiry => s.now < l.flow.expiresAt
    case Verify(claims, nonce) => claims == l.claims && nonce == l.flow.nonce
    case Resolve(_) => true
    case Mint(token, ttl) => token == l.token && s.now + ttl == l.expiresAt
    case CreateSession => l.token !in s.sessions
    case Reject => false
  }

  /** Others may do anything except to consume the flow first. */
  predicate Proper(s: State, step: Step, l: Login)
    requires Enabled(s, step) && l.c < |s.callbacks|
  {
    step.Continue? ==>
      if step.c == l.c then ProperAct(s, step.act, l)
      else step.act.Consume? && s.callbacks[l.c].pc.Arrived? ==> s.callbacks[step.c].state != l.state
  }

  predicate ProperRun(s: State, run: seq<Step>, l: Login)
    requires ValidRun(s, run)
    decreases |run|
  {
    run != [] ==>
      l.c < |s.callbacks| && Proper(s, run[0], l) && ProperRun(Apply(s, run[0]), run[1..], l)
  }

  predicate IsOwn(step: Step, c: nat) { step.Continue? && step.c == c }

  /** How many steps of the run are acts of callback `c`. */
  function OwnActs(run: seq<Step>, c: nat): nat {
    if run == [] then 0 else (if IsOwn(run[0], c) then 1 else 0) + OwnActs(run[1..], c)
  }

  // ----- Staying on track -----

  lemma OwnStep(s: State, act: Act, l: Login)
    requires OnTrack(s, l) && Enabled(s, Continue(l.c, act)) && ProperAct(s, act, l) && Complete(l.claims)
    ensures var s' := Apply(s, Continue(l.c, act));
            OnTrack(s', l) && Stage(s'.callbacks[l.c].pc) == Stage(s.callbacks[l.c].pc) + 1
  {
    assert Apply(s, Continue(l.c, act)).callbacks[l.c] == Next(s, s.callbacks[l.c], act);
  }

  lemma OthersStep(s: State, step: Step, l: Login)
    requires OnTrack(s, l) && Enabled(s, step) && Proper(s, step, l) && !IsOwn(step, l.c)
    ensures var s' := Apply(s, step);
            OnTrack(s', l) && s'.callbacks[l.c] == s.callbacks[l.c]
  {
    assert Apply(s, step).callbacks[l.c] == s.callbacks[l.c];
    if l.token in s.sessions { SessionStep(s, step, l.token); }
  }

  lemma {:induction false} TrackRun(s: State, run: seq<Step>, l: Login)
    requires OnTrack(s, l) && ValidRun(s, run) && ProperRun(s, run, l) && Complete(l.claims)
    ensures var s' := Exec(s, run);
            OnTrack(s', l) && Stage(s'.callbacks[l.c].pc) == Stage(s.callbacks[l.c].pc) + OwnActs(run, l.c)
    decreases |run|
  {
    if run == [] {
    } else {
      if IsOwn(run[0], l.c) { OwnStep(s, run[0].act, l); } else { OthersStep(s, run[0], l); }
      TrackRun(Apply(s, run[0]), run[1..], l);
    }
  }

  /** The next act of a login, with `id` for a principal seen for the first time. */
  function NextAct(s: State, l: Login, id: Id): Act
    requires OnTrack(s, l)
  {
    match s.callbacks[l.c].pc
    case Arrived => Consume
    case Consumed => CheckExpiry
    case Checked(_) => Verify(l.claims, l.flow.nonce)
    case Verified(_, _, _) => Resolve(id)
    case Resolved(_, _, _, _) => Mint(l.token, l.expiresAt - s.now)
    case Minted(_, _, _, _, _, _) => CreateSession
    case LoggedIn(_, _, _, _) => Reject
  }

  lemma NextEnabled(s: State, l: Login, id: Id)
    requires OnTrack(s, l) && !s.callbacks[l.c].pc.LoggedIn? && Fresh(s, id)
    ensures Enabled(s, Continue(l.c, NextAct(s, l, id)))
  {
  }

  // ----- Sessions that nobody revokes -----

  /** The session, once there, has not been revoked. */
  predicate Unrevoked(s: State, token: string) { token in s.sessions ==> s.sessions[token].revokedAt.None? }

  lemma UnrevokedStep(s: State, step: Step, token: string)
    requires Enabled(s, step) && step != RevokeSession(token) && Unrevoked(s, token)
    ensures Unrevoked(Apply(s, step), token)
  {
    if token in s.sessions { SessionStep(s, step, token); }
  }

  lemma {:induction false} UnrevokedRun(s: State, run: seq<Step>, token: string)
    requires ValidRun(s, run) && RevokeSession(token) !in run && Unrevoked(s, token)
    ensures Unrevoked(Exec(s, run), token)
    decreases |run|
  {
    if run == [] {
    } else {
      assert run[0] in run && forall step :: step in run[1..] ==> step in run;
      UnrevokedStep(s, run[0], token);
      UnrevokedRun(Apply(s, run[0]), run[1..], token);
    }
  }

  // ----- Main results -----

  /** `s` is reachable and `l` can begin there: its flow is stored and its session token unused. */
  ghost predicate CanBegin(start: Time, before: seq<Step>, l: Login) {
    && ValidRun(Initial(start), before)
    && var s := Exec(Initial(start), before);
    && l.c == |s.callbacks| && Complete(l.claims) && l.token !in s.sessions
    && l.state in s.flows && s.flows[l.state].flow == l.flow
  }

  /**
   A correct login succeeds. After the callback arrives with the matching cookie, let `run` be any run in
   which its own acts are proper and nobody else takes its flow. Then it is never rejected, its next act is
   enabled at every moment, and its sixth act leaves it logged in, with a session that is accepted for the
   subject of the identity token, and for nobody else, exactly until `expiresAt`, unless it is revoked.
   */
  lemma LoginSucceeds(start: Time, before: seq<Step>, l: Login, run: seq<Step>)
    requires CanBegin(start, before, l)
    requires var s := Apply(Exec(Initial(start), before), Arrive(l.state, Some(l.state), false));
             ValidRun(s, run) && ProperRun(s, run, l)
    ensures var s' := Exec(Apply(Exec(Initial(start), before), Arrive(l.state, Some(l.state), false)), run);
            && OnTrack(s', l) && OwnActs(run, l.c) <= ACTS
            && (OwnActs(run, l.c) < ACTS ==>
                  forall id :: Fresh(s', id) ==> Enabled(s', Continue(l.c, NextAct(s', l, id))))
            && (OwnActs(run, l.c) == ACTS ==>
                  && s'.callbacks[l.c].pc.LoggedIn? && l.token in s'.sessions
                  && (RevokeSession(l.token) !in run ==>
                        forall a :: Accepted(s', l.token, a) <==> a == l.claims.subject && s'.now < l.expiresAt))
  {
    var s0 := Exec(Initial(start), before);
    var s := Apply(s0, Arrive(l.state, Some(l.state), false));
    StableBijection(Initial(start), before);
    PeopleStep(s0, Arrive(l.state, Some(l.state), false));
    StableBijection(s, run);
    TrackRun(s, run, l);
    var s' := Exec(s, run);
    if OwnActs(run, l.c) < ACTS {
      forall id | Fresh(s', id) ensures Enabled(s', Continue(l.c, NextAct(s', l, id))) { NextEnabled(s', l, id); }
    } else {
      AcceptedIn(s', l.token);
      if RevokeSession(l.token) !in run { UnrevokedRun(s, run, l.token); }
    }
  }

  /** A login on track whose flow has not expired, for an unused session token, can be brought to its end. */
  lemma CanFinish(s: State, l: Login) returns (run: seq<Step>)
    requires OnTrack(s, l) && Complete(l.claims)
    requires Stage(s.callbacks[l.c].pc) < 2 ==> s.now < l.flow.expiresAt
    requires s.callbacks[l.c].pc.LoggedIn? || l.token !in s.sessions
    ensures ValidRun(s, run) && ProperRun(s, run, l) && RevokeSession(l.token) !in run
    ensures OwnActs(run, l.c) == ACTS - Stage(s.callbacks[l.c].pc) && Exec(s, run).now == s.now
    decreases ACTS - Stage(s.callbacks[l.c].pc)
  {
    if s.callbacks[l.c].pc.LoggedIn? {
      run := [];
    } else {
      var id := FreshId(s.issued);
      var step := Continue(l.c, NextAct(s, l, id));
      NextEnabled(s, l, id);
      OwnStep(s, step.act, l);
      var rest := CanFinish(Apply(s, step), l);
      run := [step] + rest;
      Prepend(s, step, rest);
      assert run[1..] == rest;
    }
  }

  /**
   Hence from every reachable state with a stored, unexpired flow, complete claims lead to a session: some
   run ends with the token accepted for their subject.
   */
  lemma LoginPossible(start: Time, before: seq<Step>, l: Login) returns (run: seq<Step>)
    requires CanBegin(start, before, l)
    requires Exec(Initial(start), before).now < l.flow.expiresAt && Exec(Initial(start), before).now < l.expiresAt
    ensures ValidRun(Exec(Initial(start), before), run)
    ensures Accepted(Exec(Exec(Initial(start), before), run), l.token, l.claims.subject)
  {
    var s, arrive := Exec(Initial(start), before), Arrive(l.state, Some(l.state), false);
    var rest := CanFinish(Apply(s, arrive), l);
    LoginSucceeds(start, before, l, rest);
    run := [arrive] + rest;
    Prepend(s, arrive, rest);
  }

  // ----- Refused callbacks -----

  lemma {:induction false} RejectedStays(s: State, run: seq<Step>, c: nat)
    requires ValidRun(s, run) && c < |s.callbacks| && s.callbacks[c].pc.Rejected?
    ensures c < |Exec(s, run).callbacks| && Exec(s, run).callbacks[c].pc.Rejected?
    decreases |run|
  {
    if run == [] {
    } else {
      assert Apply(s, run[0]).callbacks[c].pc.Rejected?;
      RejectedStays(Apply(s, run[0]), run[1..], c);
    }
  }

  /** A callback that reports a provider error, or whose cookie is missing or differs, never logs anybody in. */
  lemma ArrivalRefused(s: State, state: string, cookie: Option<string>, providerError: bool, run: seq<Step>)
    requires providerError || cookie != Some(state)
    requires ValidRun(Apply(s, Arrive(state, cookie, providerError)), run)
    ensures var s' := Exec(Apply(s, Arrive(state, cookie, providerError)), run);
            |s.callbacks| < |s'.callbacks| && s'.callbacks[|s.callbacks|].pc.Rejected?
  {
    RejectedStays(Apply(s, Arrive(state, cookie, providerError)), run, |s.callbacks|);
  }
}
