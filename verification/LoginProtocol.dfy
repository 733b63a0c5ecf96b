/**
 Logins, sessions and authenticated requests as a step system: browsers start flows, callbacks race to
 consume them, sessions are created, used and revoked, all interleaved with the clock.
 */
module LoginProtocol {
  import opened Prelude
  import opened Identity

  /** The seconds a login flow stays valid. */
  const FLOW_LIFETIME := 600

  /** A successful SaveFlow, at time `at`. */
  datatype Saved = Saved(state: string, flow: Flow, at: Time)

  /** A stored flow; `serial` is the position of the SaveFlow that wrote it. */
  datatype FlowRow = FlowRow(serial: nat, flow: Flow)

  /** What a callback does next; values it has established are kept. */
  datatype Pc =
    | Arrived                                             // state equals the browser's cookie
    | Consumed                                            // the flow row is deleted; expiry not yet checked
    | Checked(at: Time)
    | Verified(at: Time, claims: Claims, nonce: string)
    | Resolved(at: Time, claims: Claims, nonce: string, principal: Id)
    | Minted(at: Time, claims: Claims, nonce: string, principal: Id, token: string, expiresAt: Time)
    | LoggedIn(at: Time, claims: Claims, nonce: string, token: string)
    | Rejected

  datatype Callback = Callback(state: string, cookie: Option<string>, row: Option<FlowRow>, pc: Pc)

  /** An API request between authentication and authorization. */
  datatype Request = Claimed(claims: Claims) | Known(subject: string, principal: Id)

  /** `origin` is the callback that created the session. */
  datatype State = State(
    now: Time, issued: set<Id>,
    principals: Principals,
    flows: map<string, FlowRow>, saved: seq<Saved>,
    callbacks: seq<Callback>,
    sessions: map<string, Session>, origin: map<string, nat>,
    requests: seq<Request>)

  function Initial(now: Time): State {
    State(now, {}, map[], map[], [], [], map[], map[], [])
  }

  /** One statement, or one exchange with the identity provider, of a callback. */
  datatype Act =
    | Consume                                             // DELETE ... RETURNING
    | CheckExpiry
    | Verify(claims: Claims, nonce: string)               // what the provider's token turned out to say
    | Resolve(id: Id)                                     // upsert the principal
    | Mint(token: string, ttl: Time)
    | CreateSession
    | Reject                                              // any failure on the way

  datatype Step =
    | Tick(d: nat)
    | SaveFlow(state: string, flow: Flow)
    | Arrive(state: string, cookie: Option<string>, providerError: bool)
    | Continue(c: nat, act: Act)
    | RevokeSession(token: string)
    | BearerRequest(claims: Claims)
    | SessionRequest(token: string, subject: string)
    | ResolveRequest(r: nat, id: Id)

  predicate Fresh(s: State, id: Id) { id != "" && id !in s.issued }

  /** Claims must name a subject and a display name. */
  predicate Complete(claims: Claims) { claims.subject != "" && claims.displayName != "" }

  predicate CanAct(s: State, cb: Callback, act: Act) {
    match act
    case Consume => cb.pc.Arrived?
    case CheckExpiry => cb.pc.Consumed? && cb.row.Some?
    case Verify(_, _) => cb.pc.Checked? && cb.row.Some?
    case Resolve(id) => cb.pc.Verified? && Fresh(s, id)
    case Mint(_, _) => cb.pc.Resolved?
    case CreateSession => cb.pc.Minted?
    case Reject => !cb.pc.LoggedIn?
  }

  predicate Enabled(s: State, step: Step) {
    match step
    case Tick(_) => true
    case SaveFlow(state, flow) => state !in s.flows && flow.expiresAt <= s.now + FLOW_LIFETIME
    case Arrive(_, _, _) => true
    case Continue(c, act) => c < |s.callbacks| && CanAct(s, s.callbacks[c], act)
    case RevokeSession(_) => true
    case BearerRequest(claims) => Complete(claims)
    case SessionRequest(token, subject) => Authenticates(s.principals, s.sessions, token, s.now, subject)
    case ResolveRequest(r, id) => r < |s.requests| && s.requests[r].Claimed? && Fresh(s, id)
  }

  /** The callback after its own act. */
  function Next(s: State, cb: Callback, act: Act): Callback
    requires CanAct(s, cb, act)
  {
    match act
    case Consume =>
      if cb.state in s.flows then cb.(pc := Consumed, row := Some(s.flows[cb.state])) else cb.(pc := Rejected)
    case CheckExpiry =>
      cb.(pc := if s.now < cb.row.value.flow.expiresAt then Checked(s.now) else Rejected)
    case Verify(claims, nonce) =>
      cb.(pc := if claims.subject == "" || claims.displayName == "" || nonce != cb.row.value.flow.nonce
                then Rejected else Verified(cb.pc.at, claims, nonce))
    case Resolve(id) =>
      var ps := Upsert(s.principals, cb.pc.claims, id, s.now);
      cb.(pc := Resolved(cb.pc.at, cb.pc.claims, cb.pc.nonce, ps[cb.pc.claims.subject].id))
    case Mint(token, ttl) =>
      cb.(pc := Minted(cb.pc.at, cb.pc.claims, cb.pc.nonce, cb.pc.principal, token, s.now + ttl))
    case CreateSession =>
      cb.(pc := if cb.pc.token in s.sessions then Rejected
                else LoggedIn(cb.pc.at, cb.pc.claims, cb.pc.nonce, cb.pc.token))
    case Reject => cb.(pc := Rejected)
  }

  /** The effect of an act on the tables. */
  function Effect(s: State, c: nat, cb: Callback, act: Act): State
    requires CanAct(s, cb, act)
  {
    match act
    case Consume => s.(flows := s.flows - {cb.state})
    case Resolve(id) => s.(principals := Upsert(s.principals, cb.pc.claims, id, s.now), issued := s.issued + {id})
    case CreateSession =>
      if cb.pc.token in s.sessions then s else
      s.(sessions := s.sessions[cb.pc.token := Session(cb.pc.principal, cb.pc.expiresAt, s.now, s.now, None)],
         origin := s.origin[cb.pc.token := c])
    case _ => s
  }

  function Apply(s: State, step: Step): State
    requires Enabled(s, step)
  {
    match step
    case Tick(d) => s.(now := s.now + d)
    case SaveFlow(state, flow) =>
      s.(flows := s.flows[state := FlowRow(|s.saved|, flow)], saved := s.saved + [Saved(state, flow, s.now)])
    case Arrive(state, cookie, providerError) =>
      s.(callbacks := s.callbacks + [Callback(state, cookie, None,
          if providerError || cookie != Some(state) then Rejected else Arrived)])
    case Continue(c, act) =>
      Effect(s, c, s.callbacks[c], act).(callbacks := s.callbacks[c := Next(s, s.callbacks[c], act)])
    case RevokeSession(token) => s.(sessions := Revoke(s.sessions, token, s.now))
    case BearerRequest(claims) => s.(requests := s.requests + [Claimed(claims)])
    case SessionRequest(_, subject) =>
      s.(requests := s.requests + [Claimed(StoredClaims(s.principals, subject))])
    case ResolveRequest(r, id) =>
      var claims := s.requests[r].claims;
      var ps := Upsert(s.principals, claims, id, s.now);
      s.(principals := ps, issued := s.issued + {id},
         requests := s.requests[r := Known(claims.subject, ps[claims.subject].id)])
  }

  predicate ValidRun(s: State, run: seq<Step>)
    decreases |run|
  {
    run != [] ==> Enabled(s, run[0]) && ValidRun(Apply(s, run[0]), run[1..])
  }

  function Exec(s: State, run: seq<Step>): State
    requires ValidRun(s, run)
    decreases |run|
  {
    if run == [] then s else Exec(Apply(s, run[0]), run[1..])
  }

  // ----- Where sessions come from -----

  /** The flow was saved under `state`, less than its lifetime before it expires. */
  predicate SavedAs(saved: Saved, state: string, flow: Flow) {
    saved.state == state && saved.flow == flow && flow.expiresAt <= saved.at + FLOW_LIFETIME
  }

  /** What a callback has established so far. */
  predicate CallbackOk(saved: seq<Saved>, cb: Callback) {
    && (cb.pc.Arrived? ==> cb.cookie == Some(cb.state) && cb.row.None?)
    && (!cb.pc.Arrived? && !cb.pc.Rejected? ==> cb.row.Some?)
    && (cb.row.Some? ==>
          && cb.cookie == Some(cb.state)
          && cb.row.value.serial < |saved| && SavedAs(saved[cb.row.value.serial], cb.state, cb.row.value.flow)
          && (cb.pc.Checked? || cb.pc.Verified? || cb.pc.Resolved? || cb.pc.Minted? || cb.pc.LoggedIn? ==>
                cb.pc.at < cb.row.value.flow.expiresAt)
          && (cb.pc.Verified? || cb.pc.Resolved? || cb.pc.Minted? || cb.pc.LoggedIn? ==>
                cb.pc.nonce == cb.row.value.flow.nonce && Complete(cb.pc.claims)))
  }

  ghost predicate CallbacksOk(s: State) {
    forall c :: 0 <= c < |s.callbacks| ==> CallbackOk(s.saved, s.callbacks[c])
  }

  ghost predicate FlowsOk(s: State) {
    forall st :: st in s.flows ==>
      s.flows[st].serial < |s.saved| && SavedAs(s.saved[s.flows[st].serial], st, s.flows[st].flow)
  }

  /** A saved flow is in the table or held by a single callback, never both. */
  ghost predicate HeldOnce(s: State) {
    && (forall c, st :: 0 <= c < |s.callbacks| && s.callbacks[c].row.Some? && st in s.flows ==>
          s.flows[st].serial != s.callbacks[c].row.value.serial)
    && (forall c, d :: 0 <= c < |s.callbacks| && 0 <= d < |s.callbacks| && c != d ==>
          (s.callbacks[c].row.Some? && s.callbacks[d].row.Some? ==>
             s.callbacks[c].row.value.serial != s.callbacks[d].row.value.serial))
  }

  /** A session's origin is a callback that ended by creating it. */
  predicate OriginOk(s: State, token: string)
    requires token in s.origin
  {
    && s.origin[token] < |s.callbacks|
    && s.callbacks[s.origin[token]].pc.LoggedIn?
    && s.callbacks[s.origin[token]].pc.token == token
  }

  ghost predicate SessionsOk(s: State) {
    s.sessions.Keys == s.origin.Keys && forall t :: t in s.origin ==> OriginOk(s, t)
  }

  lemma ActOk(s: State, cb: Callback, act: Act)
    requires FlowsOk(s) && CallbackOk(s.saved, cb) && CanAct(s, cb, act)
    ensures CallbackOk(s.saved, Next(s, cb, act))
  {
  }

  lemma CallbacksStep(s: State, step: Step)
    requires FlowsOk(s) && CallbacksOk(s) && Enabled(s, step)
    ensures CallbacksOk(Apply(s, step))
  {
    if step.Continue? { ActOk(s, s.callbacks[step.c], step.act); }
  }

  lemma FlowsStep(s: State, step: Step)
    requires FlowsOk(s) && Enabled(s, step)
    ensures FlowsOk(Apply(s, step))
  {
  }

  lemma HeldStep(s: State, step: Step)
    requires FlowsOk(s) && CallbacksOk(s) && HeldOnce(s) && Enabled(s, step)
    ensures HeldOnce(Apply(s, step))
  {
    if step.Continue? {
      var cb := s.callbacks[step.c];
      assert CallbackOk(s.saved, cb);
      assert Next(s, cb, step.act).row == cb.row || (step.act.Consume? && cb.state in s.flows);
    }
  }

  lemma OriginStep(s: State, step: Step, token: string)
    requires Enabled(s, step) && token in Apply(s, step).origin && (token in s.origin ==> OriginOk(s, token))
    ensures OriginOk(Apply(s, step), token)
  {
  }

  lemma TokensStep(s: State, step: Step)
    requires Enabled(s, step) && s.sessions.Keys == s.origin.Keys
    ensures Apply(s, step).sessions.Keys == Apply(s, step).origin.Keys
  {
  }

  ghost predicate LoginInv(s: State) { FlowsOk(s) && CallbacksOk(s) && HeldOnce(s) && SessionsOk(s) }

  lemma LoginStep(s: State, step: Step)
    requires LoginInv(s) && Enabled(s, step)
    ensures LoginInv(Apply(s, step))
  {
    CallbacksStep(s, step);
    FlowsStep(s, step);
    HeldStep(s, step);
    TokensStep(s, step);
    forall t | t in Apply(s, step).origin ensures OriginOk(Apply(s, step), t) { OriginStep(s, step, t); }
  }

  lemma {:induction false} LoginRun(s: State, run: seq<Step>)
    requires LoginInv(s) && ValidRun(s, run)
    ensures LoginInv(Exec(s, run))
    decreases |run|
  {
    if run == [] {
    } else {
      LoginStep(s, run[0]);
      LoginRun(Apply(s, run[0]), run[1..]);
    }
  }

  /** The SaveFlow behind a session. */
  function SavedBehind(s: State, token: string): nat
    requires token in s.origin && OriginOk(s, token) && s.callbacks[s.origin[token]].row.Some?
  {
    s.callbacks[s.origin[token]].row.value.serial
  }

  /**
   Every session goes back to a successful SaveFlow: the flow left the table for one callback only, it was
   checked unexpired and within ten minutes, its state is the browser's cookie and its nonce is the token's.
   */
  lemma SessionHasFlow(start: Time, run: seq<Step>, token: string)
    requires ValidRun(Initial(start), run) && token in Exec(Initial(start), run).sessions
    ensures var s := Exec(Initial(start), run);
            && token in s.origin && OriginOk(s, token) && s.callbacks[s.origin[token]].row.Some?
            && SavedBehind(s, token) < |s.saved|
            && var (cb, saved) := (s.callbacks[s.origin[token]], s.saved[SavedBehind(s, token)]);
            && cb.state == saved.state && cb.cookie == Some(saved.state)
            && cb.pc.at < saved.flow.expiresAt <= saved.at + 600
            && cb.pc.nonce == saved.flow.nonce && cb.pc.claims.subject != "" && cb.pc.claims.displayName != ""
            && (forall st :: st in s.flows ==> s.flows[st].serial != SavedBehind(s, token))
            && (forall c :: 0 <= c < |s.callbacks| && c != s.origin[token] ==>
                  s.callbacks[c].row.None? || s.callbacks[c].row.value.serial != SavedBehind(s, token))
  {
    LoginRun(Initial(start), run);
    var s := Exec(Initial(start), run);
    assert OriginOk(s, token);
    assert CallbackOk(s.saved, s.callbacks[s.origin[token]]);
  }

  /** One login flow never yields two sessions. */
  lemma OneSessionPerFlow(start: Time, run: seq<Step>, t: string, u: string)
    requires ValidRun(Initial(start), run)
    requires t in Exec(Initial(start), run).sessions && u in Exec(Initial(start), run).sessions && t != u
    ensures var s := Exec(Initial(start), run);
            && t in s.origin && OriginOk(s, t) && s.callbacks[s.origin[t]].row.Some?
            && u in s.origin && OriginOk(s, u) && s.callbacks[s.origin[u]].row.Some?
            && SavedBehind(s, t) != SavedBehind(s, u)
  {
    SessionHasFlow(start, run, t);
    SessionHasFlow(start, run, u);
    assert Exec(Initial(start), run).origin[t] != Exec(Initial(start), run).origin[u];
  }

  // ----- How long sessions last -----

  predicate Accepted(s: State, token: string, subject: string) {
    Authenticates(s.principals, s.sessions, token, s.now, subject)
  }

  lemma SessionStep(s: State, step: Step, token: string)
    requires Enabled(s, step) && token in s.sessions
    ensures var s' := Apply(s, step);
            && token in s'.sessions && s.now <= s'.now
            && s'.sessions[token] ==
               (if step == RevokeSession(token) && s.sessions[token].revokedAt.None?
                then s.sessions[token].(revokedAt := Some(s.now)) else s.sessions[token])
  {
  }

  lemma SubjectStep(s: State, step: Step, subject: string)
    requires Enabled(s, step) && subject in s.principals
    ensures var s' := Apply(s, step);
            && subject in s'.principals && s'.principals[subject].id == s.principals[subject].id
            && s'.principals[subject].active == s.principals[subject].active
  {
  }

  /**
   A live session authenticates its subject from now on exactly until it expires or is revoked,
   whichever comes first.
   */
  lemma {:induction false} SessionLifetime(s: State, run: seq<Step>, token: string, subject: string)
    requires ValidRun(s, run) && Accepted(s, token, subject)
    ensures Accepted(Exec(s, run), token, subject) <==>
            Exec(s, run).now < s.sessions[token].expiresAt && RevokeSession(token) !in run
    decreases |run|
  {
    if run == [] {
    } else {
      var s' := Apply(s, run[0]);
      SessionStep(s, run[0], token);
      SubjectStep(s, run[0], subject);
      if Accepted(s', token, subject) {
        SessionLifetime(s', run[1..], token, subject);
      } else {
        RefusedForever(s', run[1..], token, subject);
        TimeAdvances(s', run[1..]);
      }
    }
  }

  /** Once a stored session is refused it is never accepted again. */
  lemma {:induction false} RefusedForever(s: State, run: seq<Step>, token: string, subject: string)
    requires ValidRun(s, run) && token in s.sessions && subject in s.principals && !Accepted(s, token, subject)
    ensures !Accepted(Exec(s, run), token, subject)
    decreases |run|
  {
    if run == [] {
    } else {
      SessionStep(s, run[0], token);
      SubjectStep(s, run[0], subject);
      RefusedForever(Apply(s, run[0]), run[1..], token, subject);
    }
  }

  lemma {:induction false} TimeAdvances(s: State, run: seq<Step>)
    requires ValidRun(s, run)
    ensures s.now <= Exec(s, run).now
    decreases |run|
  {
    if run == [] {
    } else {
      TimeAdvances(Apply(s, run[0]), run[1..]);
    }
  }

  lemma {:induction false} RevokedStays(s: State, run: seq<Step>, token: string)
    requires ValidRun(s, run) && token in s.sessions && s.sessions[token].revokedAt.Some?
    ensures token in Exec(s, run).sessions && Exec(s, run).sessions[token] == s.sessions[token]
    decreases |run|
  {
    if run == [] {
    } else {
      SessionStep(s, run[0], token);
      RevokedStays(Apply(s, run[0]), run[1..], token);
    }
  }

  /** A second revocation changes nothing, whatever happens between the two. */
  lemma RevokeTwice(s: State, token: string, run: seq<Step>)
    requires token in s.sessions && ValidRun(Apply(s, RevokeSession(token)), run)
    ensures var later := Exec(Apply(s, RevokeSession(token)), run);
            Apply(later, RevokeSession(token)) == later
  {
    RevokedStays(Apply(s, RevokeSession(token)), run, token);
  }

  /** The moments at which a token is accepted form one stretch: no refusal in between. */
  lemma OneStretch(s: State, b: seq<Step>, c: seq<Step>, token: string, subject: string)
    requires ValidRun(s, b) && ValidRun(Exec(s, b), c)
    requires Accepted(s, token, subject) && Accepted(Exec(Exec(s, b), c), token, subject)
    ensures Accepted(Exec(s, b), token, subject)
  {
    StillStored(s, b, token, subject);
    if !Accepted(Exec(s, b), token, subject) { RefusedForever(Exec(s, b), c, token, subject); }
  }

  lemma {:induction false} StillStored(s: State, run: seq<Step>, token: string, subject: string)
    requires ValidRun(s, run) && token in s.sessions && subject in s.principals
    ensures token in Exec(s, run).sessions && subject in Exec(s, run).principals
    decreases |run|
  {
    if run == [] {
    } else {
      SessionStep(s, run[0], token);
      SubjectStep(s, run[0], subject);
      StillStored(Apply(s, run[0]), run[1..], token, subject);
    }
  }

  // ----- Who is who -----

  /** `id` is the identifier stored for `subject`. */
  predicate IdOf(ps: Principals, subject: string, id: Id) { subject in ps && ps[subject].id == id }

  predicate HasPrincipal(cb: Callback) { cb.pc.Resolved? || cb.pc.Minted? }

  /** The subject whose identity token opened the session. */
  predicate OpenedFor(s: State, token: string)
    requires token in s.sessions
  {
    && token in s.origin && OriginOk(s, token)
    && IdOf(s.principals, s.callbacks[s.origin[token]].pc.claims.subject, s.sessions[token].principal)
  }

  predicate RequestOk(ps: Principals, r: Request) {
    r.Known? ==> r.subject in ps && ps[r.subject].id == r.principal
  }

  /** A callback that has resolved its principal holds the identifier stored for its claims. */
  predicate HolderOk(ps: Principals, cb: Callback) {
    HasPrincipal(cb) ==> IdOf(ps, cb.pc.claims.subject, cb.pc.principal)
  }

  /** Every principal identifier in use belongs to exactly one stored subject. */
  ghost predicate PeopleOk(s: State) {
    && PrincipalsOk(s.principals) && AllActive(s.principals)
    && IdsIssued(s)
    && (forall r :: 0 <= r < |s.requests| ==> RequestOk(s.principals, s.requests[r]))
    && (forall c :: 0 <= c < |s.callbacks| ==> HolderOk(s.principals, s.callbacks[c]))
    && (forall t :: t in s.sessions ==> OpenedFor(s, t))
  }

  ghost predicate IdsIssued(s: State) {
    forall a :: a in s.principals ==> s.principals[a].id in s.issued
  }

  /** The claims a step upserts and the identifier it draws for them, if any. */
  function Upserted(s: State, step: Step): Option<(Claims, Id)>
    requires Enabled(s, step)
  {
    if step.ResolveRequest? then Some((s.requests[step.r].claims, step.id))
    else if step.Continue? && step.act.Resolve? then Some((s.callbacks[step.c].pc.claims, step.act.id))
    else None
  }

  lemma OnlyUpserts(s: State, step: Step)
    requires Enabled(s, step)
    ensures var s', u := Apply(s, step), Upserted(s, step);
            if u.None? then s'.principals == s.principals && s'.issued == s.issued
            else s'.principals == Upsert(s.principals, u.value.0, u.value.1, s.now)
                 && s'.issued == s.issued + {u.value.1} && Fresh(s, u.value.1)
  {
  }

  lemma PrincipalsStep(s: State, step: Step)
    requires PrincipalsOk(s.principals) && AllActive(s.principals) && IdsIssued(s) && Enabled(s, step)
    ensures var s' := Apply(s, step);
            && PrincipalsOk(s'.principals) && AllActive(s'.principals)
            && SameIds(s.principals, s'.principals) && IdsIssued(s')
  {
    OnlyUpserts(s, step);
    var u := Upserted(s, step);
    if u.Some? { UpsertOk(s.principals, u.value.0, u.value.1, s.now); }
  }

  lemma RequestsStep(s: State, step: Step, r: nat)
    requires Enabled(s, step) && SameIds(s.principals, Apply(s, step).principals)
    requires r < |Apply(s, step).requests| && (r < |s.requests| ==> RequestOk(s.principals, s.requests[r]))
    ensures RequestOk(Apply(s, step).principals, Apply(s, step).requests[r])
  {
  }

  lemma HolderStep(s: State, step: Step, c: nat)
    requires Enabled(s, step) && SameIds(s.principals, Apply(s, step).principals)
    requires c < |Apply(s, step).callbacks| && (c < |s.callbacks| ==> HolderOk(s.principals, s.callbacks[c]))
    ensures HolderOk(Apply(s, step).principals, Apply(s, step).callbacks[c])
  {
    var s' := Apply(s, step);
    if step.Continue? && step.c == c {
      assert s'.callbacks[c] == Next(s, s.callbacks[c], step.act);
    } else if c < |s.callbacks| {
      assert s'.callbacks[c] == s.callbacks[c];
    }
  }

  lemma OpenedStep(s: State, step: Step, token: string)
    requires Enabled(s, step) && SameIds(s.principals, Apply(s, step).principals)
    requires token in s.sessions ==> OpenedFor(s, token)
    requires step.Continue? ==> HolderOk(s.principals, s.callbacks[step.c])
    requires token in Apply(s, step).sessions
    ensures OpenedFor(Apply(s, step), token)
  {
    if token in s.sessions { SessionStep(s, step, token); }
  }

  lemma PeopleStep(s: State, step: Step)
    requires PeopleOk(s) && Enabled(s, step)
    ensures PeopleOk(Apply(s, step)) && SameIds(s.principals, Apply(s, step).principals)
  {
    PrincipalsStep(s, step);
    forall c | 0 <= c < |Apply(s, step).callbacks|
      ensures HolderOk(Apply(s, step).principals, Apply(s, step).callbacks[c])
    {
      HolderStep(s, step, c);
    }
    forall r | 0 <= r < |Apply(s, step).requests|
      ensures RequestOk(Apply(s, step).principals, Apply(s, step).requests[r])
    {
      RequestsStep(s, step, r);
    }
    forall t | t in Apply(s, step).sessions ensures OpenedFor(Apply(s, step), t) { OpenedStep(s, step, t); }
  }

  /** Subjects and principal identifiers stay in one stable bijection over the whole run. */
  lemma {:induction false} StableBijection(s: State, run: seq<Step>)
    requires PeopleOk(s) && ValidRun(s, run)
    ensures PeopleOk(Exec(s, run)) && SameIds(s.principals, Exec(s, run).principals)
    decreases |run|
  {
    if run == [] {
    } else {
      PeopleStep(s, run[0]);
      StableBijection(Apply(s, run[0]), run[1..]);
    }
  }

  /** A session authenticates the subject of the identity token it was opened with, and nobody else. */
  lemma SessionSubject(start: Time, run: seq<Step>, token: string, subject: string)
    requires ValidRun(Initial(start), run) && Accepted(Exec(Initial(start), run), token, subject)
    ensures var s := Exec(Initial(start), run);
            && token in s.origin && OriginOk(s, token)
            && subject == s.callbacks[s.origin[token]].pc.claims.subject
  {
    StableBijection(Initial(start), run);
    assert OpenedFor(Exec(Initial(start), run), token);
  }

  /** The subject whose identity token opened the session. */
  function Opener(s: State, token: string): string
    requires token in s.origin && OriginOk(s, token)
  {
    s.callbacks[s.origin[token]].pc.claims.subject
  }

  lemma AcceptedIn(s: State, token: string)
    requires PeopleOk(s) && token in s.sessions
    ensures token in s.origin && OriginOk(s, token)
    ensures forall a :: Accepted(s, token, a) <==>
              a == Opener(s, token) && s.sessions[token].revokedAt.None? && s.now < s.sessions[token].expiresAt
  {
    assert OpenedFor(s, token);
  }

  /**
   Acceptance is exact: a stored session is accepted for the subject that opened it, and for nobody
   else, precisely while it is neither revoked nor expired.
   */
  lemma AcceptedExactly(start: Time, run: seq<Step>, token: string)
    requires ValidRun(Initial(start), run) && token in Exec(Initial(start), run).sessions
    ensures var s := Exec(Initial(start), run);
            var live := s.sessions[token].revokedAt.None? && s.now < s.sessions[token].expiresAt;
            && token in s.origin && OriginOk(s, token)
            && (forall a :: Accepted(s, token, a) <==> a == Opener(s, token) && live)
            && ((exists a :: Accepted(s, token, a)) <==> live)
  {
    StableBijection(Initial(start), run);
    var s := Exec(Initial(start), run);
    AcceptedIn(s, token);
    assert Accepted(s, token, Opener(s, token)) <==>
           s.sessions[token].revokedAt.None? && s.now < s.sessions[token].expiresAt;
  }

  /**
   The whole life of a session: from the INSERT that creates it, it authenticates the subject of its
   identity token exactly until it expires or is revoked.
   */
  lemma LifetimeFromCreation(start: Time, before: seq<Step>, c: nat, run: seq<Step>)
    requires ValidRun(Initial(start), before)
    requires var s := Exec(Initial(start), before);
             && Enabled(s, Continue(c, CreateSession)) && s.callbacks[c].pc.token !in s.sessions
             && ValidRun(Apply(s, Continue(c, CreateSession)), run)
    ensures var s := Exec(Initial(start), before);
            var (pc, later) := (s.callbacks[c].pc, Exec(Apply(s, Continue(c, CreateSession)), run));
            Accepted(later, pc.token, pc.claims.subject) <==>
            later.now < pc.expiresAt && RevokeSession(pc.token) !in run
  {
    StableBijection(Initial(start), before);
    var s := Exec(Initial(start), before);
    var pc := s.callbacks[c].pc;
    var s' := Apply(s, Continue(c, CreateSession));
    assert HolderOk(s.principals, s.callbacks[c]);
    assert Accepted(s', pc.token, pc.claims.subject) <==> s'.now < pc.expiresAt;
    if Accepted(s', pc.token, pc.claims.subject) {
      SessionLifetime(s', run, pc.token, pc.claims.subject);
    } else {
      RefusedForever(s', run, pc.token, pc.claims.subject);
      TimeAdvances(s', run);
    }
  }

  // ----- Nobody is anonymous -----

  ghost predicate RowsNamed(ps: Principals) { forall a :: a in ps ==> a != "" && ps[a].displayName != "" }

  predicate RequestNamed(r: Request) { if r.Claimed? then Complete(r.claims) else r.subject != "" }

  ghost predicate Named(s: State) {
    RowsNamed(s.principals) && forall r :: 0 <= r < |s.requests| ==> RequestNamed(s.requests[r])
  }

  lemma NamedStep(s: State, step: Step)
    requires CallbacksOk(s) && Named(s) && Enabled(s, step)
    ensures Named(Apply(s, step))
  {
    OnlyUpserts(s, step);
    if step.Continue? { assert CallbackOk(s.saved, s.callbacks[step.c]); }
  }

  /** Over every run all stored principals and all requests have a subject, and a name where they carry one. */
  lemma {:induction false} NobodyAnonymous(s: State, run: seq<Step>)
    requires LoginInv(s) && Named(s) && ValidRun(s, run)
    ensures Named(Exec(s, run))
    decreases |run|
  {
    if run == [] {
    } else {
      NamedStep(s, run[0]);
      LoginStep(s, run[0]);
      NobodyAnonymous(Apply(s, run[0]), run[1..]);
    }
  }

  // ----- What a request authenticated by session writes back -----

  /** Apart from name, e-mail and updated_at, the row is the same. */
  predicate SameButClaims(row: PrincipalRow, row': PrincipalRow) {
    row' == row.(displayName := row'.displayName, email := row'.email, updatedAt := row'.updatedAt)
  }

  lemma PendingStep(s: State, step: Step, subject: string, r: nat)
    requires Enabled(s, step) && subject in s.principals && r < |s.requests|
    ensures var s' := Apply(s, step);
            && subject in s'.principals && SameButClaims(s.principals[subject], s'.principals[subject])
            && r < |s'.requests| && (s'.requests[r].Claimed? ==> s'.requests[r] == s.requests[r])
  {
  }

  lemma {:induction false} PendingRun(s: State, run: seq<Step>, subject: string, r: nat)
    requires ValidRun(s, run) && subject in s.principals && r < |s.requests|
    ensures var s' := Exec(s, run);
            && subject in s'.principals && SameButClaims(s.principals[subject], s'.principals[subject])
            && r < |s'.requests| && (s'.requests[r].Claimed? ==> s'.requests[r] == s.requests[r])
    decreases |run|
  {
    if run == [] {
    } else {
      PendingStep(s, run[0], subject, r);
      PendingRun(Apply(s, run[0]), run[1..], subject, r);
    }
  }

  /**
   A request authenticated by session in `s` restores the row it read there: whatever other requests
   and logins did to that row in between, the upsert leaves it as in `s` except for updated_at.
   */
  lemma SessionAuthRestoresRow(
      start: Time, before: seq<Step>, token: string, subject: string, between: seq<Step>, id: Id)
    requires ValidRun(Initial(start), before)
    requires var s := Exec(Initial(start), before);
             && Enabled(s, SessionRequest(token, subject))
             && ValidRun(Apply(s, SessionRequest(token, subject)), between)
             && Enabled(Exec(Apply(s, SessionRequest(token, subject)), between), ResolveRequest(|s.requests|, id))
    ensures var s := Exec(Initial(start), before);
            var s' := Exec(Apply(s, SessionRequest(token, subject)), between);
            Apply(s', ResolveRequest(|s.requests|, id)).principals ==
            s'.principals[subject := s.principals[subject].(updatedAt := s'.now)]
  {
    var s := Exec(Initial(start), before);
    StableBijection(Initial(start), before);
    PendingRun(Apply(s, SessionRequest(token, subject)), between, subject, |s.requests|);
    var s' := Exec(Apply(s, SessionRequest(token, subject)), between);
    var claims := StoredClaims(s.principals, subject);
    assert s'.requests[|s.requests|].claims == claims;
    assert NullIf(claims.email) == s.principals[subject].email;
    assert Upsert(s'.principals, claims, id, s'.now)[subject] == s.principals[subject].(updatedAt := s'.now);
  }

  /** No step of the run upserts `subject`. */
  predicate Quiet(s: State, run: seq<Step>, subject: string)
    requires ValidRun(s, run)
    decreases |run|
  {
    run != [] ==>
      && (Upserted(s, run[0]).Some? ==> Upserted(s, run[0]).value.0.subject != subject)
      && Quiet(Apply(s, run[0]), run[1..], subject)
  }

  lemma {:induction false} QuietKeepsRow(s: State, run: seq<Step>, subject: string)
    requires ValidRun(s, run) && Quiet(s, run, subject) && subject in s.principals
    ensures subject in Exec(s, run).principals && Exec(s, run).principals[subject] == s.principals[subject]
    decreases |run|
  {
    if run == [] {
    } else {
      OnlyUpserts(s, run[0]);
      QuietKeepsRow(Apply(s, run[0]), run[1..], subject);
    }
  }

  /** Hence, if no upsert of that subject intervenes, the request changes updated_at and nothing else. */
  lemma SessionAuthKeepsRow(
      start: Time, before: seq<Step>, token: string, subject: string, between: seq<Step>, id: Id)
    requires ValidRun(Initial(start), before)
    requires var s := Exec(Initial(start), before);
             && Enabled(s, SessionRequest(token, subject))
             && ValidRun(Apply(s, SessionRequest(token, subject)), between)
             && Quiet(Apply(s, SessionRequest(token, subject)), between, subject)
             && Enabled(Exec(Apply(s, SessionRequest(token, subject)), between), ResolveRequest(|s.requests|, id))
    ensures var s := Exec(Initial(start), before);
            var s' := Exec(Apply(s, SessionRequest(token, subject)), between);
            && subject in s'.principals
            && Apply(s', ResolveRequest(|s.requests|, id)).principals ==
               s'.principals[subject := s'.principals[subject].(updatedAt := s'.now)]
  {
    SessionAuthRestoresRow(start, before, token, subject, between, id);
    QuietKeepsRow(Apply(Exec(Initial(start), before), SessionRequest(token, subject)), between, subject);
  }

  lemma Prepend(s: State, step: Step, rest: seq<Step>)
    requires Enabled(s, step) && ValidRun(Apply(s, step), rest)
    ensures ValidRun(s, [step] + rest) && Exec(s, [step] + rest) == Exec(Apply(s, step), rest)
  {
    assert ([step] + rest)[1..] == rest;
  }

  lemma {:induction false} Append(s: State, run: seq<Step>, step: Step)
    requires ValidRun(s, run) && Enabled(Exec(s, run), step)
    ensures ValidRun(s, run + [step]) && Exec(s, run + [step]) == Apply(Exec(s, run), step)
    decreases |run|
  {
    if run == [] {
      assert [] + [step] == [step] && [step][1..] == [];
    } else {
      assert (run + [step])[0] == run[0] && (run + [step])[1..] == run[1..] + [step];
      Append(Apply(s, run[0]), run[1..], step);
    }
  }

  /** A bearer request with new claims for a stored subject, resolved at once. */
  lemma Rename(s: State, claims: Claims) returns (run: seq<Step>)
    requires claims.subject in s.principals && claims.subject != "" && claims.displayName != ""
    ensures ValidRun(s, run) && BearerRequest(claims) in run && Exec(s, run).now == s.now
    ensures var rs := Exec(s, run).requests;
            |rs| == |s.requests| + 1 && rs[..|s.requests|] == s.requests && rs[|s.requests|].Known?
    ensures var ps := Exec(s, run).principals;
            && claims.subject in ps && ps == s.principals[claims.subject := ps[claims.subject]]
            && ps[claims.subject].displayName == claims.displayName
  {
    var id := FreshId(s.issued);
    var ask, write := BearerRequest(claims), ResolveRequest(|s.requests|, id);
    Prepend(Apply(s, ask), write, []);
    Prepend(s, ask, [write] + []);
    run := [ask] + ([write] + []);
  }

  /**
   The condition matters: a rename by a bearer request that falls between the session's read and its
   write is lost. Both requests complete, and the stored claims are those from before the rename.
   */
  lemma RenameLost(start: Time, before: seq<Step>, token: string, renamed: Claims) returns (run: seq<Step>)
    requires ValidRun(Initial(start), before) && renamed.subject != "" && renamed.displayName != ""
    requires Accepted(Exec(Initial(start), before), token, renamed.subject)
    ensures var s := Exec(Initial(start), before);
            && ValidRun(s, run) && BearerRequest(renamed) in run && var s' := Exec(s, run);
            && |s'.requests| == |s.requests| + 2
            && s'.requests[|s.requests|].Known? && s'.requests[|s.requests| + 1].Known?
            && s'.principals == s.principals[renamed.subject := s.principals[renamed.subject].(updatedAt := s.now)]
  {
    var s := Exec(Initial(start), before);
    var ask := SessionRequest(token, renamed.subject);
    var s1 := Apply(s, ask);
    var between := Rename(s1, renamed);
    var s2 := Exec(s1, between);
    assert s2.requests[|s.requests|] == s1.requests[|s.requests|];
    var id := FreshId(s2.issued);
    var restore := ResolveRequest(|s.requests|, id);
    SessionAuthRestoresRow(start, before, token, renamed.subject, between, id);
    Append(s1, between, restore);
    Prepend(s, ask, between + [restore]);
    run := [ask] + (between + [restore]);
  }
}
