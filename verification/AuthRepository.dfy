/** The auth repository as an object whose methods update its tables, with database faults as inputs. */
module AuthRepository {
  import opened Prelude
  import opened Schema
  import opened Identity
  import opened Permissions
  import opened Identifiers
  import L = LoginProtocol

  // ----- Reading memberships -----

  /** Insertion keeping created_at order, at position `i`; rows with equal times may come in any order. */
  method InsertByTime(rows: seq<Membership>, row: Membership) returns (i: nat, r: seq<Membership>)
    requires ByTime(rows)
    ensures i <= |rows| && r == rows[..i] + [row] + rows[i..] && ByTime(r)
  {
    i := 0;
    while i < |rows| && rows[i].createdAt <= row.createdAt
      invariant i <= |rows| && forall j :: 0 <= j < i ==> rows[j].createdAt <= row.createdAt
    {
      i := i + 1;
    }
    r := rows[..i] + [row] + rows[i..];
  }

  /** `rows[i]` is the row stored under `ids[i]`, and no identifier is listed twice. */
  ghost predicate Lists(ids: seq<Id>, rows: seq<Membership>, memberships: map<Id, Membership>) {
    && |ids| == |rows|
    && (forall i :: 0 <= i < |ids| ==> ids[i] in memberships && memberships[ids[i]] == rows[i])
    && (forall i, j :: 0 <= i < j < |ids| ==> ids[i] != ids[j])
  }

  lemma ListsInsert(
      ids: seq<Id>, rows: seq<Membership>, memberships: map<Id, Membership>, i: nat, m: Id, rows': seq<Membership>)
    requires Lists(ids, rows, memberships) && i <= |ids| && m in memberships && m !in ids
    requires rows' == rows[..i] + [memberships[m]] + rows[i..]
    ensures Lists(ids[..i] + [m] + ids[i..], rows', memberships)
    ensures forall n :: n in ids[..i] + [m] + ids[i..] <==> n in ids || n == m
  {
    assert ids == ids[..i] + ids[i..];
  }

  /** SELECT ... FROM memberships WHERE principal_id ORDER BY created_at: each row of the principal once. */
  method QueryMemberships(memberships: map<Id, Membership>, principal: Id)
    returns (rows: seq<Membership>, ghost ids: seq<Id>)
    ensures ByTime(rows) && Lists(ids, rows, memberships)
    ensures forall m :: m in ids <==> m in memberships && memberships[m].principal == principal
    ensures RowsOf(rows, memberships, principal)
  {
    rows, ids := [], [];
    var rest := memberships.Keys;
    while rest != {}
      invariant rest <= memberships.Keys && ByTime(rows) && Lists(ids, rows, memberships)
      invariant forall m :: m in ids <==> m in memberships && m !in rest && memberships[m].principal == principal
      decreases rest
    {
      var m :| m in rest;
      rest := rest - {m};
      if memberships[m].principal == principal {
        var i, inserted := InsertByTime(rows, memberships[m]);
        ListsInsert(ids, rows, memberships, i, m, inserted);
        rows, ids := inserted, ids[..i] + [m] + ids[i..];
      }
    }
    ListsRows(ids, rows, memberships, principal);
  }

  lemma ListsRows(ids: seq<Id>, rows: seq<Membership>, memberships: map<Id, Membership>, principal: Id)
    requires Lists(ids, rows, memberships)
    requires forall m :: m in ids <==> m in memberships && memberships[m].principal == principal
    ensures RowsOf(rows, memberships, principal)
  {
    forall r | r in rows ensures exists m :: m in memberships && memberships[m] == r && r.principal == principal {
      var i :| 0 <= i < |rows| && rows[i] == r;
      assert ids[i] in ids && memberships[ids[i]] == r;
    }
    forall m | m in memberships && memberships[m].principal == principal ensures memberships[m] in rows {
      var i :| 0 <= i < |ids| && ids[i] == m;
      assert rows[i] == memberships[m];
    }
  }

  /** Some membership of `principal` is restricted to site `s`. */
  ghost predicate Restricted(memberships: map<Id, Membership>, principal: Id, s: Id) {
    s != "" && exists m :: m in memberships && memberships[m].principal == principal && memberships[m].site == Some(s)
  }

  /** `organization` is that of the principal's earliest membership; it is empty when there is none. */
  ghost predicate Earliest(memberships: map<Id, Membership>, principal: Id, organization: Id) {
    if organization == "" then
      forall m :: m in memberships && memberships[m].principal == principal ==> memberships[m].organization == ""
    else
      exists m :: m in memberships && Precedes(memberships, principal, memberships[m])
        && memberships[m].organization == organization
  }

  ghost predicate Precedes(memberships: map<Id, Membership>, principal: Id, row: Membership) {
    && row.principal == principal
    && forall n :: n in memberships && memberships[n].principal == principal && memberships[n].organization != "" ==>
         row.createdAt <= memberships[n].createdAt
  }

  /** What the caller gets: identity, permissions, sites and organization under the memberships read. */
  ghost predicate Describes(p: Principal, id: Id, claims: Claims, memberships: map<Id, Membership>, bootstrap: bool) {
    && p.id == id && p.subject == claims.subject && p.displayName == claims.displayName
    && Entitled(p.permissions, memberships, id, bootstrap)
    && Increasing(p.Sites()) && (forall s :: s in p.Sites() <==> Restricted(memberships, id, s))
    && (p.sites.None? <==> p.Sites() == [])
    && Earliest(memberships, id, p.organization)
  }

  lemma AssembledDescribes(
      p: Principal, claims: Claims, memberships: map<Id, Membership>, rows: seq<Membership>, bootstrap: bool)
    requires Assembled(p, rows, bootstrap) && p.organization == FirstOrganization(rows)
    requires p.subject == claims.subject && p.displayName == claims.displayName
    requires ByTime(rows) && RowsOf(rows, memberships, p.id)
    ensures Describes(p, p.id, claims, memberships, bootstrap)
  {
    AssembledHolds(p, memberships, rows, p.id, bootstrap);
    HoldsExactly(memberships, p.id, bootstrap);
    forall s ensures s in p.Sites() <==> Restricted(memberships, p.id, s) {
      if Restricted(memberships, p.id, s) {
        var m :| m in memberships && memberships[m].principal == p.id && memberships[m].site == Some(s);
        assert memberships[m] in rows;
      }
    }
    FirstIsEarliest(rows);
    if p.organization != "" {
      var r :| r in rows && r.organization == p.organization
        && forall q :: q in rows && q.organization != "" ==> r.createdAt <= q.createdAt;
      var m :| m in memberships && memberships[m] == r;
      assert Precedes(memberships, p.id, memberships[m]);
    }
  }

  // ----- The writing statements -----

  datatype AuthTables = AuthTables(principals: Principals, flows: map<string, Flow>, sessions: map<string, Session>)

  datatype Statement =
    | InsertFlow(state: string, flow: Flow)
    | DeleteFlow(state: string)
    | UpsertPrincipal(claims: Claims, id: Id, now: Time)
    | InsertSession(token: string, session: Session)
    | StampRevoked(token: string, now: Time)

  /** An INSERT under a taken key fails and changes nothing. */
  function Execute(t: AuthTables, statement: Statement): AuthTables {
    match statement
    case InsertFlow(state, flow) => if state in t.flows then t else t.(flows := t.flows[state := flow])
    case DeleteFlow(state) => t.(flows := t.flows - {state})
    case UpsertPrincipal(claims, id, now) => t.(principals := Upsert(t.principals, claims, id, now))
    case InsertSession(token, session) =>
      if token in t.sessions then t else t.(sessions := t.sessions[token := session])
    case StampRevoked(token, now) => t.(sessions := Revoke(t.sessions, token, now))
  }

  /** The flow that ConsumeFlow hands to its caller. */
  function Unexpired(flows: map<string, Flow>, state: string, now: Time): Option<Flow> {
    if state in flows && now < flows[state].expiresAt then Some(flows[state]) else None
  }

  class Repository {
    var principals: Principals
    var flows: map<string, Flow>
    var sessions: map<string, Session>
    const generator: Generator

    constructor (generator: Generator)
      ensures Contents() == AuthTables(map[], map[], map[]) && this.generator == generator
    {
      principals, flows, sessions := map[], map[], map[];
      this.generator := generator;
    }

    ghost predicate Valid()
      reads this, generator
    {
      && PrincipalsOk(principals) && "" !in principals
      && forall a :: a in principals ==> principals[a].id in generator.issued
    }

    ghost function Contents(): AuthTables
      reads this
    {
      AuthTables(principals, flows, sessions)
    }

    method SaveFlow(state: string, flow: Flow, ending: Ending) returns (ok: bool)
      modifies this`flows
      ensures ok <==> ending == Delivered && state !in old(flows)
      ensures Contents() == if ending == Refused then old(Contents())
                            else Execute(old(Contents()), InsertFlow(state, flow))
    {
      var taken := state in flows;
      if ending != Refused && !taken {
        flows := flows[state := flow];
      }
      ok := ending == Delivered && !taken;
    }

    /** The row goes whether or not it has expired or the reply arrives; only an unexpired flow is returned. */
    method ConsumeFlow(state: string, now: Time, ending: Ending) returns (flow: Option<Flow>)
      modifies this`flows
      ensures Contents() == if ending == Refused then old(Contents()) else Execute(old(Contents()), DeleteFlow(state))
      ensures flow == if ending == Delivered then Unexpired(old(flows), state, now) else None
    {
      if ending == Refused || state !in flows {
        return None;
      }
      var row := flows[state];
      flows := flows - {state};
      flow := if ending == Delivered && now < row.expiresAt then Some(row) else None;
    }

    /** `id` is the identifier drawn for the upsert; the membership query may fail after the upsert took effect. */
    method ResolvePrincipal(
        claims: Claims, bootstrapSubjects: set<string>, memberships: map<Id, Membership>, now: Time,
        upsert: Ending, queryFails: bool)
      returns (p: Option<Principal>, ghost id: Id)
      requires Valid()
      modifies this`principals, generator
      ensures Valid() && SameIds(old(principals), principals)
      ensures claims.subject == "" || upsert == Refused ==> Contents() == old(Contents())
      ensures claims.subject != "" && upsert != Refused ==>
                && id != "" && id !in old(generator.issued)
                && Contents() == Execute(old(Contents()), UpsertPrincipal(claims, id, now))
      ensures p.Some? <==> claims.subject != "" && upsert == Delivered && !queryFails
      ensures p.Some? ==>
                && claims.subject in principals
                && Describes(p.value, principals[claims.subject].id, claims, memberships,
                             claims.subject in bootstrapSubjects)
    {
      id := "";
      if claims.subject == "" {
        return None, id;
      }
      var drawn := generator.New();
      id := drawn;
      if upsert == Refused {
        return None, id;
      }
      UpsertOk(principals, claims, drawn, now);
      principals := Upsert(principals, claims, drawn, now);
      if upsert == Lost || queryFails {
        return None, id;
      }
      var principalId := principals[claims.subject].id;
      var rows, _ := QueryMemberships(memberships, principalId);
      var bootstrap := claims.subject in bootstrapSubjects;
      var principal := Assemble(principalId, claims.subject, claims.displayName, rows, bootstrap);
      AssembledDescribes(principal, claims, memberships, rows, bootstrap);
      p := Some(principal);
    }

    method CreateSession(token: string, principal: Id, expiresAt: Time, now: Time, ending: Ending) returns (ok: bool)
      modifies this`sessions
      ensures ok <==> ending == Delivered && token !in old(sessions)
      ensures Contents() == if ending == Refused then old(Contents())
                            else Execute(old(Contents()),
                                         InsertSession(token, Session(principal, expiresAt, now, now, None)))
    {
      var taken := token in sessions;
      if ending != Refused && !taken {
        sessions := sessions[token := Session(principal, expiresAt, now, now, None)];
      }
      ok := ending == Delivered && !taken;
    }

    /** Accepts exactly the live sessions, and leaves every principal row as it was except for updated_at. */
    method PrincipalForSession(
        token: string, bootstrapSubjects: set<string>, memberships: map<Id, Membership>, now: Time,
        loadFails: bool, upsert: Ending, queryFails: bool)
      returns (p: Option<Principal>)
      requires Valid()
      modifies this`principals, generator
      ensures Valid()
      ensures p.Some? <==> && !loadFails && upsert == Delivered && !queryFails
                           && exists a :: Authenticates(old(principals), sessions, token, now, a)
      ensures forall a :: Authenticates(old(principals), sessions, token, now, a) ==>
                principals == if loadFails || upsert == Refused then old(principals)
                              else old(principals)[a := old(principals)[a].(updatedAt := now)]
      ensures (forall a :: !Authenticates(old(principals), sessions, token, now, a)) ==> principals == old(principals)
      ensures p.Some? ==>
                && Authenticates(old(principals), sessions, token, now, p.value.subject)
                && Describes(p.value, principals[p.value.subject].id, StoredClaims(old(principals), p.value.subject),
                             memberships, p.value.subject in bootstrapSubjects)
    {
      var found: set<string> := {};
      if token in sessions && sessions[token].revokedAt.None? && now < sessions[token].expiresAt {
        var owner := sessions[token].principal;
        found := set a | a in principals && principals[a].id == owner && principals[a].active;
      }
      assert forall a :: Authenticates(principals, sessions, token, now, a) <==> a in found;
      if loadFails || found == {} {
        return None;
      }
      var subject :| subject in found;
      ghost var before := principals;
      assert forall a :: a in found ==> a == subject;
      ghost var id;
      var claims := StoredClaims(principals, subject);
      p, id := ResolvePrincipal(claims, bootstrapSubjects, memberships, now, upsert, queryFails);
      SessionUpsertIsIdentity(before, subject, id, now);
    }

    method RevokeSession(token: string, now: Time, ending: Ending) returns (ok: bool)
      modifies this`sessions
      ensures ok <==> ending == Delivered
      ensures Contents() == if ending == Refused then old(Contents())
                            else Execute(old(Contents()), StampRevoked(token, now))
    {
      if ending != Refused && token in sessions && sessions[token].revokedAt.None? {
        sessions := sessions[token := sessions[token].(revokedAt := Some(now))];
      }
      ok := ending == Delivered;
    }
  }

  // ----- The login system runs on these statements -----

  /** The tables of the login system, as the repository stores them. */
  function TablesOf(s: L.State): AuthTables {
    AuthTables(s.principals, map state | state in s.flows :: s.flows[state].flow, s.sessions)
  }

  /** The statement a step of the login system executes, if any. */
  function StatementOf(s: L.State, step: L.Step): seq<Statement>
    requires L.Enabled(s, step)
  {
    match step
    case SaveFlow(state, flow) => [InsertFlow(state, flow)]
    case RevokeSession(token) => [StampRevoked(token, s.now)]
    case ResolveRequest(r, id) => [UpsertPrincipal(s.requests[r].claims, id, s.now)]
    case Continue(c, Consume) => [DeleteFlow(s.callbacks[c].state)]
    case Continue(c, Resolve(id)) => [UpsertPrincipal(s.callbacks[c].pc.claims, id, s.now)]
    case Continue(c, CreateSession) =>
      var pc := s.callbacks[c].pc;
      [InsertSession(pc.token, Session(pc.principal, pc.expiresAt, s.now, s.now, None))]
    case _ => []
  }

  function StatementsOf(s: L.State, run: seq<L.Step>): seq<Statement>
    requires L.ValidRun(s, run)
    decreases |run|
  {
    if run == [] then [] else StatementOf(s, run[0]) + StatementsOf(L.Apply(s, run[0]), run[1..])
  }

  function ExecuteAll(t: AuthTables, statements: seq<Statement>): AuthTables
    decreases |statements|
  {
    if statements == [] then t else ExecuteAll(Execute(t, statements[0]), statements[1..])
  }

  lemma ActExecutes(s: L.State, c: nat, act: L.Act)
    requires c < |s.callbacks| && L.CanAct(s, s.callbacks[c], act)
    ensures var statements := StatementOf(s, L.Continue(c, act));
            TablesOf(L.Effect(s, c, s.callbacks[c], act)) ==
            if statements == [] then TablesOf(s) else Execute(TablesOf(s), statements[0])
  {
  }

  lemma StepExecutes(s: L.State, step: L.Step)
    requires L.Enabled(s, step)
    ensures |StatementOf(s, step)| <= 1
    ensures TablesOf(L.Apply(s, step)) ==
            if StatementOf(s, step) == [] then TablesOf(s) else Execute(TablesOf(s), StatementOf(s, step)[0])
  {
    if step.Continue? {
      ActExecutes(s, step.c, step.act);
      assert TablesOf(L.Apply(s, step)) == TablesOf(L.Effect(s, step.c, s.callbacks[step.c], step.act));
    }
  }

  /** Any run of the login system is a sequence of repository statements, and nothing else touches the tables. */
  lemma {:induction false} RunExecutes(s: L.State, run: seq<L.Step>)
    requires L.ValidRun(s, run)
    ensures TablesOf(L.Exec(s, run)) == ExecuteAll(TablesOf(s), StatementsOf(s, run))
    decreases |run|
  {
    if run == [] {
    } else {
      StepExecutes(s, run[0]);
      RunExecutes(L.Apply(s, run[0]), run[1..]);
      var first, rest := StatementOf(s, run[0]), StatementsOf(L.Apply(s, run[0]), run[1..]);
      if first == [] {
        assert first + rest == rest;
      } else {
        assert (first + rest)[0] == first[0] && (first + rest)[1..] == rest;
      }
    }
  }

  lemma {:induction false} CallbackWaits(s: L.State, run: seq<L.Step>, c: nat)
    requires L.ValidRun(s, run) && c < |s.callbacks|
    requires forall i :: 0 <= i < |run| && run[i].Continue? ==> run[i].c != c
    ensures c < |L.Exec(s, run).callbacks| && L.Exec(s, run).callbacks[c] == s.callbacks[c]
    decreases |run|
  {
    if run == [] {
    } else {
      assert L.Apply(s, run[0]).callbacks[c] == s.callbacks[c];
      CallbackWaits(L.Apply(s, run[0]), run[1..], c);
    }
  }

  /**
   A callback's DELETE and its later expiry check, with anything in between, let it through exactly when
   ConsumeFlow returns a flow, and it then holds that flow.
   */
  lemma ConsumeAgrees(s: L.State, c: nat, run: seq<L.Step>)
    requires L.Enabled(s, L.Continue(c, L.Consume)) && L.ValidRun(L.Apply(s, L.Continue(c, L.Consume)), run)
    requires forall i :: 0 <= i < |run| && run[i].Continue? ==> run[i].c != c
    ensures var s' := L.Exec(L.Apply(s, L.Continue(c, L.Consume)), run);
            var flow := Unexpired(TablesOf(s).flows, s.callbacks[c].state, s'.now);
            if L.Enabled(s', L.Continue(c, L.CheckExpiry))
            then
              var cb := L.Apply(s', L.Continue(c, L.CheckExpiry)).callbacks[c];
              (cb.pc.Checked? <==> flow.Some?) && (flow.Some? ==> cb.row.Some? && cb.row.value.flow == flow.value)
            else c < |s'.callbacks| && s'.callbacks[c].pc.Rejected? && flow.None?
  {
    CallbackWaits(L.Apply(s, L.Continue(c, L.Consume)), run, c);
  }
}
