/**
 The login system and organization creation together: permissions come from memberships, memberships
 are written by creations, creations are admitted by permissions.
 */
module Platform {
  import opened Prelude
  import opened Text
  import opened Schema
  import opened Identity
  import opened Permissions
  import opened OrganizationDomain
  import C = CreateProtocol
  import E = ExactlyOnce
  import L = LoginProtocol
  import G = Progress
  import S = SiteReader

  /** `grants` are the permissions each resolved request was given. */
  datatype World = World(login: L.State, store: C.State, grants: map<nat, set<Permission>>)

  function Initial(start: Time): World {
    World(L.Initial(start), C.INITIAL, map[])
  }

  datatype Step =
    | People(login: L.Step)
    | Database(store: C.Step)
    | ReadMemberships(r: nat, bootstrap: set<string>)     // the bootstrap subjects of the serving process
    | Submit(r: nat, rawKey: string, name: string, hash: Bytes, now: Time)

  predicate IsKnown(w: World, r: nat) { r < |w.login.requests| && w.login.requests[r].Known? }

  ghost predicate Enabled(w: World, step: Step) {
    match step
    case People(l) => L.Enabled(w.login, l)
    case Database(c) => !c.Start? && C.Enabled(w.store, c)
    case ReadMemberships(r, _) => IsKnown(w, r)
    case Submit(r, _, _, _, _) => IsKnown(w, r) && r in w.grants
  }

  function Gated(w: World, step: Step): (Option<Error>, Call)
    requires step.Submit? && IsKnown(w, step.r) && step.r in w.grants
  {
    Gate(OrganizationCreate in w.grants[step.r], w.login.requests[step.r].principal, step.rawKey, step.name, step.hash)
  }

  function PermissionsNow(w: World, r: nat, bootstrap: set<string>): set<Permission>
    requires IsKnown(w, r)
  {
    var q := w.login.requests[r];
    Holds(w.store.db.memberships, q.principal, q.subject in bootstrap)
  }

  ghost function Apply(w: World, step: Step): World
    requires Enabled(w, step)
  {
    match step
    case People(l) => w.(login := L.Apply(w.login, l))
    case Database(c) => w.(store := C.Apply(w.store, c))
    case ReadMemberships(r, bootstrap) => w.(grants := w.grants[r := PermissionsNow(w, r, bootstrap)])
    case Submit(r, _, _, _, now) =>
      if Gated(w, step).0.Some? then w
      else w.(store := C.Apply(w.store, C.Start(Gated(w, step).1, now)))
  }

  ghost predicate ValidRun(w: World, run: seq<Step>)
    decreases |run|
  {
    run != [] ==> Enabled(w, run[0]) && ValidRun(Apply(w, run[0]), run[1..])
  }

  ghost function Exec(w: World, run: seq<Step>): World
    requires ValidRun(w, run)
    decreases |run|
  {
    if run == [] then w else Exec(Apply(w, run[0]), run[1..])
  }

  /** No process of the run is configured with bootstrap subjects outside `b`. */
  predicate Within(b: set<string>, run: seq<Step>) {
    forall i :: 0 <= i < |run| && run[i].ReadMemberships? ==> run[i].bootstrap <= b
  }

  // ----- The joint invariant -----

  /** `id` is the identifier of a stored bootstrap subject. */
  ghost predicate Trusted(ps: Principals, b: set<string>, id: Id) {
    exists a :: a in ps && a in b && ps[a].id == id
  }

  ghost predicate MembersTrusted(b: set<string>, ps: Principals, db: Tables) {
    forall m :: m in db.memberships ==> Trusted(ps, b, db.memberships[m].principal)
  }

  ghost predicate CallersTrusted(b: set<string>, ps: Principals, txs: seq<C.Tx>) {
    forall t :: 0 <= t < |txs| ==> Trusted(ps, b, txs[t].call.principal)
  }

  ghost predicate GrantsTrusted(b: set<string>, w: World) {
    forall r :: r in w.grants ==> IsKnown(w, r) && (w.grants[r] != {} ==> w.login.requests[r].subject in b)
  }

  ghost predicate StoreInv(s: C.State) {
    C.Inv(s) && E.OneToOne(s.db) && RowsChecked(s.db)
  }

  ghost predicate TrustInv(b: set<string>, w: World) {
    && MembersTrusted(b, w.login.principals, w.store.db)
    && CallersTrusted(b, w.login.principals, w.store.txs)
    && GrantsTrusted(b, w)
  }

  /** The key went through the gate. */
  predicate KeyAdmitted(k: Key) { k.scope == CreateOrganizationV1 && 8 <= ByteLen(k.key) <= 200 }

  ghost predicate AllAdmitted(s: C.State) {
    && (forall t :: 0 <= t < |s.txs| ==> KeyAdmitted(s.txs[t].call.Key()))
    && (forall k :: k in s.db.keys ==> KeyAdmitted(k))
  }

  /** What holds whoever the bootstrap subjects are. */
  ghost predicate PlainInv(w: World) {
    L.PeopleOk(w.login) && StoreInv(w.store) && AllAdmitted(w.store)
  }

  ghost predicate Inv(b: set<string>, w: World) {
    PlainInv(w) && TrustInv(b, w)
  }

  lemma RowsCheckedStep(s: C.State, step: C.Step)
    requires C.Inv(s) && RowsChecked(s.db) && C.Enabled(s, step)
    ensures RowsChecked(C.Apply(s, step).db)
  {
    if step.Commit? {
      var tx := s.txs[step.t];
      assert C.TxOk(s.db, tx);
      if !tx.pc.replay { RowPassesChecks(tx.ids[0], tx.call.name, tx.now); }
    }
  }

  lemma StoreStep(s: C.State, step: C.Step)
    requires StoreInv(s) && C.Enabled(s, step)
    ensures StoreInv(C.Apply(s, step)) && Extends(s.db, C.Apply(s, step).db)
  {
    C.StepInv(s, step);
    E.StepOneToOne(s, step);
    RowsCheckedStep(s, step);
  }

  lemma TrustedKept(ps: Principals, ps': Principals, b: set<string>, id: Id)
    requires SameIds(ps, ps') && Trusted(ps, b, id)
    ensures Trusted(ps', b, id)
  {
    var a :| a in ps && a in b && ps[a].id == id;
    assert a in ps' && ps'[a].id == id;
  }

  lemma PeopleTrust(b: set<string>, w: World, l: L.Step)
    requires L.PeopleOk(w.login) && TrustInv(b, w) && L.Enabled(w.login, l)
    ensures TrustInv(b, Apply(w, People(l)))
  {
    L.PeopleStep(w.login, l);
    var ps, ps' := w.login.principals, L.Apply(w.login, l).principals;
    forall m | m in w.store.db.memberships ensures Trusted(ps', b, w.store.db.memberships[m].principal) {
      TrustedKept(ps, ps', b, w.store.db.memberships[m].principal);
    }
    forall t | 0 <= t < |w.store.txs| ensures Trusted(ps', b, w.store.txs[t].call.principal) {
      TrustedKept(ps, ps', b, w.store.txs[t].call.principal);
    }
    KnownStays(w.login, l);
  }

  lemma KnownStays(s: L.State, l: L.Step)
    requires L.Enabled(s, l)
    ensures |s.requests| <= |L.Apply(s, l).requests|
    ensures forall r :: 0 <= r < |s.requests| && s.requests[r].Known? ==> L.Apply(s, l).requests[r] == s.requests[r]
  {
  }

  /** A store step adds at most the key and membership of the committing caller, and keeps every call. */
  lemma StoreRows(s: C.State, step: C.Step)
    requires C.AllOk(s) && C.Enabled(s, step) && !step.Start?
    ensures var s' := C.Apply(s, step);
            && |s'.txs| == |s.txs|
            && (forall t :: 0 <= t < |s.txs| ==> s'.txs[t].call == s.txs[t].call)
            && (forall m :: m in s'.db.memberships ==>
                  (m in s.db.memberships && s'.db.memberships[m] == s.db.memberships[m])
                  || s'.db.memberships[m].principal == s.txs[step.t].call.principal)
            && (forall k :: k in s'.db.keys ==> k in s.db.keys || k == s.txs[step.t].call.Key())
  {
    assert C.TxOk(s.db, s.txs[step.t]);
    assert C.Advance(s, step).call == s.txs[step.t].call;
  }

  lemma DatabaseTrust(b: set<string>, w: World, c: C.Step)
    requires C.AllOk(w.store) && TrustInv(b, w) && !c.Start? && C.Enabled(w.store, c)
    ensures TrustInv(b, Apply(w, Database(c)))
  {
    StoreRows(w.store, c);
  }

  lemma AdmittedStep(w: World, step: Step)
    requires C.AllOk(w.store) && AllAdmitted(w.store) && Enabled(w, step)
    ensures AllAdmitted(Apply(w, step).store)
  {
    if step.Database? { StoreRows(w.store, step.store); }
  }

  /** Holding any permission takes a bootstrap subject or a membership of one's own. */
  lemma HoldersTrusted(b: set<string>, w: World, r: nat, bootstrap: set<string>)
    requires L.PeopleOk(w.login) && TrustInv(b, w)
    requires IsKnown(w, r) && bootstrap <= b && PermissionsNow(w, r, bootstrap) != {}
    ensures w.login.requests[r].subject in b
  {
    var q := w.login.requests[r];
    assert L.RequestOk(w.login.principals, q);
    if q.subject !in bootstrap {
      var p :| p in PermissionsNow(w, r, bootstrap);
      var m :| m in w.store.db.memberships && w.store.db.memberships[m].principal == q.principal;
      assert Trusted(w.login.principals, b, q.principal);
      var a :| a in w.login.principals && a in b && w.login.principals[a].id == q.principal;
      assert a == q.subject;
    }
  }

  lemma SubmitTrust(b: set<string>, w: World, step: Step)
    requires L.PeopleOk(w.login) && TrustInv(b, w) && Enabled(w, step) && step.Submit?
    ensures TrustInv(b, Apply(w, step))
  {
    if Gated(w, step).0.None? {
      var q := w.login.requests[step.r];
      assert L.RequestOk(w.login.principals, q);
      assert q.subject in b;
      assert Trusted(w.login.principals, b, q.principal);
    }
  }

  /** What a joint step does to the store: one step of it, or nothing. */
  ghost function StoreSteps(w: World, step: Step): seq<C.Step>
    requires Enabled(w, step)
  {
    if step.Database? then [step.store]
    else if step.Submit? && Gated(w, step).0.None? then [C.Start(Gated(w, step).1, step.now)]
    else []
  }

  lemma StoreAdvances(w: World, step: Step)
    requires Enabled(w, step)
    ensures var d := StoreSteps(w, step);
            && |d| <= 1
            && (d == [] ==> Apply(w, step).store == w.store)
            && (d != [] ==> C.Enabled(w.store, d[0]) && Apply(w, step).store == C.Apply(w.store, d[0]))
  {
  }

  lemma SameExtends(db: Tables)
    ensures Extends(db, db)
  {
  }

  lemma StoreStepOf(w: World, step: Step)
    requires StoreInv(w.store) && Enabled(w, step)
    ensures StoreInv(Apply(w, step).store) && Extends(w.store.db, Apply(w, step).store.db)
  {
    StoreAdvances(w, step);
    var d := StoreSteps(w, step);
    if d == [] {
      SameExtends(w.store.db);
    } else {
      StoreStep(w.store, d[0]);
    }
  }

  lemma PlainStep(w: World, step: Step)
    requires PlainInv(w) && Enabled(w, step)
    ensures PlainInv(Apply(w, step)) && SameIds(w.login.principals, Apply(w, step).login.principals)
    ensures Extends(w.store.db, Apply(w, step).store.db)
  {
    StoreStepOf(w, step);
    AdmittedStep(w, step);
    if step.People? { L.PeopleStep(w.login, step.login); }
  }

  lemma {:induction false} PlainRun(w: World, run: seq<Step>)
    requires PlainInv(w) && ValidRun(w, run)
    ensures PlainInv(Exec(w, run)) && SameIds(w.login.principals, Exec(w, run).login.principals)
    ensures Extends(w.store.db, Exec(w, run).store.db)
    decreases |run|
  {
    if run == [] {
    } else {
      PlainStep(w, run[0]);
      PlainRun(Apply(w, run[0]), run[1..]);
    }
  }

  lemma TrustStep(b: set<string>, w: World, step: Step)
    requires Inv(b, w) && Enabled(w, step) && (step.ReadMemberships? ==> step.bootstrap <= b)
    ensures TrustInv(b, Apply(w, step))
  {
    match step {
      case People(l) => PeopleTrust(b, w, l);
      case Database(c) => DatabaseTrust(b, w, c);
      case ReadMemberships(r, bootstrap) =>
        if PermissionsNow(w, r, bootstrap) != {} { HoldersTrusted(b, w, r, bootstrap); }
      case Submit(_, _, _, _, _) => SubmitTrust(b, w, step);
    }
  }

  lemma {:induction false} RunInv(b: set<string>, w: World, run: seq<Step>)
    requires Inv(b, w) && ValidRun(w, run) && Within(b, run)
    ensures Inv(b, Exec(w, run))
    decreases |run|
  {
    if run == [] {
    } else {
      PlainStep(w, run[0]);
      TrustStep(b, w, run[0]);
      assert Within(b, run[1..]) by { assert forall i :: 0 <= i < |run[1..]| ==> run[1..][i] == run[i + 1]; }
      RunInv(b, Apply(w, run[0]), run[1..]);
    }
  }

  lemma InitialPlain(start: Time)
    ensures PlainInv(Initial(start))
  {
    C.InitialInv();
  }

  lemma InitialInv(b: set<string>, start: Time)
    ensures Inv(b, Initial(start))
  {
    InitialPlain(start);
  }

  // ----- Main results -----

  /**
   Permission provenance: from an empty database, whoever is ever granted a permission, calls the
   store or administers an organization is one of the bootstrap subjects.
   */
  lemma PermissionProvenance(b: set<string>, start: Time, run: seq<Step>)
    requires ValidRun(Initial(start), run) && Within(b, run)
    ensures var w := Exec(Initial(start), run);
            && (forall r :: r in w.grants && w.grants[r] != {} ==> IsKnown(w, r) && w.login.requests[r].subject in b)
            && CallersTrusted(b, w.login.principals, w.store.txs)
            && MembersTrusted(b, w.login.principals, w.store.db)
  {
    InitialInv(b, start);
    RunInv(b, Initial(start), run);
  }

  /** With no bootstrap subject no run ever commits an organization. */
  lemma NoBootstrapNoOrganization(start: Time, run: seq<Step>)
    requires ValidRun(Initial(start), run) && Within({}, run)
    ensures Exec(Initial(start), run).store.db.organizations == map[]
  {
    InitialInv({}, start);
    RunInv({}, Initial(start), run);
    var db := Exec(Initial(start), run).store.db;
    assert forall m :: m !in db.memberships;
    assert E.Bijective(db.memberships, E.MemberOf, db.organizations.Keys);
  }

  lemma Prepend(w: World, step: Step, rest: seq<Step>)
    requires Enabled(w, step) && ValidRun(Apply(w, step), rest)
    ensures ValidRun(w, [step] + rest) && Exec(w, [step] + rest) == Exec(Apply(w, step), rest)
  {
    assert ([step] + rest)[1..] == rest;
  }

  /** Store steps can be taken in the joint system. */
  lemma {:induction false} Lift(w: World, steps: seq<C.Step>) returns (run: seq<Step>)
    requires C.ValidRun(w.store, steps) && forall i :: 0 <= i < |steps| ==> !steps[i].Start?
    ensures ValidRun(w, run) && Exec(w, run).store == C.Exec(w.store, steps)
    ensures forall i :: 0 <= i < |run| ==> run[i].Database?
    decreases |steps|
  {
    if steps == [] {
      run := [];
    } else {
      var rest := Lift(Apply(w, Database(steps[0])), steps[1..]);
      run := [Database(steps[0])] + rest;
      Prepend(w, Database(steps[0]), rest);
    }
  }

  /** One admitted call, left alone, ends with its key committed. */
  lemma AdmittedCallCommits(c: Call, now: Time) returns (steps: seq<C.Step>)
    requires !Blank(c.name)
    ensures var s := C.Apply(C.INITIAL, C.Start(c, now));
            && C.ValidRun(s, steps) && (forall i :: 0 <= i < |steps| ==> !steps[i].Start?)
            && C.Exec(s, steps).db.organizations != map[]
  {
    var s := C.Apply(C.INITIAL, C.Start(c, now));
    C.InitialInv();
    C.StepInv(C.INITIAL, C.Start(c, now));
    steps := G.CanFinish(s);
    var s' := C.Exec(s, steps);
    C.RunInv(s, steps);
    E.CallStays(s, steps, 0);
    G.UnharmedRun(s, steps, 0);
    assert C.TxOk(s'.db, s'.txs[0]);
    assert c.Key() in s'.db.keys;
    E.RunOneToOne(s, steps);
    assert E.RecordsResult(s'.db, c.Key());
  }

  /** A bootstrap subject's first request, up to its grant. */
  lemma FirstGrant(start: Time, claims: Claims) returns (run: seq<Step>)
    requires claims.subject != "" && claims.displayName != ""
    ensures ValidRun(Initial(start), run) && Within({claims.subject}, run)
    ensures var w := Exec(Initial(start), run);
            && w.store == C.INITIAL && IsKnown(w, 0)
            && 0 in w.grants && OrganizationCreate in w.grants[0]
  {
    var id := FreshId({});
    var ask, resolve := People(L.BearerRequest(claims)), People(L.ResolveRequest(0, id));
    var read := ReadMemberships(0, {claims.subject});
    var w1 := Apply(Initial(start), ask);
    var w2 := Apply(w1, resolve);
    assert OrganizationCreate in PermissionsNow(w2, 0, {claims.subject});
    Prepend(w2, read, []);
    Prepend(w1, resolve, [read] + []);
    Prepend(Initial(start), ask, [resolve] + ([read] + []));
    run := [ask] + ([resolve] + ([read] + []));
  }

  lemma {:induction false} Concat(w: World, a: seq<Step>, b: seq<Step>)
    requires ValidRun(w, a) && ValidRun(Exec(w, a), b)
    ensures ValidRun(w, a + b) && Exec(w, a + b) == Exec(Exec(w, a), b)
    decreases |a|
  {
    if a == [] {
      assert a + b == b;
    } else {
      assert (a + b)[0] == a[0] && (a + b)[1..] == a[1..] + b;
      Concat(Apply(w, a[0]), a[1..], b);
    }
  }

  /** Conversely, any one bootstrap subject is enough for some run to commit an organization. */
  lemma BootstrapCanCreate(start: Time, claims: Claims, rawKey: string, name: string, hash: Bytes)
    returns (run: seq<Step>)
    requires claims.subject != "" && claims.displayName != ""
    requires 8 <= ByteLen(TrimSpace(rawKey)) <= 200 && !Blank(name)
    ensures ValidRun(Initial(start), run) && Within({claims.subject}, run)
    ensures Exec(Initial(start), run).store.db.organizations != map[]
  {
    var first := FirstGrant(start, claims);
    var w := Exec(Initial(start), first);
    var submit := Submit(0, rawKey, name, hash, start);
    var steps := AdmittedCallCommits(Gated(w, submit).1, start);
    var rest := Lift(Apply(w, submit), steps);
    Prepend(w, submit, rest);
    Concat(Initial(start), first, [submit] + rest);
    run := first + ([submit] + rest);
  }

  /** The bootstrap subjects of all the processes that served the run. */
  function Bootstraps(run: seq<Step>): set<string> {
    if run == [] then {}
    else (if run[0].ReadMemberships? then run[0].bootstrap else {}) + Bootstraps(run[1..])
  }

  lemma {:induction false} WithinBootstraps(run: seq<Step>)
    ensures Within(Bootstraps(run), run)
  {
    if run == [] {
    } else {
      WithinBootstraps(run[1..]);
      forall i | 0 <= i < |run| && run[i].ReadMemberships? ensures run[i].bootstrap <= Bootstraps(run) {
        if i > 0 { assert run[1..][i - 1] == run[i]; }
      }
    }
  }

  function PrincipalIds(ps: Principals): set<Id> { set a | a in ps :: ps[a].id }

  lemma TrustedId(ps: Principals, b: set<string>, id: Id)
    requires Trusted(ps, b, id)
    ensures id in PrincipalIds(ps)
  {
  }

  ghost predicate IsCreator(db: Tables, principal: Id) { exists k :: k in db.keys && k.principal == principal }

  /** Every committed membership is an organization-wide Administrator's who created that organization. */
  lemma MemberCreated(db: Tables, m: Id)
    requires E.OneToOne(db) && m in db.memberships
    ensures IsCreator(db, db.memberships[m].principal) && db.memberships[m].role == Administrator
    ensures db.memberships[m].site.None? && db.memberships[m].organization in db.organizations
  {
    assert E.MemberOf(db.memberships[m]) in db.organizations.Keys;
    var k :| k in db.keys && E.RecordedId(db.keys[k]) == E.MemberOf(db.memberships[m]);
    assert E.Administers(db, k, m);
  }

  lemma CommittedIntegrity(b: set<string>, sites: set<Id>, w: World)
    requires Inv(b, w)
    ensures Integrity(PrincipalIds(w.login.principals), sites, w.store.db)
  {
    forall m | m in w.store.db.memberships
      ensures w.store.db.memberships[m].principal in PrincipalIds(w.login.principals)
      ensures w.store.db.memberships[m].site.None? && w.store.db.memberships[m].organization in w.store.db.organizations
    {
      TrustedId(w.login.principals, b, w.store.db.memberships[m].principal);
      MemberCreated(w.store.db, m);
    }
  }

  lemma ViewIntegrity(ids: set<Id>, sites: set<Id>, db: Tables, tx: C.Tx)
    requires Integrity(ids, sites, db) && C.TxOk(db, tx) && C.Running(tx) && tx.call.principal in ids
    ensures Integrity(ids, sites, db.Merge(tx.writes))
  {
    if |tx.ids| > 0 { RowPassesChecks(tx.ids[0], tx.call.name, tx.now); }
  }

  /**
   Schema integrity: in every state of every run the committed tables, and what each running
   transaction sees after its own inserts, satisfy all CHECKs and foreign keys, whatever sites exist.
   */
  lemma SchemaIntegrity(start: Time, run: seq<Step>, sites: set<Id>)
    requires ValidRun(Initial(start), run)
    ensures var w := Exec(Initial(start), run);
            && Integrity(PrincipalIds(w.login.principals), sites, w.store.db)
            && forall t :: 0 <= t < |w.store.txs| && C.Running(w.store.txs[t]) ==>
                 Integrity(PrincipalIds(w.login.principals), sites, w.store.db.Merge(w.store.txs[t].writes))
  {
    var b := Bootstraps(run);
    WithinBootstraps(run);
    InitialInv(b, start);
    RunInv(b, Initial(start), run);
    var w := Exec(Initial(start), run);
    CommittedIntegrity(b, sites, w);
    forall t | 0 <= t < |w.store.txs| && C.Running(w.store.txs[t])
      ensures Integrity(PrincipalIds(w.login.principals), sites, w.store.db.Merge(w.store.txs[t].writes))
    {
      TrustedId(w.login.principals, b, w.store.txs[t].call.principal);
      ViewIntegrity(PrincipalIds(w.login.principals), sites, w.store.db, w.store.txs[t]);
    }
  }

  /**
   Nobody can read a site. In every run, whoever's memberships a principal is assembled from, the domain
   rule allows it every site of its organization and yet no lookup returns one, whatever sites exist.
   */
  lemma NobodyReadsSites(
      start: Time, run: seq<Step>, id: Id, rows: seq<Membership>, bootstrap: bool, p: Principal,
      cast: S.Cast, sites: map<Id, S.Site>, siteId: string)
    requires ValidRun(Initial(start), run)
    requires RowsOf(rows, Exec(Initial(start), run).store.db.memberships, id) && Assembled(p, rows, bootstrap)
    ensures forall site :: site != "" && p.organization != "" ==> S.MayAccess(p, p.organization, site)
    ensures !S.Get(cast, sites, p, siteId).Found?
  {
    InitialPlain(start);
    PlainRun(Initial(start), run);
    var db := Exec(Initial(start), run).store.db;
    forall r | r in rows ensures r.site.None? {
      var m :| m in db.memberships && db.memberships[m] == r;
      MemberCreated(db, m);
    }
    S.OrganizationWideReadsNothing(cast, sites, p, rows, bootstrap, siteId);
  }

  // ----- Joint runs seen from the store and from the login system -----

  ghost function StoreRun(w: World, run: seq<Step>): seq<C.Step>
    requires ValidRun(w, run)
    decreases |run|
  {
    if run == [] then [] else StoreSteps(w, run[0]) + StoreRun(Apply(w, run[0]), run[1..])
  }

  /** Every joint run contains a run of the store, so all results about the store hold in it. */
  lemma {:induction false} StoreProjection(w: World, run: seq<Step>)
    requires ValidRun(w, run)
    ensures C.ValidRun(w.store, StoreRun(w, run)) && C.Exec(w.store, StoreRun(w, run)) == Exec(w, run).store
    decreases |run|
  {
    if run == [] {
    } else {
      StoreProjection(Apply(w, run[0]), run[1..]);
      var d, rest := StoreSteps(w, run[0]), StoreRun(Apply(w, run[0]), run[1..]);
      if d != [] {
        assert (d + rest)[0] == d[0] && (d + rest)[1..] == rest;
      } else {
        assert d + rest == rest;
      }
    }
  }

  ghost function LoginRun(w: World, run: seq<Step>): seq<L.Step>
    requires ValidRun(w, run)
    decreases |run|
  {
    if run == [] then []
    else (if run[0].People? then [run[0].login] else []) + LoginRun(Apply(w, run[0]), run[1..])
  }

  /** Likewise for the login system. */
  lemma {:induction false} LoginProjection(w: World, run: seq<Step>)
    requires ValidRun(w, run)
    ensures L.ValidRun(w.login, LoginRun(w, run)) && L.Exec(w.login, LoginRun(w, run)) == Exec(w, run).login
    decreases |run|
  {
    if run == [] {
    } else {
      LoginProjection(Apply(w, run[0]), run[1..]);
      var rest := LoginRun(Apply(w, run[0]), run[1..]);
      if run[0].People? {
        assert ([run[0].login] + rest)[1..] == rest;
      } else {
        assert [] + rest == rest;
      }
    }
  }

  // ----- Retries after the loss of bootstrap status -----

  /** A committed key row comes with its principal's Administrator membership. */
  lemma CreatorAdministers(s: C.State, k: Key) returns (m: Id)
    requires StoreInv(s) && k in s.db.keys
    ensures m in s.db.memberships && s.db.memberships[m].principal == k.principal
    ensures s.db.memberships[m].role == Administrator
  {
    assert E.Bijective(s.db.memberships, E.MemberOf, s.db.organizations.Keys);
    assert E.RecordsResult(s.db, k);
    m :| m in s.db.memberships && E.MemberOf(s.db.memberships[m]) == E.RecordedId(s.db.keys[k]);
    assert E.Administers(s.db, k, m);
  }

  /** Some run leads from `w` to `w'`. */
  ghost predicate Leads(w: World, w': World) {
    exists run :: ValidRun(w, run) && Exec(w, run) == w'
  }

  /** What any later world still has of an earlier reachable one. */
  lemma Later(start: Time, w: World, w': World)
    requires Leads(Initial(start), w) && Leads(w, w')
    ensures PlainInv(w')
    ensures SameIds(w.login.principals, w'.login.principals) && Extends(w.store.db, w'.store.db)
  {
    var r1 :| ValidRun(Initial(start), r1) && Exec(Initial(start), r1) == w;
    var r2 :| ValidRun(w, r2) && Exec(w, r2) == w';
    InitialPlain(start);
    PlainRun(Initial(start), r1);
    PlainRun(w, r2);
  }

  /** Every permission there is. */
  const EVERYTHING: set<Permission> := {OrganizationCreate, WorkflowReview, WorkflowPublish, ReportApprove}

  /** An Administrator membership gives every permission. */
  lemma AdministratorHolds(memberships: map<Id, Membership>, m: Id, bootstrap: bool)
    requires m in memberships && memberships[m].role == Administrator
    ensures Holds(memberships, memberships[m].principal, bootstrap) == EVERYTHING
  {
    HoldsExactly(memberships, memberships[m].principal, bootstrap);
    forall p: Permission ensures p in EVERYTHING {
      match p {
        case OrganizationCreate =>
        case WorkflowReview =>
        case WorkflowPublish =>
        case ReportApprove =>
      }
    }
  }

  /** The creator of `k` holds everything, under whatever bootstrap set, and is known by the key's identifier. */
  lemma CreatorPermitted(w: World, k: Key, subject: string, r: nat, bootstrap: set<string>)
    requires L.PeopleOk(w.login) && StoreInv(w.store) && k in w.store.db.keys
    requires subject in w.login.principals && w.login.principals[subject].id == k.principal
    requires IsKnown(w, r) && w.login.requests[r].subject == subject
    ensures w.login.requests[r].principal == k.principal
    ensures PermissionsNow(w, r, bootstrap) == EVERYTHING
  {
    assert L.RequestOk(w.login.principals, w.login.requests[r]);
    var m := CreatorAdministers(w.store, k);
    AdministratorHolds(w.store.db.memberships, m, subject in bootstrap);
  }

  lemma HoldsOfCreators(s: C.State, principal: Id, bootstrap: bool)
    requires StoreInv(s)
    ensures Holds(s.db.memberships, principal, bootstrap) ==
            if IsCreator(s.db, principal) then EVERYTHING else if bootstrap then {OrganizationCreate} else {}
  {
    if k :| k in s.db.keys && k.principal == principal {
      var m := CreatorAdministers(s, k);
      AdministratorHolds(s.db.memberships, m, bootstrap);
    } else {
      forall m | m in s.db.memberships ensures s.db.memberships[m].principal != principal { MemberCreated(s.db, m); }
    }
  }

  /**
   In every run a request that reads its memberships is granted everything if its principal has created
   an organization, only creation if it is merely a bootstrap subject, and nothing otherwise.
   */
  lemma ReadGrantsExactly(start: Time, run: seq<Step>, r: nat, bootstrap: set<string>)
    requires ValidRun(Initial(start), run) && IsKnown(Exec(Initial(start), run), r)
    ensures var w := Exec(Initial(start), run); var q := w.login.requests[r];
            Apply(w, ReadMemberships(r, bootstrap)).grants[r] ==
            if IsCreator(w.store.db, q.principal) then EVERYTHING
            else if q.subject in bootstrap then {OrganizationCreate}
            else {}
  {
    InitialPlain(start);
    PlainRun(Initial(start), run);
    var w := Exec(Initial(start), run);
    HoldsOfCreators(w.store, w.login.requests[r].principal, w.login.requests[r].subject in bootstrap);
  }

  /** A submission admitted under a committed key can only replay the stored result, conflict or fail. */
  lemma AdmittedRetry(w: World, submit: Step, w': World)
    requires C.Inv(w.store) && Enabled(w, submit) && submit.Submit? && Gated(w, submit).0.None?
    requires Gated(w, submit).1.Key() in w.store.db.keys && Leads(Apply(w, submit), w')
    ensures var t := |w.store.txs|;
            && t < |w'.store.txs|
            && (w'.store.txs[t].pc.Finished? ==>
                  E.Dictated(w.store.db.keys[Gated(w, submit).1.Key()], submit.hash, w'.store.txs[t].pc.reply))
  {
    var run :| ValidRun(Apply(w, submit), run) && Exec(Apply(w, submit), run) == w';
    StoreProjection(Apply(w, submit), run);
    E.StartedRetry(w.store, Gated(w, submit).1, submit.now, StoreRun(Apply(w, submit), run));
  }

  /** The submission repeats the request stored under `k`. */
  ghost predicate Repeats(submit: Step, k: Key, row: KeyRow) {
    submit.Submit? && Trims(submit.rawKey, k.key) && !Blank(submit.name) && submit.hash == row.hash
  }

  lemma RepeatPassesGate(w: World, submit: Step, k: Key, row: KeyRow)
    requires Repeats(submit, k, row) && KeyAdmitted(k) && Enabled(w, submit)
    requires w.login.requests[submit.r].principal == k.principal && OrganizationCreate in w.grants[submit.r]
    ensures Gated(w, submit).0.None? && Gated(w, submit).1.Key() == k
  {
    TrimSpaceIdempotent(submit.name);
    TrimsUnique(submit.rawKey, Gated(w, submit).1.key, k.key);
  }

  /** Request `r` is the creator's of `k`, stored as `row`, and has been granted everything. */
  ghost predicate Ready(w: World, k: Key, row: KeyRow, subject: string, r: nat) {
    && k in w.store.db.keys && w.store.db.keys[k] == row
    && L.IdOf(w.login.principals, subject, k.principal)
    && IsKnown(w, r) && w.login.requests[r].subject == subject
    && r in w.grants && w.grants[r] == EVERYTHING
  }

  lemma RequestStays(w: World, step: Step, r: nat)
    requires Enabled(w, step) && IsKnown(w, r)
    ensures IsKnown(Apply(w, step), r) && Apply(w, step).login.requests[r] == w.login.requests[r]
  {
    if step.People? { KnownStays(w.login, step.login); }
  }

  lemma GrantStays(w: World, step: Step, r: nat)
    requires Enabled(w, step) && r in w.grants
    requires step.ReadMemberships? && step.r == r ==> PermissionsNow(w, r, step.bootstrap) == w.grants[r]
    ensures r in Apply(w, step).grants && Apply(w, step).grants[r] == w.grants[r]
  {
  }

  lemma ReadyStep(w: World, step: Step, k: Key, row: KeyRow, subject: string, r: nat)
    requires Enabled(w, step) && Ready(w, k, row, subject, r)
    requires SameIds(w.login.principals, Apply(w, step).login.principals)
    requires Extends(w.store.db, Apply(w, step).store.db)
    requires step.ReadMemberships? && step.r == r ==> PermissionsNow(w, r, step.bootstrap) == EVERYTHING
    ensures Ready(Apply(w, step), k, row, subject, r)
  {
    RequestStays(w, step, r);
    GrantStays(w, step, r);
  }

  lemma {:induction false} ReadyRun(w: World, run: seq<Step>, k: Key, row: KeyRow, subject: string, r: nat)
    requires PlainInv(w) && ValidRun(w, run) && Ready(w, k, row, subject, r)
    ensures PlainInv(Exec(w, run)) && Ready(Exec(w, run), k, row, subject, r)
    decreases |run|
  {
    if run == [] {
    } else {
      PlainStep(w, run[0]);
      if run[0].ReadMemberships? && run[0].r == r { CreatorPermitted(w, k, subject, r, run[0].bootstrap); }
      ReadyStep(w, run[0], k, row, subject, r);
      ReadyRun(Apply(w, run[0]), run[1..], k, row, subject, r);
    }
  }

  /**
   Once a creation is committed its creator is granted everything at every later read, under whatever
   bootstrap set, and keeps it: `w` is any reachable world in which `k` is committed and belongs to
   `subject`, `w'` any later one in which a request of that subject reads, `later` any one after that.
   */
  lemma CreatorKeepsEverything(
      start: Time, w: World, k: Key, subject: string, w': World, r: nat, bootstrap: set<string>, later: World)
    requires Leads(Initial(start), w) && k in w.store.db.keys && L.IdOf(w.login.principals, subject, k.principal)
    requires Leads(w, w') && IsKnown(w', r) && w'.login.requests[r].subject == subject
    requires Leads(Apply(w', ReadMemberships(r, bootstrap)), later)
    ensures PlainInv(later) && Ready(later, k, w.store.db.keys[k], subject, r)
  {
    Later(start, w, w');
    CreatorPermitted(w', k, subject, r, bootstrap);
    PlainStep(w', ReadMemberships(r, bootstrap));
    var read := Apply(w', ReadMemberships(r, bootstrap));
    var run :| ValidRun(read, run) && Exec(read, run) == later;
    ReadyRun(read, run, k, w.store.db.keys[k], subject, r);
  }

  /**
   A creation can be retried for ever. `w` is any reachable world in which key `k` is committed and
   belongs to `subject`; `w'` is any later one, in which a request of that subject reads its memberships
   under whatever bootstrap set; in any later world `mid` the request repeats the submission. It passes
   the gate, reaches the same key row and, in every continuation, can only end by replaying the stored
   result or by a database failure.
   */
  lemma RetrySurvivesBootstrapLoss(
      start: Time, w: World, k: Key, subject: string, w': World, bootstrap: set<string>, mid: World, submit: Step,
      end: World)
    requires Leads(Initial(start), w) && k in w.store.db.keys && L.IdOf(w.login.principals, subject, k.principal)
    requires Repeats(submit, k, w.store.db.keys[k])
    requires Leads(w, w') && IsKnown(w', submit.r) && w'.login.requests[submit.r].subject == subject
    requires Leads(Apply(w', ReadMemberships(submit.r, bootstrap)), mid)
    requires Enabled(mid, submit) && Leads(Apply(mid, submit), end)
    ensures Gated(mid, submit).0.None? && Gated(mid, submit).1.Key() == k
    ensures |mid.store.txs| < |end.store.txs|
    ensures end.store.txs[|mid.store.txs|].pc.Finished? ==>
              E.Dictated(w.store.db.keys[k], submit.hash, end.store.txs[|mid.store.txs|].pc.reply)
  {
    CreatorKeepsEverything(start, w, k, subject, w', submit.r, bootstrap, mid);
    assert L.RequestOk(mid.login.principals, mid.login.requests[submit.r]);
    RepeatPassesGate(mid, submit, k, w.store.db.keys[k]);
    AdmittedRetry(mid, submit, end);
  }
}
