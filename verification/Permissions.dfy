/** Permissions and the assembly of a principal from its membership rows. */
module Permissions {
  import opened Prelude
  import opened Schema

  datatype Permission = OrganizationCreate | WorkflowReview | WorkflowPublish | ReportApprove

  /** `sites` is a Go slice: None is nil. */
  datatype Principal = Principal(
    id: Id, subject: string, displayName: string, organization: Id, sites: Option<seq<Id>>,
    permissions: set<Permission>)
  {
    /** The elements of the slice; a nil slice has none. */
    function Sites(): seq<Id> { Elements(sites) }
  }

  function Elements(slice: Option<seq<Id>>): seq<Id> {
    if slice.Some? then slice.value else []
  }

  /** addRolePermissions. */
  function RolePermissions(role: Role): set<Permission> {
    match role
    case Administrator => {OrganizationCreate, WorkflowReview, WorkflowPublish, ReportApprove}
    case MaintenanceSupervisor => {WorkflowReview, ReportApprove}
    case SeniorTechnician => {WorkflowReview}
    case OtherRole(_) => {}
  }

  // ----- Go's order on strings -----

  predicate Less(a: string, b: string) {
    b != "" && (a == "" || a[0] < b[0] || (a[0] == b[0] && Less(a[1..], b[1..])))
  }

  lemma {:induction false} LessTotal(a: string, b: string)
    ensures Less(a, b) || Less(b, a) || a == b
  {
    if a == "" || b == "" || a[0] != b[0] {
    } else {
      LessTotal(a[1..], b[1..]);
      assert a == [a[0]] + a[1..] && b == [b[0]] + b[1..];
    }
  }

  lemma {:induction false} LessAsymmetric(a: string, b: string)
    ensures !(Less(a, b) && Less(b, a))
  {
    if a == "" || b == "" {
    } else {
      LessAsymmetric(a[1..], b[1..]);
    }
  }

  lemma {:induction false} LessTransitive(a: string, b: string, c: string)
    requires Less(a, b) && Less(b, c)
    ensures Less(a, c)
  {
    if a == "" || a[0] != b[0] || b[0] != c[0] {
    } else {
      LessTransitive(a[1..], b[1..], c[1..]);
    }
  }

  /** The first difference decides, and a proper prefix comes first. */
  lemma {:induction false} LessByFirstDifference(p: string, c: char, x: string, d: char, y: string)
    ensures c != d ==> (Less(p + [c] + x, p + [d] + y) <==> c < d)
    ensures Less(p, p + [c] + x)
  {
    if p == "" {
      assert p + [c] + x == [c] + x && p + [d] + y == [d] + y;
    } else {
      assert (p + [c] + x)[1..] == p[1..] + [c] + x && (p + [d] + y)[1..] == p[1..] + [d] + y;
      LessByFirstDifference(p[1..], c, x, d, y);
    }
  }

  ghost predicate Increasing(s: seq<string>) {
    forall i, j :: 0 <= i < j < |s| ==> Less(s[i], s[j])
  }

  /** A strictly increasing list is determined by its elements. */
  lemma {:induction false} IncreasingUnique(s: seq<string>, t: seq<string>)
    requires Increasing(s) && Increasing(t) && (forall x :: x in s <==> x in t)
    ensures s == t
  {
    assert |t| > 0 ==> t[0] in s;
    assert |s| > 0 ==> s[0] in t;
    if s == [] {
    } else {
      LessAsymmetric(s[0], t[0]);
      assert s[0] == t[0];
      forall x | x in s[1..] ensures x in t[1..] { TailMember(s, t, x); }
      forall x | x in t[1..] ensures x in s[1..] { TailMember(t, s, x); }
      IncreasingUnique(s[1..], t[1..]);
    }
  }

  lemma TailMember(s: seq<string>, t: seq<string>, x: string)
    requires Increasing(s) && s != [] && t != [] && s[0] == t[0] && x in s[1..] && (forall y :: y in s ==> y in t)
    ensures x in t[1..]
  {
    var i :| 0 <= i < |s| - 1 && s[1..][i] == x;
    assert Less(s[0], s[i + 1]);
    LessAsymmetric(x, x);
    assert x in t && x != t[0];
  }

  /** Insertion into a sorted list without the element. */
  method InsertSorted(s: seq<string>, x: string) returns (r: seq<string>)
    requires Increasing(s) && x !in s
    ensures Increasing(r) && (forall y :: y in r <==> y in s || y == x)
  {
    var i := 0;
    while i < |s| && Less(s[i], x)
      invariant i <= |s| && forall j :: 0 <= j < i ==> Less(s[j], x)
    {
      i := i + 1;
    }
    r := s[..i] + [x] + s[i..];
    forall j | i <= j < |s| ensures Less(x, s[j]) {
      LessTotal(s[i], x);
      if j > i { LessTransitive(x, s[i], s[j]); }
    }
    assert forall y :: y in s <==> y in s[..i] || y in s[i..] by { assert s == s[..i] + s[i..]; }
  }

  // ----- Assembling the principal -----

  /** The roles that carry a permission. */
  function RolesWith(p: Permission): set<Role> {
    match p
    case OrganizationCreate => {Administrator}
    case WorkflowReview => {Administrator, MaintenanceSupervisor, SeniorTechnician}
    case WorkflowPublish => {Administrator}
    case ReportApprove => {Administrator, MaintenanceSupervisor}
  }

  /** The table by role and the table by permission are the same relation. */
  lemma TablesAgree(role: Role, p: Permission)
    ensures p in RolePermissions(role) <==> role in RolesWith(p)
  {
    match p {
      case OrganizationCreate =>
      case WorkflowReview =>
      case WorkflowPublish =>
      case ReportApprove =>
    }
  }

  predicate Grants(row: Membership, p: Permission) { row.role in RolesWith(p) }

  ghost predicate Granted(rows: seq<Membership>, p: Permission) { exists r :: r in rows && Grants(r, p) }

  lemma GrantedAppend(rows: seq<Membership>, row: Membership, p: Permission)
    ensures Granted(rows + [row], p) <==> Granted(rows, p) || Grants(row, p)
  {
    assert row in rows + [row];
    if Granted(rows, p) {
      var r :| r in rows && Grants(r, p);
      assert r in rows + [row];
    }
  }

  /** What ResolvePrincipal promises of the rows it was given, whatever their order. */
  ghost predicate Assembled(p: Principal, rows: seq<Membership>, bootstrap: bool) {
    && (forall q :: q in p.permissions <==>
          (bootstrap && q == OrganizationCreate) || Granted(rows, q))
    && Increasing(p.Sites())
    && (forall s :: s in p.Sites() <==> s != "" && exists r :: r in rows && r.site == Some(s))
    && (p.sites.None? <==> p.Sites() == [])
  }

  function FirstOrganization(rows: seq<Membership>): Id {
    if rows == [] then "" else if rows[0].organization != "" then rows[0].organization else FirstOrganization(rows[1..])
  }

  /** Rows in created_at order yield the organization of the earliest membership. */
  lemma {:induction false} FirstIsEarliest(rows: seq<Membership>)
    requires ByTime(rows)
    ensures FirstOrganization(rows) == "" <==> forall r :: r in rows ==> r.organization == ""
    ensures FirstOrganization(rows) != "" ==>
              exists r :: r in rows && r.organization == FirstOrganization(rows)
                && forall q :: q in rows && q.organization != "" ==> r.createdAt <= q.createdAt
  {
    if rows == [] {
    } else if rows[0].organization != "" {
      assert rows[0] in rows && forall q :: q in rows ==> rows[0].createdAt <= q.createdAt;
    } else {
      FirstIsEarliest(rows[1..]);
      assert forall r :: r in rows <==> r == rows[0] || r in rows[1..];
    }
  }

  /** In created_at order. */
  ghost predicate ByTime(rows: seq<Membership>) {
    forall i, j :: 0 <= i < j < |rows| ==> rows[i].createdAt <= rows[j].createdAt
  }

  /** The loops of ResolvePrincipal: a pass over the rows, a pass over the site set in any order, a sort. */
  method Assemble(id: Id, subject: string, displayName: string, rows: seq<Membership>, bootstrap: bool)
    returns (p: Principal)
    ensures Assembled(p, rows, bootstrap)
    ensures p.id == id && p.subject == subject && p.displayName == displayName
    ensures p.organization == FirstOrganization(rows)
  {
    var permissions: set<Permission> := {};
    var siteSet: set<Id> := {};
    var organization: Id := "";
    for i := 0 to |rows|
      invariant forall q :: q in permissions <==> Granted(rows[..i], q)
      invariant forall s :: s in siteSet <==> s != "" && exists r :: r in rows[..i] && r.site == Some(s)
      invariant FirstOrganization(rows) == if organization != "" then organization else FirstOrganization(rows[i..])
    {
      assert rows[..i + 1] == rows[..i] + [rows[i]] && rows[i..][1..] == rows[i + 1..];
      if organization == "" {
        organization := rows[i].organization;
      }
      var site := Coalesce(rows[i].site);
      if site != "" {
        siteSet := siteSet + {site};
      }
      permissions := permissions + RolePermissions(rows[i].role);
      forall q ensures q in permissions <==> Granted(rows[..i + 1], q) {
        GrantedAppend(rows[..i], rows[i], q);
        TablesAgree(rows[i].role, q);
      }
    }
    assert rows[..|rows|] == rows;
    var sites: Option<seq<Id>> := None;
    var rest := siteSet;
    while rest != {}
      invariant rest <= siteSet && Increasing(Elements(sites))
      invariant forall s :: s in Elements(sites) <==> s in siteSet && s !in rest
      invariant sites.None? <==> Elements(sites) == []
      decreases rest
    {
      var s :| s in rest;
      rest := rest - {s};
      var appended := InsertSorted(Elements(sites), s);
      assert s in appended;
      sites := Some(appended);
    }
    if bootstrap {
      permissions := permissions + {OrganizationCreate};
    }
    p := Principal(id, subject, displayName, organization, sites, permissions);
  }

  /** Neither the row order nor the map's iteration order can be seen in permissions and sites. */
  lemma AssembledUnique(p: Principal, q: Principal, rows: seq<Membership>, rows': seq<Membership>, bootstrap: bool)
    requires Assembled(p, rows, bootstrap) && Assembled(q, rows', bootstrap)
    requires forall r :: r in rows <==> r in rows'
    ensures p.permissions == q.permissions && p.sites == q.sites
  {
    forall x ensures Granted(rows, x) <==> Granted(rows', x) {}
    forall x | x in p.Sites() ensures x in q.Sites() {}
    forall x | x in q.Sites() ensures x in p.Sites() {}
    IncreasingUnique(p.Sites(), q.Sites());
  }

  /** `rows` are the memberships of `principal`. */
  ghost predicate RowsOf(rows: seq<Membership>, memberships: map<Id, Membership>, principal: Id) {
    forall r :: r in rows <==> exists m :: m in memberships && memberships[m] == r && r.principal == principal
  }

  /** The permissions a principal holds under the committed memberships. */
  function Holds(memberships: map<Id, Membership>, principal: Id, bootstrap: bool): set<Permission> {
    (set m, p | m in memberships && memberships[m].principal == principal
                && p in RolePermissions(memberships[m].role) :: p)
    + if bootstrap then {OrganizationCreate} else {}
  }

  /** Whatever order the query returns the rows in, the assembled permissions are those of `Holds`. */
  lemma AssembledHolds(
      p: Principal, memberships: map<Id, Membership>, rows: seq<Membership>, principal: Id, bootstrap: bool)
    requires Assembled(p, rows, bootstrap) && RowsOf(rows, memberships, principal)
    ensures p.permissions == Holds(memberships, principal, bootstrap)
  {
    forall q | q in p.permissions ensures q in Holds(memberships, principal, bootstrap) {
      if !(bootstrap && q == OrganizationCreate) {
        var r :| r in rows && Grants(r, q);
        var m :| m in memberships && memberships[m] == r;
        TablesAgree(memberships[m].role, q);
      }
    }
    forall q | q in Holds(memberships, principal, bootstrap) ensures q in p.permissions {
      if !(bootstrap && q == OrganizationCreate) {
        var m :| m in memberships && memberships[m].principal == principal && q in RolePermissions(memberships[m].role);
        TablesAgree(memberships[m].role, q);
        assert memberships[m] in rows && Grants(memberships[m], q);
      }
    }
  }

  /** `principal` has a membership with one of `roles`. */
  ghost predicate HasRole(memberships: map<Id, Membership>, principal: Id, roles: set<Role>) {
    exists m :: m in memberships && memberships[m].principal == principal && memberships[m].role in roles
  }

  /** Permission by permission, the roles that give it. */
  ghost predicate Entitled(
      permissions: set<Permission>, memberships: map<Id, Membership>, principal: Id, bootstrap: bool)
  {
    && (OrganizationCreate in permissions <==> HasRole(memberships, principal, {Administrator}) || bootstrap)
    && (WorkflowReview in permissions <==>
          HasRole(memberships, principal, {Administrator, MaintenanceSupervisor, SeniorTechnician}))
    && (WorkflowPublish in permissions <==> HasRole(memberships, principal, {Administrator}))
    && (ReportApprove in permissions <==> HasRole(memberships, principal, {Administrator, MaintenanceSupervisor}))
  }

  lemma HoldsByRole(memberships: map<Id, Membership>, principal: Id, bootstrap: bool, p: Permission)
    ensures p in Holds(memberships, principal, bootstrap) <==>
            HasRole(memberships, principal, RolesWith(p)) || (bootstrap && p == OrganizationCreate)
  {
    forall m | m in memberships
      ensures p in RolePermissions(memberships[m].role) <==> memberships[m].role in RolesWith(p)
    {
      TablesAgree(memberships[m].role, p);
    }
  }

  /** The permissions held are exactly those that the roles give. */
  lemma HoldsExactly(memberships: map<Id, Membership>, principal: Id, bootstrap: bool)
    ensures Entitled(Holds(memberships, principal, bootstrap), memberships, principal, bootstrap)
  {
    forall p ensures p in Holds(memberships, principal, bootstrap) <==>
                     HasRole(memberships, principal, RolesWith(p)) || (bootstrap && p == OrganizationCreate)
    {
      HoldsByRole(memberships, principal, bootstrap, p);
    }
  }
}
