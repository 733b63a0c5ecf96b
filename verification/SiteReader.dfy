/** Reading one site: an SQL filter in three-valued logic, then the domain check. */
module SiteReader {
  import opened Prelude
  import opened Schema
  import opened Permissions

  datatype Truth = True | False | Unknown

  function And(a: Truth, b: Truth): Truth {
    if a == False || b == False then False else if a == True && b == True then True else Unknown
  }

  function Or(a: Truth, b: Truth): Truth {
    if a == True || b == True then True else if a == False && b == False then False else Unknown
  }

  function Is(b: bool): Truth { if b then True else False }

  datatype Site = Site(id: Id, organization: Id, code: string, name: string, timezone: string, status: string)

  datatype Answer = Found(site: Site) | NotFound | QueryError

  /** Text to uuid: None when the cast fails, otherwise the canonical text. */
  type Cast = string -> Option<Id>

  predicate CastsAll(cast: Cast, ids: seq<string>) { forall i :: 0 <= i < |ids| ==> cast(ids[i]).Some? }

  /** cardinality($3) = 0 OR id = ANY($3); a nil slice arrives as a NULL array. */
  function SiteFilter(cast: Cast, id: Id, ids: Option<seq<string>>): Truth {
    if ids.None? then Or(Unknown, Unknown)
    else Or(Is(|ids.value| == 0), Is(exists i :: 0 <= i < |ids.value| && cast(ids.value[i]) == Some(id)))
  }

  function Filter(cast: Cast, s: Site, siteId: Id, organization: Id, ids: Option<seq<string>>): Truth {
    And(And(Is(s.id == siteId), Is(s.organization == organization)), SiteFilter(cast, s.id, ids))
  }

  /** What the access decision means. */
  predicate MayAccess(p: Principal, organization: Id, site: Id) {
    p.organization != "" && p.organization == organization && site != "" && (p.Sites() == [] || site in p.Sites())
  }

  /** The early-return scan of CanAccessSite. */
  method CanAccessSite(p: Principal, organization: Id, site: Id) returns (ok: bool)
    ensures ok <==> MayAccess(p, organization, site)
  {
    if p.organization == "" || p.organization != organization || site == "" {
      return false;
    }
    var sites := p.Sites();
    if |sites| == 0 {
      return true;
    }
    for i := 0 to |sites|
      invariant site !in sites[..i]
    {
      if sites[i] == site {
        return true;
      }
    }
    return false;
  }

  /** With or without listed sites, another organization's sites are refused, and so are unlisted ones. */
  lemma AccessRefused(p: Principal, organization: Id, site: Id)
    ensures organization != p.organization ==> !MayAccess(p, organization, site)
    ensures p.Sites() != [] && site !in p.Sites() ==> !MayAccess(p, organization, site)
  {
  }

  /** SiteService.Get and SiteReader.Get. */
  function Get(cast: Cast, sites: map<Id, Site>, p: Principal, siteId: string): Answer {
    if p.organization == "" then NotFound
    else if cast(siteId).None? || cast(p.organization).None? || !CastsAll(cast, p.Sites()) then QueryError
    else
      var id := cast(siteId).value;
      if id !in sites || Filter(cast, sites[id], id, cast(p.organization).value, p.sites) != True then NotFound
      else if !MayAccess(p, sites[id].organization, sites[id].id) then NotFound
      else Found(sites[id])
  }

  ghost predicate TableOk(cast: Cast, sites: map<Id, Site>) {
    forall id :: id in sites ==>
      && sites[id].id == id && id != "" && cast(id) == Some(id)
      && cast(sites[id].organization) == Some(sites[id].organization)
  }

  /** Identifiers read back from the database are canonical. */
  ghost predicate Canonical(cast: Cast, p: Principal) {
    (p.organization != "" ==> cast(p.organization) == Some(p.organization))
    && forall i :: 0 <= i < |p.Sites()| ==> cast(p.Sites()[i]) == Some(p.Sites()[i])
  }

  /**
   For a canonical principal, a site is returned exactly when it exists, the domain rule allows it and
   the site list is not a nil slice.
   */
  lemma ReadExact(cast: Cast, sites: map<Id, Site>, p: Principal, siteId: string, id: Id)
    requires TableOk(cast, sites) && Canonical(cast, p) && cast(siteId) == Some(id)
    ensures Get(cast, sites, p, siteId) ==
            if id in sites && MayAccess(p, sites[id].organization, id) && p.sites.Some? then Found(sites[id])
            else NotFound
  {
    if id in sites && MayAccess(p, sites[id].organization, id) && p.sites.Some? {
      if p.Sites() != [] {
        var i :| 0 <= i < |p.Sites()| && p.Sites()[i] == id;
        assert cast(p.sites.value[i]) == Some(id);
      }
      assert Filter(cast, sites[id], id, cast(p.organization).value, p.sites) == True;
    }
  }

  /** The query fails exactly when an identifier it is given is no uuid. */
  lemma QueryFailsExactly(cast: Cast, sites: map<Id, Site>, p: Principal, siteId: string)
    ensures Get(cast, sites, p, siteId) == QueryError <==>
            && p.organization != ""
            && exists id :: id in [siteId, p.organization] + p.Sites() && cast(id).None?
  {
    var given := [siteId, p.organization] + p.Sites();
    assert given[0] == siteId && given[1] == p.organization;
    assert forall i :: 0 <= i < |p.Sites()| ==> given[i + 2] == p.Sites()[i];
  }

  /** For a principal as ResolvePrincipal builds it, a site is returned exactly when it is listed as well. */
  lemma ResolvedReadExact(
      cast: Cast, sites: map<Id, Site>, p: Principal, rows: seq<Membership>, bootstrap: bool, siteId: string, id: Id)
    requires Assembled(p, rows, bootstrap)
    requires TableOk(cast, sites) && Canonical(cast, p) && cast(siteId) == Some(id)
    ensures Get(cast, sites, p, siteId).Found? <==>
            && id in sites && MayAccess(p, sites[id].organization, id)
            && exists r :: r in rows && r.site == Some(id)
  {
    ReadExact(cast, sites, p, siteId, id);
    if id in sites && MayAccess(p, sites[id].organization, id) && p.sites.Some? {
      assert id in p.Sites();
    }
    if exists r :: r in rows && r.site == Some(id) && id != "" {
      assert id in p.Sites();
    }
  }

  /** Whatever is returned satisfies the domain rule, canonical or not: no foreign and no unlisted site. */
  lemma ReadAllowed(cast: Cast, sites: map<Id, Site>, p: Principal, siteId: string)
    ensures var a := Get(cast, sites, p, siteId);
            a.Found? ==>
              && a.site in sites.Values && MayAccess(p, a.site.organization, a.site.id)
              && p.organization != "" && a.site.organization == p.organization && a.site.id != ""
              && (p.Sites() != [] ==> a.site.id in p.Sites())
  {
  }

  /** With sites listed, the filter and the domain rule agree row by row: the second check rejects nothing. */
  lemma FilterAgrees(cast: Cast, sites: map<Id, Site>, p: Principal, id: Id)
    requires TableOk(cast, sites) && Canonical(cast, p) && p.Sites() != [] && p.organization != "" && id in sites
    ensures Filter(cast, sites[id], id, p.organization, p.sites) == True <==>
            MayAccess(p, sites[id].organization, id)
  {
    if MayAccess(p, sites[id].organization, id) {
      var i :| 0 <= i < |p.Sites()| && p.Sites()[i] == id;
      assert cast(p.sites.value[i]) == Some(id);
    }
  }

  lemma SomeElement(ids: seq<Id>)
    requires ids != []
    ensures exists s :: s in ids
  {
    assert ids[0] in ids;
  }

  /**
   A principal resolved from organization-wide memberships has a nil site list: the domain rule allows it
   every site of its organization, and the query returns no site at all.
   */
  lemma OrganizationWideReadsNothing(
      cast: Cast, sites: map<Id, Site>, p: Principal, rows: seq<Membership>, bootstrap: bool, siteId: string)
    requires Assembled(p, rows, bootstrap) && forall r :: r in rows ==> r.site.None?
    ensures forall site :: site != "" && p.organization != "" ==> MayAccess(p, p.organization, site)
    ensures !Get(cast, sites, p, siteId).Found?
  {
    if p.Sites() != [] { SomeElement(p.Sites()); }
  }
}
