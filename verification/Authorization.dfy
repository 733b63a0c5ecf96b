/** Approval authority: grants, the approval decision, and which grants are redundant. */
module Authorization {
  import opened Prelude
  import opened Permissions

  /** Go's zero time, which means "unbounded" in a grant's window. */
  const ZERO_TIME: Time := 0

  /** A character folding; strings.EqualFold compares folded characters. */
  type Folding = char -> char

  datatype Request = Request(
    organization: Id, site: Id, scopeKind: string, scopeId: string, competency: string, risk: int, at: Time)

  datatype Authority = Authority(
    id: Id, subject: Id, organization: Id, site: Id, scopeKind: string, scopeId: string, competency: string,
    maximumRisk: int, validFrom: Time, validUntil: Time, revokedAt: Option<Time>, delegatedBy: Id)

  predicate EqualFold(fold: Folding, a: string, b: string) {
    |a| == |b| && forall i :: 0 <= i < |a| ==> fold(a[i]) == fold(b[i])
  }

  /** ApprovalAuthority.Matches. */
  predicate Matches(fold: Folding, a: Authority, subject: Id, r: Request) {
    if a.revokedAt.Some? || a.subject != subject || a.organization != r.organization then false
    else if a.site != "" && a.site != r.site then false
    else if a.scopeKind != "" && !EqualFold(fold, a.scopeKind, r.scopeKind) then false
    else if a.scopeId != "" && a.scopeId != r.scopeId then false
    else if a.competency != "" && !EqualFold(fold, a.competency, r.competency) then false
    else if r.risk > a.maximumRisk then false
    else if a.validFrom != ZERO_TIME && r.at < a.validFrom then false
    else if a.validUntil != ZERO_TIME && !(r.at < a.validUntil) then false
    else true
  }

  /** The decision as a statement: the permission, and some matching grant. */
  ghost predicate Approves(fold: Folding, p: Principal, permission: Permission, grants: seq<Authority>, r: Request) {
    permission in p.permissions && exists g :: g in grants && Matches(fold, g, p.id, r)
  }

  /** The early-return scan of CanApprove decides exactly that. */
  method CanApprove(fold: Folding, p: Principal, permission: Permission, grants: seq<Authority>, r: Request)
    returns (ok: bool)
    ensures ok <==> Approves(fold, p, permission, grants, r)
  {
    if permission !in p.permissions {
      return false;
    }
    for i := 0 to |grants|
      invariant forall j :: 0 <= j < i ==> !Matches(fold, grants[j], p.id, r)
    {
      if Matches(fold, grants[i], p.id, r) {
        assert grants[i] in grants;
        return true;
      }
    }
    return false;
  }

  // ----- Redundant grants -----

  /** A text condition at least as wide: no condition, or the same one. */
  predicate WiderText(wide: string, narrow: string) { wide == "" || wide == narrow }

  predicate WiderFold(fold: Folding, wide: string, narrow: string) { wide == "" || EqualFold(fold, wide, narrow) }

  /** `wide` allows at least what `narrow` allows: scope, risk ceiling and validity window. */
  predicate Subsumes(fold: Folding, wide: Authority, narrow: Authority) {
    && wide.revokedAt.None? && wide.subject == narrow.subject && wide.organization == narrow.organization
    && WiderText(wide.site, narrow.site) && WiderText(wide.scopeId, narrow.scopeId)
    && WiderFold(fold, wide.scopeKind, narrow.scopeKind) && WiderFold(fold, wide.competency, narrow.competency)
    && narrow.maximumRisk <= wide.maximumRisk
    && (wide.validFrom == ZERO_TIME || (narrow.validFrom != ZERO_TIME && wide.validFrom <= narrow.validFrom))
    && (wide.validUntil == ZERO_TIME || (narrow.validUntil != ZERO_TIME && narrow.validUntil <= wide.validUntil))
  }

  lemma SubsumedMatches(fold: Folding, wide: Authority, narrow: Authority, subject: Id, r: Request)
    requires Subsumes(fold, wide, narrow) && Matches(fold, narrow, subject, r)
    ensures Matches(fold, wide, subject, r)
  {
  }

  /** The grant is live and its window is not empty, so it matches something. */
  predicate Usable(g: Authority) {
    g.revokedAt.None? && (g.validFrom == ZERO_TIME || g.validUntil == ZERO_TIME || g.validFrom < g.validUntil)
  }

  /** The request a grant was written for, at a given moment. */
  function Exemplar(g: Authority, at: Time): Request {
    Request(g.organization, g.site, g.scopeKind, g.scopeId, g.competency, g.maximumRisk, at)
  }

  /** What a live grant was written for is matched up to its ceiling and inside its window, and not beyond. */
  lemma MatchesItself(fold: Folding, g: Authority, risk: int, at: Time)
    requires g.revokedAt.None?
    ensures Matches(fold, g, g.subject, Exemplar(g, at).(risk := risk)) <==>
            && risk <= g.maximumRisk
            && (g.validFrom != ZERO_TIME ==> g.validFrom <= at)
            && (g.validUntil != ZERO_TIME ==> at < g.validUntil)
  {
  }

  /** At the edges: a usable grant matches at its ceiling and from its first moment, not above and not at its end. */
  lemma Boundaries(fold: Folding, g: Authority)
    requires Usable(g)
    ensures g.validFrom != ZERO_TIME ==> Matches(fold, g, g.subject, Exemplar(g, g.validFrom))
    ensures g.validFrom != ZERO_TIME ==> !Matches(fold, g, g.subject, Exemplar(g, g.validFrom - 1))
    ensures g.validUntil != ZERO_TIME ==> Matches(fold, g, g.subject, Exemplar(g, g.validUntil - 1))
    ensures g.validUntil != ZERO_TIME ==> !Matches(fold, g, g.subject, Exemplar(g, g.validUntil))
    ensures forall at :: !Matches(fold, g, g.subject, Exemplar(g, at).(risk := g.maximumRisk + 1))
  {
  }

  /** A revoked grant, another subject's or another organization's matches nothing. */
  lemma MatchesOnlyItsOwn(fold: Folding, g: Authority, subject: Id, r: Request)
    requires g.revokedAt.Some? || subject != g.subject || r.organization != g.organization
    ensures !Matches(fold, g, subject, r)
  {
  }

  /** A moment inside the narrow window and, if the wide window cuts some of it off, outside the wide one. */
  function Moment(wide: Authority, narrow: Authority): Time {
    if wide.validFrom != ZERO_TIME && narrow.validFrom == ZERO_TIME then
      (if narrow.validUntil != ZERO_TIME && narrow.validUntil < wide.validFrom then narrow.validUntil
       else wide.validFrom) - 1
    else if wide.validFrom != ZERO_TIME && narrow.validFrom < wide.validFrom then narrow.validFrom
    else if narrow.validUntil != ZERO_TIME then narrow.validUntil - 1
    else if narrow.validFrom > wide.validUntil && narrow.validFrom != ZERO_TIME then narrow.validFrom
    else wide.validUntil
  }

  /** Subsumption is exactly "matches whatever the other matches", for every subject and request. */
  lemma SubsumesExact(fold: Folding, wide: Authority, narrow: Authority)
    requires Usable(narrow)
    ensures Subsumes(fold, wide, narrow) <==>
            forall subject, r :: Matches(fold, narrow, subject, r) ==> Matches(fold, wide, subject, r)
  {
    if Subsumes(fold, wide, narrow) {
      forall subject, r | Matches(fold, narrow, subject, r) ensures Matches(fold, wide, subject, r) {
        SubsumedMatches(fold, wide, narrow, subject, r);
      }
    } else {
      var r := Exemplar(narrow, Moment(wide, narrow));
      assert Matches(fold, narrow, narrow.subject, r);
      assert !Matches(fold, wide, narrow.subject, r);
    }
  }

  /** One pruning step: grant `i` goes because another remaining grant subsumes it, or because it is revoked. */
  ghost predicate Prunes(fold: Folding, before: seq<Authority>, after: seq<Authority>) {
    exists i :: 0 <= i < |before| && after == before[..i] + before[i + 1..]
      && (before[i].revokedAt.Some? || exists g :: g in after && Subsumes(fold, g, before[i]))
  }

  lemma PruneOnce(
      fold: Folding, before: seq<Authority>, after: seq<Authority>, p: Principal, permission: Permission, r: Request)
    requires Prunes(fold, before, after)
    ensures Approves(fold, p, permission, before, r) <==> Approves(fold, p, permission, after, r)
  {
    var i :| 0 <= i < |before| && after == before[..i] + before[i + 1..]
      && (before[i].revokedAt.Some? || exists g :: g in after && Subsumes(fold, g, before[i]));
    assert forall g :: g in before <==> g in after || g == before[i];
    if Matches(fold, before[i], p.id, r) {
      var g :| g in after && Subsumes(fold, g, before[i]);
      SubsumedMatches(fold, g, before[i], p.id, r);
    }
  }

  /** Pruning any number of times never changes a decision, for any principal, permission or request. */
  lemma {:induction false} PruningPreservesApproval(
      fold: Folding, stages: seq<seq<Authority>>, p: Principal, permission: Permission, r: Request)
    requires |stages| > 0 && forall i :: 0 <= i < |stages| - 1 ==> Prunes(fold, stages[i], stages[i + 1])
    ensures Approves(fold, p, permission, stages[0], r) <==> Approves(fold, p, permission, stages[|stages| - 1], r)
  {
    if |stages| == 1 {
    } else {
      PruneOnce(fold, stages[0], stages[1], p, permission, r);
      var rest := stages[1..];
      forall i | 0 <= i < |rest| - 1 ensures Prunes(fold, rest[i], rest[i + 1]) {
        assert rest[i] == stages[i + 1] && rest[i + 1] == stages[i + 1 + 1];
      }
      PruningPreservesApproval(fold, rest, p, permission, r);
    }
  }
}
