/** Organization values: validation, the gate in front of the store, and the rows one creation writes. */
module OrganizationDomain {
  import opened Prelude
  import opened Text
  import opened Schema

  datatype Error =
    | PermissionDenied | InvalidKey | BlankName                      // the service's gate
    | KeyConflict | InProgress | MissingKey | Undecodable            // the idempotency record
    | InvalidOrganization | UniqueViolation                          // the inserts
    | DatabaseFailure                                                // a statement, or the commit, failed
    | ReplyLost                                                      // committed, but the reply never arrived

  datatype Reply = Success(result: OrganizationResult, replay: bool) | Failure(error: Error)

  /** HTTP status of a reply. */
  function HttpStatus(r: Reply): int {
    match r
    case Success(_, replay) => if replay then 200 else 201
    case Failure(PermissionDenied) => 403
    case Failure(InvalidKey) => 400
    case Failure(BlankName) => 400
    case Failure(KeyConflict) => 409
    case Failure(_) => 500
  }

  /** One admitted call of the store; `hash` is the digest of the request body. */
  datatype Call = Call(principal: Id, key: string, name: string, hash: Bytes)
  {
    function Key(): Key { Schema.Key(principal, CreateOrganizationV1, key) }
  }

  /** OrganizationService.Create up to the call of the store. */
  function Gate(mayCreate: bool, principal: Id, rawKey: string, name: string, hash: Bytes): (r: (Option<Error>, Call))
    ensures r.0.None? <==> mayCreate && 8 <= ByteLen(r.1.key) <= 200 && !AllSpace(name)
    ensures r.0.Some? ==> HttpStatus(Failure(r.0.value)) == if mayCreate then 400 else 403
    ensures Trims(rawKey, r.1.key)
    ensures r.1.principal == principal && r.1.name == name && r.1.hash == hash
  {
    TrimSpaceTrims(rawKey);
    TrimSpaceIdempotent(name);
    var call := Call(principal, TrimSpace(rawKey), name, hash);
    (if !mayCreate then Some(PermissionDenied)
     else if ByteLen(call.key) < 8 || ByteLen(call.key) > 200 then Some(InvalidKey)
     else if Blank(name) then Some(BlankName)
     else None, call)
  }

  predicate Blank(name: string) { TrimSpace(name) == "" }

  function OrganizationRow(id: Id, name: string, now: Time): Organization {
    Organization(id, TrimSpace(name), OwnedBySkawld, None, None, 1, now, now)
  }

  function NewOrganization(id: Id, name: string, now: Time): Option<Organization> {
    if id == "" || Blank(name) then None else Some(OrganizationRow(id, name, now))
  }

  function ResultOf(o: Organization): OrganizationResult {
    OrganizationResult(o.id, o.name, o.sourceOfTruth, o.version)
  }

  function AdministratorRow(principal: Id, organization: Id, now: Time): Membership {
    Membership(principal, organization, None, Administrator, now)
  }

  function CreatedEvent(principal: Id, o: Organization, now: Time): AuditEvent {
    AuditEvent(NullIf(o.id), NullIf(""), NullIf(principal), OrganizationCreated, o.id,
               None, Some(ResultOf(o)), now)
  }

  function CompletedRow(hash: Bytes, result: OrganizationResult, now: Time): KeyRow {
    KeyRow(hash, Completed, Some(STATUS_CREATED), Some(result), now, Some(now))
  }

  /** A trimmed, non-empty name starts with a non-space, so PostgreSQL's btrim CHECK accepts it. */
  lemma RowPassesChecks(id: Id, name: string, now: Time)
    requires !Blank(name)
    ensures OrganizationChecks(OrganizationRow(id, name, now))
  {
    TrimSpaceTrims(name);
    assert OrganizationRow(id, name, now).name[0] != ' ';
  }

  /** White space around the key does not matter: the padded request meets the same gate and the same key row. */
  lemma GateIgnoresPadding(
      mayCreate: bool, principal: Id, l: string, rawKey: string, r: string, name: string, hash: Bytes)
    requires AllSpace(l) && AllSpace(r)
    ensures Gate(mayCreate, principal, l + rawKey + r, name, hash) == Gate(mayCreate, principal, rawKey, name, hash)
  {
    TrimSpaceIgnoresPadding(l, rawKey, r);
  }

  /** Two raw keys reach the same key row exactly when they are the same text up to outer white space. */
  lemma SameRowExactly(principal: Id, a: string, b: string, name: string, name': string, hash: Bytes, hash': Bytes)
    ensures Gate(true, principal, a, name, hash).1.Key() == Gate(true, principal, b, name', hash').1.Key() <==>
            exists t :: Trims(a, t) && Trims(b, t)
  {
    TrimSpaceTrims(a);
    TrimSpaceTrims(b);
    if t :| Trims(a, t) && Trims(b, t) {
      TrimsUnique(a, TrimSpace(a), t);
      TrimsUnique(b, TrimSpace(b), t);
    }
  }

  // ----- What a creation stores and returns, column by column -----

  /** The organization asked for: its name without outer white space, in its first version. */
  ghost predicate IsOrganization(o: Organization, id: Id, name: string, now: Time) {
    && o.id == id && Trims(name, o.name) && o.sourceOfTruth == OwnedBySkawld
    && o.externalSystem.None? && o.externalId.None? && o.version == 1
    && o.createdAt == now && o.updatedAt == now
  }

  ghost predicate IsResult(r: OrganizationResult, id: Id, name: string) {
    r.id == id && Trims(name, r.name) && r.sourceOfTruth == OwnedBySkawld && r.version == 1
  }

  ghost predicate IsEvent(a: AuditEvent, id: Id, c: Call, now: Time) {
    && a.organization == Some(id) && a.site.None? && a.entityId == id && a.action == OrganizationCreated
    && a.actor == (if c.principal == "" then None else Some(c.principal))
    && a.before.None? && a.after.Some? && IsResult(a.after.value, id, c.name) && a.occurredAt == now
  }

  ghost predicate IsKeyRow(k: KeyRow, id: Id, c: Call, now: Time) {
    && k.hash == c.hash && k.status == Completed && k.responseStatus == Some(201)
    && k.responseBody.Some? && IsResult(k.responseBody.value, id, c.name)
    && k.createdAt == now && k.completedAt == Some(now)
  }

  /** The tables hold the organization, membership, audit event and key row that `c` asked for. */
  ghost predicate StoredExactly(db: Tables, c: Call, now: Time, ids: seq<Id>)
    requires |ids| == 3
  {
    && ids[0] in db.organizations && IsOrganization(db.organizations[ids[0]], ids[0], c.name, now)
    && ids[1] in db.memberships
    && db.memberships[ids[1]] == Membership(c.principal, ids[0], None, Administrator, now)
    && ids[2] in db.audit && IsEvent(db.audit[ids[2]], ids[0], c, now)
    && Schema.Key(c.principal, CreateOrganizationV1, c.key) in db.keys
    && IsKeyRow(db.keys[Schema.Key(c.principal, CreateOrganizationV1, c.key)], ids[0], c, now)
  }
}
