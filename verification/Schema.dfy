/** The tables written by organization creation, and the SQL statements that touch them. */
module Schema {
  import opened Prelude

  const STATUS_CREATED := 201

  // Text columns whose values the code compares with constants.
  datatype SourceOfTruth = OwnedBySkawld | ExternalReference
  datatype Role = Administrator | MaintenanceSupervisor | SeniorTechnician | OtherRole(text: string)
  datatype Scope = CreateOrganizationV1 | OtherScope(text: string)
  datatype Action = OrganizationCreated | OtherAction(text: string)

  datatype Organization = Organization(
    id: Id, name: string, sourceOfTruth: SourceOfTruth, externalSystem: Option<string>, externalId: Option<string>,
    version: int, createdAt: Time, updatedAt: Time)

  datatype OrganizationResult = OrganizationResult(id: Id, name: string, sourceOfTruth: SourceOfTruth, version: int)

  datatype Membership = Membership(
    principal: Id, organization: Id, site: Option<Id>, role: Role, createdAt: Time)

  datatype AuditEvent = AuditEvent(
    organization: Option<Id>, site: Option<Id>, actor: Option<Id>, action: Action, entityId: Id,
    before: Option<OrganizationResult>, after: Option<OrganizationResult>, occurredAt: Time)

  datatype Key = Key(principal: Id, scope: Scope, key: string)

  datatype KeyStatus = Processing | Completed

  datatype KeyRow = KeyRow(
    hash: Bytes, status: KeyStatus, responseStatus: Option<int>, responseBody: Option<OrganizationResult>,
    createdAt: Time, completedAt: Option<Time>)

  /** The rows one creation has written and not yet committed: at most one per table. */
  datatype Writes = Writes(
    organization: Option<(Id, Organization)>,
    membership: Option<(Id, Membership)>,
    audit: Option<(Id, AuditEvent)>,
    key: Option<(Key, KeyRow)>)

  const NO_WRITES := Writes(None, None, None, None)

  function Put<K, V>(m: map<K, V>, row: Option<(K, V)>): map<K, V> {
    if row.None? then m else m[row.value.0 := row.value.1]
  }

  /** The committed tables. */
  datatype Tables = Tables(
    organizations: map<Id, Organization>,
    memberships: map<Id, Membership>,
    audit: map<Id, AuditEvent>,
    keys: map<Key, KeyRow>)
  {
    /** These rows overlaid with `w`: a transaction's view, and the effect of its commit. */
    function Merge(w: Writes): Tables {
      Tables(Put(organizations, w.organization), Put(memberships, w.membership), Put(audit, w.audit), Put(keys, w.key))
    }
  }

  const NO_ROWS := Tables(map[], map[], map[], map[])

  // SQL statements: `view` is what the transaction sees, `w` what it has written; None is a unique violation.

  function InsertOrganization(view: Tables, w: Writes, row: Organization): Option<Writes> {
    if row.id in view.organizations then None else Some(w.(organization := Some((row.id, row))))
  }

  /** NULLs are distinct in UNIQUE (principal_id, organization_id, site_id, role). */
  predicate MembershipConflict(view: Tables, id: Id, row: Membership) {
    || id in view.memberships
    || (row.site.Some? && exists m :: m in view.memberships && view.memberships[m].(createdAt := row.createdAt) == row)
  }

  /** INSERT ... ON CONFLICT DO NOTHING. */
  function InsertMembership(view: Tables, w: Writes, id: Id, row: Membership): Writes {
    if MembershipConflict(view, id, row) then w else w.(membership := Some((id, row)))
  }

  function InsertAudit(view: Tables, w: Writes, id: Id, row: AuditEvent): Option<Writes> {
    if id in view.audit then None else Some(w.(audit := Some((id, row))))
  }

  /** INSERT ... ON CONFLICT DO NOTHING, with the number of affected rows. */
  function InsertKey(view: Tables, w: Writes, k: Key, row: KeyRow): (Writes, nat) {
    if k in view.keys then (w, 0) else (w.(key := Some((k, row))), 1)
  }

  /** UPDATE ... WHERE status = 'PROCESSING', with the number of affected rows. */
  function CompleteKey(view: Tables, w: Writes, k: Key, status: int, body: OrganizationResult, now: Time)
    : (Writes, nat)
  {
    if k !in view.keys || view.keys[k].status != Processing then (w, 0)
    else
      var row := view.keys[k].(status := Completed, responseStatus := Some(status),
                               responseBody := Some(body), completedAt := Some(now));
      (w.(key := Some((k, row))), 1)
  }

  /** Every row of `t` is in `t'`, unchanged. */
  ghost predicate Extends(t: Tables, t': Tables) {
    && (forall k :: k in t.keys ==> k in t'.keys && t'.keys[k] == t.keys[k])
    && (forall o :: o in t.organizations ==> o in t'.organizations && t'.organizations[o] == t.organizations[o])
    && (forall m :: m in t.memberships ==> m in t'.memberships && t'.memberships[m] == t.memberships[m])
    && (forall a :: a in t.audit ==> a in t'.audit && t'.audit[a] == t.audit[a])
  }

  /** An INSERT never changes a row that is already visible, whatever identifier it uses. */
  lemma InsertsKeepRows(t: Tables, w: Writes, o: Organization, id: Id, m: Membership, a: AuditEvent, k: Key, r: KeyRow)
    ensures var view := t.Merge(w); var inserted := InsertOrganization(view, w, o);
            w.organization.None? && inserted.Some? ==> Extends(view, t.Merge(inserted.value))
    ensures var view := t.Merge(w);
            w.membership.None? ==> Extends(view, t.Merge(InsertMembership(view, w, id, m)))
    ensures var view := t.Merge(w); var inserted := InsertAudit(view, w, id, a);
            w.audit.None? && inserted.Some? ==> Extends(view, t.Merge(inserted.value))
    ensures var view := t.Merge(w);
            w.key.None? ==> Extends(view, t.Merge(InsertKey(view, w, k, r).0))
  {
  }

  /** A key row is completed at most once: the second UPDATE affects no row and changes nothing. */
  lemma CompletesOnce(
      t: Tables, w: Writes, k: Key, status: int, body: OrganizationResult, now: Time, status': int,
      body': OrganizationResult, now': Time)
    ensures var w' := CompleteKey(t.Merge(w), w, k, status, body, now).0;
            CompleteKey(t.Merge(w'), w', k, status', body', now') == (w', 0)
  {
  }

  /** CHECK (btrim(name) <> ''): PostgreSQL's btrim strips spaces only. */
  predicate NotBlank(s: string) {
    exists i :: 0 <= i < |s| && s[i] != ' '
  }

  /** CHECKs of the organizations table. */
  predicate OrganizationChecks(o: Organization) {
    && NotBlank(o.name)
    && o.version > 0
    && ((o.sourceOfTruth == OwnedBySkawld && o.externalSystem.None? && o.externalId.None?)
        || (o.sourceOfTruth == ExternalReference && o.externalSystem.Some? && o.externalId.Some?))
  }

  /** Every organization is stored under its own identifier and passes its CHECKs. */
  ghost predicate RowsChecked(t: Tables) {
    forall o :: o in t.organizations ==> t.organizations[o].id == o && OrganizationChecks(t.organizations[o])
  }

  /** Every CHECK and foreign key of the four tables, over the known principals and sites. */
  ghost predicate Integrity(principals: set<Id>, sites: set<Id>, t: Tables) {
    && RowsChecked(t)
    && (forall m :: m in t.memberships ==>
          && t.memberships[m].principal in principals
          && t.memberships[m].organization in t.organizations
          && (t.memberships[m].site.None? || t.memberships[m].site.value in sites))
  }
}
