# Identity and organization creation, verified

A Dafny model of the identity core of the maintenance platform: the idempotent "create organization"
transaction under concurrency, the login, session and principal machinery, the point where the two meet,
and the authorization rules. `dafny verify dfyconfig.toml` checks everything.

## What is modelled

- **Creation protocol** (`CreateProtocol.dfy`). Any number of store calls, each one transaction. A step is
  one SQL statement, a commit whose reply is delivered or lost, a fault at any statement or at the commit,
  a rollback, or the arrival of a call. A transaction sees the committed tables overlaid with its own
  writes, and every statement takes a fresh view (READ COMMITTED, section 13.2.1 of the PostgreSQL
  documentation). The key reservation waits for another transaction's uncommitted row of the same key,
  `SELECT ... FOR UPDATE` waits for the row lock, and a failed transaction keeps its locks until its
  rollback. `Serializability.dfy`, `ExactlyOnce.dfy` and `Progress.dfy` hold the results about all runs;
  `OrganizationStore.dfy` is the same program written imperatively for a single caller.
- **Login system** (`LoginProtocol.dfy`). Flows, racing callbacks, sessions, revocations, authenticated
  requests and the clock, with every callback split into its statements and its exchange with the identity
  provider. `AuthRepository.dfy` is the repository as an object whose methods update its tables; every run of
  the login system is a sequence of its statements. `LoginCompleteness.dfy` shows that a correct login succeeds.
- **Both together** (`Platform.dfy`). A request is resolved, reads its memberships under the bootstrap set of
  the process that serves it, passes the service's gate and starts a transaction. Every joint run projects
  onto a run of each part, so the results about the parts hold in it.
- **Text** (`Text.dfy`). Go's white-space trimming and byte length, characterized without their loops.
- **Authorization** (`Permissions.dfy`, `Authorization.dfy`, `SiteReader.dfy`).

### Assumptions

- The identifier generator never repeats an identifier and never returns the empty text.
- The request hash is whatever byte string the call carries: conflicts are decided on hashes, and the results
  hold for every hash function. SHA-256 of a login state or session token is taken to be injective, so flows
  and sessions are stored under the state or token itself.
- A stored response body decodes to the value that was encoded, so the key row holds the value.
- `memberships` is written by organization creation only, and `principals.status` by nobody.
- The foreign-key check on a principal takes a lock that the principal upsert does not conflict with.
- A nil slice reaches SQL as a NULL array, an empty slice as an empty array.
- The clock of the login system never goes back. In the creation protocol each call brings its own clock
  reading, taken before it may wait, and nothing is assumed about its order.
- Case folding is any map from characters to representatives; text to uuid is any partial map.

### Where code and promise differ

- The domain rule lets an organization-wide principal, one without listed sites, read every site of its
  organization. `ResolvePrincipal` leaves that principal's site list nil, the query then compares with a NULL
  array, and no site is returned (`SiteReader.OrganizationWideReadsNothing`). `SiteReader.ReadExact` and
  `SiteReader.ResolvedReadExact` give the exact condition under which a site is returned. Since creation is the
  only writer of memberships and leaves the site NULL, nobody reads any site (`Platform.NobodyReadsSites`).
- Authentication by session writes back the name and e-mail it read, so it undoes a change of them that commits
  between its read and its write (`LoginProtocol.SessionAuthRestoresRow`, `LoginProtocol.RenameLost`). If no
  other upsert of the subject intervenes only updated_at changes (`LoginProtocol.SessionAuthKeepsRow`).

## Model

| member | source | states |
|---|---|---|
| Idempotency.EqualBytes | internal/platform/idempotency/store.go:105-114 | the OR-of-XOR loop answers true exactly for equal byte strings, of any lengths |
| Schema.InsertsKeepRows | migrations/00001_foundation.sql:5-136 | an INSERT never changes a visible row, whatever identifier it uses |
| Schema.CompletesOnce | internal/platform/idempotency/store.go:90-102 | a second completion of a key row affects no row |
| Text.SpacesAreWhiteSpace | internal/identity/application/organization.go:51-51 | the characters trimmed are those with Unicode's White_Space property |
| Text.TrimSpaceTrims | internal/identity/application/organization.go:51-51 | what TrimSpace leaves neither starts nor ends with white space and is surrounded by nothing but white space |
| Text.TrimsUnique | internal/identity/application/organization.go:51-51 | there is only one such text, so this determines TrimSpace |
| Text.TrimSpaceIdempotent | internal/identity/domain/organization.go:21-24 | trimming twice is trimming once, and leaves nothing exactly of an all-blank text |
| Text.TrimSpaceIgnoresPadding | internal/identity/application/organization.go:51-51 | white space added on the outside does not show after trimming |
| Text.WidthTakes | internal/identity/application/organization.go:52-52 | a character counts the smallest number of bytes that holds its code point in UTF-8 (section 3 of RFC 3629) |
| Text.ByteLenAppend | internal/identity/application/organization.go:52-52 | byte length is additive over concatenation |
| Text.ByteLenBounds | internal/identity/application/organization.go:52-52 | byte length lies between the number of characters and four times it, and equals it exactly for ASCII text |
| OrganizationDomain.Gate | internal/identity/application/organization.go:42-61 | a call is admitted if and only if the permission is held, the key without its outer white space has 8 to 200 bytes and the name is not all white space; a refusal is a 403 for the permission and a 400 otherwise; the key handed on is the raw key without its outer white space |
| OrganizationDomain.GateIgnoresPadding | internal/identity/application/organization.go:51-54 | raw keys that differ in outer white space only get the same answer from the gate |
| OrganizationDomain.SameRowExactly | internal/identity/application/organization.go:51-60 | two raw keys of a principal reach the same key row if and only if they agree up to outer white space |
| OrganizationDomain.RowPassesChecks | internal/identity/domain/organization.go:20-36 | every organization built from a non-blank name satisfies the table's CHECKs, although Go and PostgreSQL trim differently |
| CreateProtocol.StepInv | internal/identity/adapter/postgres/organization_store.go:49-117 | every statement, commit, fault and rollback of any transaction keeps the protocol invariant and every committed row |
| CreateProtocol.RunInv | internal/platform/database/database.go:47-68 | the same over whole runs: rolled-back work never shows, committed rows never change |
| Serializability.Serializable | internal/identity/adapter/postgres/organization_store.go:49-117 | in every run the committed tables and every success and conflict reply are those of the decided calls executed one at a time; each decided call occurs exactly once, lost replies included |
| Serializability.LedgerSerializable | internal/platform/idempotency/store.go:36-80 | the same replies come from a sequential map from (principal, scope, key) to (hash, result) |
| Serializability.SerialCreateRefinesLedger | internal/platform/idempotency/store.go:43-79 | the four-table creation acts on that map exactly as insert-if-absent, compare hash, return stored result |
| Serializability.RealTimeOrder | internal/identity/adapter/postgres/organization_store.go:49-117 | the serial order respects real time: a call decided before another arrives precedes it |
| ExactlyOnce.OneCreation | internal/platform/idempotency/store.go:43-56 | under one key at most one call of a run ever commits a creation, whatever retries and lost replies there are |
| ExactlyOnce.OneResult | internal/platform/httpserver/router.go:143-151 | under one key at most one reply is 201 and all successful replies carry the identical result |
| ExactlyOnce.ReachableErrors | internal/platform/idempotency/store.go:66-74 | in no run does a call end in progress, with a missing or undecodable row, an invalid organization or a unique violation; a conflict is reported only against a committed row with another hash |
| ExactlyOnce.StatusMeaning | internal/platform/httpserver/router.go:143-161 | exactly when a finished call is answered with each status: 201 for a creation and 200 for a replay whose reply arrived, 409 for a rollback after the hash comparison, 500 for a database failure or a lost reply; what 200, 201 and 409 say about the tables |
| ExactlyOnce.CreationStoresRequest | internal/identity/adapter/postgres/organization_store.go:65-116 | in every run a committed creation has stored, column by column, what its call asked for: the name without outer white space, version 1, ownership, times, the Administrator membership, the audit event and the key row; its reply carries that result |
| ExactlyOnce.SuccessReturnsCreation | internal/identity/adapter/postgres/organization_store.go:55-64 | every successful reply of every run goes back to the call that created the organization, with the same key and hash, and carries the id, name, source and version that call asked for |
| ExactlyOnce.CommittedRowsPermanent | internal/platform/idempotency/store.go:90-102 | no committed key row is ever PROCESSING, and committed rows never change or disappear |
| ExactlyOnce.SettledKeyDecides | internal/platform/idempotency/store.go:69-79 | once a key is committed, every call under it that is unfinished or has yet to arrive, those waiting for that commit included, replays the stored result with 200 exactly when its hash is the stored one and conflicts with 409 exactly when it is not, unless the database fails it or loses its reply |
| ExactlyOnce.AllOrNothing | internal/identity/adapter/postgres/organization_store.go:65-116 | from an empty database, in every state of every run, organizations, Administrator memberships, audit events and COMPLETED key rows correspond one to one, and stored body and audit After value equal the organization's result |
| Progress.HoldersRun | internal/platform/idempotency/store.go:43-65 | a transaction that holds a reservation or a row lock is never itself waiting |
| Progress.RowLocksExclusive | internal/platform/idempotency/store.go:60-65 | in every run no two transactions hold the lock of the same key row at once |
| Progress.NoDeadlock | internal/platform/idempotency/store.go:43-68 | whenever a transaction is unfinished, some transaction can take a step that is not a fault |
| Progress.StepLowersMeasure | internal/platform/database/database.go:47-68 | every step but an arrival lowers the summed number of remaining statements |
| Progress.RunBounded | internal/platform/database/database.go:47-68 | a run in which n calls arrive has at most 8n steps |
| Progress.EveryRunCanFinish | internal/platform/database/database.go:47-68 | after any run all pending calls can be finished without a single fault, within the bound |
| Progress.FaultFreeReplies | internal/identity/adapter/postgres/organization_store.go:49-124 | in a run without faults every finished call has its key committed and is answered with 409 exactly when the committed hash is another, otherwise with 201 or 200 |
| Identifiers.Generator.New | internal/platform/id/id.go:11-13 | identifiers are non-empty and never repeat |
| OrganizationStore.Store.Load | internal/platform/idempotency/store.go:56-79 | the reply to a call whose key was found taken: by the stored row, or an error if the row is missing or the SELECT fails |
| OrganizationStore.Store.Insert | internal/identity/adapter/postgres/organization_store.go:65-116 | a fresh creation has written all four rows with three new identifiers, unless the name is blank or one of its statements fails |
| OrganizationStore.Store.Create | internal/identity/adapter/postgres/organization_store.go:31-125 | for every position of a failing statement and every ending of the commit, the exact reply and tables: the sequential creation if nothing fails, no change after a failed statement or refused commit, the complete effect behind a lost reply; a creation stores and returns, column by column, what was asked for |
| Identity.UpsertOk | internal/platform/auth/repository.go:79-88 | the upsert keeps identifiers unique and stable, never stores an empty e-mail, records the claims, sets the times and touches no other row |
| Identity.SessionUpsertIsIdentity | internal/platform/auth/repository.go:162-174 | reading a principal back and upserting it changes updated_at only, if and only if the stored e-mail is not empty text |
| LoginProtocol.SessionHasFlow | internal/platform/auth/oidc.go:110-176 | every session of every run goes back to a successful SaveFlow whose flow left the table for one callback only, was checked unexpired and within ten minutes, matched the cookie state and the token nonce, and the token named a subject and a display name |
| LoginCompleteness.LoginSucceeds | internal/platform/auth/oidc.go:110-176 | conversely, from every reachable state with a stored flow, in any run in which the callback's own acts are proper and nobody else takes the flow, it is never rejected, its next act is always enabled, and its sixth act opens a session accepted for the token's subject, and for nobody else, exactly until the time of minting plus the ttl |
| LoginCompleteness.TrackRun | internal/platform/auth/oidc.go:130-176 | each proper act takes the callback one stage further and no step of others takes it off track |
| LoginCompleteness.LoginPossible | internal/platform/auth/oidc.go:110-176 | from every reachable state with a stored unexpired flow some run ends with the session accepted |
| LoginCompleteness.ArrivalRefused | internal/platform/auth/oidc.go:111-120 | a callback with a provider error or without the matching cookie stays rejected in every run |
| LoginProtocol.OneSessionPerFlow | internal/platform/auth/repository.go:52-67 | two sessions never go back to the same saved flow |
| LoginProtocol.SessionSubject | internal/platform/auth/oidc.go:155-172 | a session authenticates the subject of the identity token it was opened with and nobody else |
| LoginProtocol.SessionLifetime | internal/platform/auth/repository.go:155-187 | from any moment a token is accepted, it is accepted later if and only if it has neither expired nor been revoked meanwhile |
| LoginProtocol.AcceptedExactly | internal/platform/auth/repository.go:162-170 | in every run a stored session is accepted for the subject that opened it, and for nobody else, if and only if it is neither revoked nor expired |
| LoginProtocol.LifetimeFromCreation | internal/platform/auth/repository.go:136-187 | from the INSERT that creates it, over any run, a session authenticates its subject if and only if it has neither expired nor been revoked |
| LoginProtocol.RefusedForever | internal/platform/auth/repository.go:162-170 | a stored session once refused is never accepted again |
| LoginProtocol.OneStretch | internal/platform/auth/repository.go:162-170 | the moments of acceptance form one contiguous stretch |
| LoginProtocol.RevokeTwice | internal/platform/auth/repository.go:177-187 | a second revocation changes nothing, whatever run lies between the two |
| LoginProtocol.StableBijection | internal/platform/auth/repository.go:77-91 | over all logins and requests subjects and principal identifiers stay in one stable bijection |
| LoginProtocol.NobodyAnonymous | internal/platform/auth/oidc.go:245-262 | over every run all stored principals and all requests have a non-empty subject and display name |
| LoginProtocol.SessionAuthKeepsRow | internal/platform/auth/repository.go:155-175 | over any run in which no step between the read and the write upserts that subject, a request authenticated by session changes updated_at of its own row and nothing else |
| LoginProtocol.SessionAuthRestoresRow | internal/platform/auth/repository.go:155-175 | over any run at all, the upsert of a request authenticated by session puts back the row as it was read, with a new updated_at, whatever happened to the row in between |
| LoginProtocol.RenameLost | internal/platform/auth/repository.go:79-88 | from every reachable state with an accepted session there is a run in which a bearer request's new claims are overwritten by the older ones |
| Permissions.TablesAgree | internal/platform/auth/repository.go:189-202 | the permissions listed role by role are those given permission by permission |
| Permissions.Assemble | internal/platform/auth/repository.go:109-133 | the loops produce exactly the permissions that some row's role carries, plus creation for a bootstrap subject, the strictly increasing list of non-empty sites, nil exactly when there is none, and the first organization |
| Permissions.FirstIsEarliest | internal/platform/auth/repository.go:103-117 | with rows in created_at order the first organization is that of an earliest membership |
| Permissions.LessByFirstDifference | internal/platform/auth/repository.go:129-129 | the sort order is Go's: the first differing character decides and a proper prefix comes first |
| Permissions.IncreasingUnique | internal/platform/auth/repository.go:126-129 | a strictly increasing list is determined by its elements |
| Permissions.AssembledUnique | internal/platform/auth/repository.go:109-133 | neither the order of rows nor the iteration order of the site map can be seen in permissions and sites |
| Permissions.AssembledHolds | internal/platform/auth/repository.go:121-132 | the assembled permissions are those granted by the principal's committed memberships, plus bootstrap |
| Permissions.HoldsExactly | internal/platform/auth/repository.go:189-202 | creation is held by Administrators and bootstrap subjects, publishing by Administrators, approval by Administrators and Maintenance Supervisors, review by these and Senior Technicians, and by nobody else |
| AuthRepository.QueryMemberships | internal/platform/auth/repository.go:99-104 | each row of the principal exactly once and no other, in created_at order |
| AuthRepository.Repository.SaveFlow | internal/platform/auth/repository.go:35-50 | executes the INSERT unless the database refuses it; reports success exactly when the state was free and the reply arrived |
| AuthRepository.Repository.ConsumeFlow | internal/platform/auth/repository.go:52-67 | unless the DELETE fails the flow is gone; it is returned exactly when the reply arrives and it is unexpired |
| AuthRepository.Repository.ResolvePrincipal | internal/platform/auth/repository.go:69-134 | for every fault: upserts the row unless refused, keeps every identifier, and returns each of the four permissions exactly if a membership's role or bootstrap gives it, exactly the sites of the memberships and the organization of the earliest one |
| AuthRepository.Repository.CreateSession | internal/platform/auth/repository.go:136-153 | stores a live session unless the token is taken or the database refuses; reports success exactly when it did and the reply arrived |
| AuthRepository.Repository.PrincipalForSession | internal/platform/auth/repository.go:155-175 | without a fault succeeds exactly for live sessions of active principals; in every case leaves all rows as they were except for updated_at of its own |
| AuthRepository.Repository.RevokeSession | internal/platform/auth/repository.go:177-187 | unless refused stamps the first revocation and no later one |
| AuthRepository.RunExecutes | internal/platform/auth/repository.go:35-187 | the tables after any run of the login system are those produced by the repository's statements one after another, at most one for each step |
| AuthRepository.ConsumeAgrees | internal/platform/auth/oidc.go:130-134 | a racing callback passes its DELETE and later expiry check, with any run in between, exactly when ConsumeFlow would return a flow, and holds that flow |
| Authorization.CanApprove | internal/identity/domain/authorization.go:111-126 | the scan approves exactly when the permission is held and some grant matches |
| Authorization.MatchesItself | internal/identity/domain/authorization.go:82-109 | a live grant matches what it was written for exactly up to its ceiling and inside its half-open window |
| Authorization.Boundaries | internal/identity/domain/authorization.go:99-107 | it matches at the ceiling and at the first moment, not one above, not one before and not at the end |
| Authorization.SubsumedMatches | internal/identity/domain/authorization.go:82-109 | a grant with wider scope, ceiling and window matches whatever the narrower one matches |
| Authorization.SubsumesExact | internal/identity/domain/authorization.go:82-109 | for a usable grant that condition is exact: it holds if and only if the other grant matches at least as much, for every folding, subject and request |
| Authorization.PruningPreservesApproval | internal/identity/domain/authorization.go:111-126 | dropping subsumed or revoked grants any number of times changes no decision for any principal, permission or request |
| SiteReader.CanAccessSite | internal/identity/domain/authorization.go:42-55 | the scan decides the access rule |
| SiteReader.AccessRefused | internal/identity/domain/authorization.go:42-55 | sites of another organization are refused with or without listed sites, and unlisted ones when sites are listed |
| SiteReader.ReadExact | internal/identity/adapter/postgres/site_reader.go:18-51 | under three-valued logic a site is returned if and only if it exists, the rule allows it and the site list is not nil |
| SiteReader.QueryFailsExactly | internal/identity/adapter/postgres/site_reader.go:24-46 | the lookup ends in an error exactly when the site, organization or a listed site identifier is no uuid |
| SiteReader.ResolvedReadExact | internal/identity/adapter/postgres/site_reader.go:18-51 | for a principal as assembled from its memberships, a site is returned if and only if it exists, the rule allows it and some membership names it |
| SiteReader.FilterAgrees | internal/identity/adapter/postgres/site_reader.go:24-33 | with sites listed, filter and rule accept the same rows, so the second check rejects nothing |
| SiteReader.ReadAllowed | internal/identity/adapter/postgres/site_reader.go:47-50 | whatever is returned satisfies the rule, canonical identifiers or not: a site of the principal's own organization, and a listed one if sites are listed |
| SiteReader.OrganizationWideReadsNothing | internal/identity/adapter/postgres/site_reader.go:24-33 | a principal assembled from organization-wide memberships is allowed every site of its organization by the rule and is returned none |
| Platform.PermissionProvenance | internal/platform/auth/repository.go:99-134 | from an empty database, whoever is ever granted a permission, calls the store or administers an organization is a bootstrap subject |
| Platform.NoBootstrapNoOrganization | internal/identity/application/organization.go:48-50 | with no bootstrap subject no run ever commits an organization |
| Platform.BootstrapCanCreate | internal/platform/auth/repository.go:130-132 | conversely, any single bootstrap subject is enough for some run to commit an organization |
| Platform.SchemaIntegrity | migrations/00001_foundation.sql:5-56 | in every state of every run the committed tables, and every running transaction's view, satisfy all CHECKs and foreign keys, whatever sites exist |
| Platform.NobodyReadsSites | internal/identity/adapter/postgres/site_reader.go:24-50 | in every run, a principal assembled from anyone's committed memberships is returned no site at all, although the rule allows it every site of its organization |
| Platform.StoreProjection | internal/identity/application/organization.go:42-61 | every joint run contains a run of the creation protocol |
| Platform.LoginProjection | internal/platform/auth/oidc.go:219-238 | every joint run contains a run of the login system |
| Platform.CreatorPermitted | internal/platform/auth/repository.go:189-195 | the creator of a committed key holds all four permissions under any bootstrap set |
| Platform.ReadGrantsExactly | internal/platform/auth/repository.go:99-134 | in every run a request that reads its memberships is granted everything if its principal has created an organization, creation only if it is merely a bootstrap subject, and nothing otherwise |
| Platform.CreatorKeepsEverything | internal/platform/auth/repository.go:189-195 | once a creation commits, its creator is granted all four permissions at every later read and keeps them in every later state |
| Platform.RetrySurvivesBootstrapLoss | internal/identity/application/organization.go:48-61 | after a creation commits, a request of the same subject that reads its memberships at any later time, under any bootstrap set, and submits the same key and body any time after that, passes the gate, reaches the same key row and can only replay the stored result or meet a database failure |

## Left out

- HTTP routing, cookies as wire format, headers, logging and JSON decoding limits: only outcomes and their statuses are kept.
- OIDC discovery, token exchange, signature verification, PKCE and random tokens: what the identity provider says is an input of the callback.
- `safeReturnTo`: its meaning lies in the URL parser.
- Text-encoding rejections by PostgreSQL and timeouts: they are among the faults that may strike any statement.
- Audit columns that creation leaves NULL (reason, request, execution, workflow, approval): they carry nothing here.
- Stability of a principal's organization: it is the organization of the earliest membership by created_at, and a clock reading taken before waiting may place a later commit first.
- Configuration, background jobs, object storage, packaging and migrations as programs: wrappers without logic of their own.
- Source-of-truth validation: one three-way switch.
