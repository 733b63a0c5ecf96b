/** Principals, login flows and web sessions: the rows and the statements of the auth repository. */
module Identity {
  import opened Prelude

  datatype Claims = Claims(subject: string, displayName: string, email: string)

  /** Stored under its unique external subject. */
  datatype PrincipalRow = PrincipalRow(
    id: Id, displayName: string, email: Option<string>, active: bool, createdAt: Time, updatedAt: Time)

  type Principals = map<string, PrincipalRow>

  datatype Flow = Flow(nonce: string, pkceVerifier: string, returnTo: string, expiresAt: Time)

  datatype Session = Session(
    principal: Id, expiresAt: Time, createdAt: Time, lastSeenAt: Time, revokedAt: Option<Time>)

  /** INSERT ... ON CONFLICT (external_subject) DO UPDATE; `id` is used only for a new subject. */
  function Upsert(ps: Principals, c: Claims, id: Id, now: Time): Principals {
    if c.subject in ps then
      ps[c.subject := ps[c.subject].(displayName := c.displayName, email := NullIf(c.email), updatedAt := now)]
    else
      ps[c.subject := PrincipalRow(id, c.displayName, NullIf(c.email), true, now, now)]
  }

  /** The claims that PrincipalForSession reads back from a stored row. */
  function StoredClaims(ps: Principals, subject: string): Claims
    requires subject in ps
  {
    Claims(subject, ps[subject].displayName, Coalesce(ps[subject].email))
  }

  /** `subject` is the active principal of a session that is neither revoked nor expired at `now`. */
  predicate Authenticates(ps: Principals, sessions: map<string, Session>, token: string, now: Time, subject: string) {
    && token in sessions
    && sessions[token].revokedAt.None?
    && sessions[token].expiresAt > now
    && subject in ps && ps[subject].id == sessions[token].principal && ps[subject].active
  }

  /** UPDATE ... SET revoked_at WHERE token_hash AND revoked_at IS NULL. */
  function Revoke(sessions: map<string, Session>, token: string, now: Time): map<string, Session> {
    if token in sessions && sessions[token].revokedAt.None? then
      sessions[token := sessions[token].(revokedAt := Some(now))]
    else sessions
  }

  // ----- Subjects and principal identifiers -----

  /** Identifiers are unique, and a stored e-mail is never the empty string. */
  ghost predicate PrincipalsOk(ps: Principals) {
    && (forall a, b :: a in ps && b in ps && ps[a].id == ps[b].id ==> a == b)
    && (forall a :: a in ps ==> ps[a].email != Some("") && ps[a].id != "")
  }

  ghost predicate AllActive(ps: Principals) { forall a :: a in ps ==> ps[a].active }

  ghost predicate NewId(ps: Principals, id: Id) {
    id != "" && forall a :: a in ps ==> ps[a].id != id
  }

  /** Every subject keeps its identifier. */
  ghost predicate SameIds(ps: Principals, ps': Principals) {
    forall a :: a in ps ==> a in ps' && ps'[a].id == ps[a].id && ps'[a].active == ps[a].active
  }

  lemma UpsertOk(ps: Principals, c: Claims, id: Id, now: Time)
    requires PrincipalsOk(ps) && NewId(ps, id)
    ensures PrincipalsOk(Upsert(ps, c, id, now)) && SameIds(ps, Upsert(ps, c, id, now))
    ensures var ps' := Upsert(ps, c, id, now);
            && ps'.Keys == ps.Keys + {c.subject}
            && (c.subject !in ps ==>
                  ps'[c.subject].id == id && ps'[c.subject].active && ps'[c.subject].createdAt == now)
            && (c.subject in ps ==> ps'[c.subject].createdAt == ps[c.subject].createdAt)
            && ps'[c.subject].updatedAt == now
            && ps'[c.subject].displayName == c.displayName && Coalesce(ps'[c.subject].email) == c.email
            && (forall a :: a in ps && a != c.subject ==> ps'[a] == ps[a])
  {
  }

  /**
   Authenticating by session writes back what it read: only updated_at changes. This needs the stored
   e-mail never to be empty text, since coalesce then nullif would turn it into NULL.
   */
  lemma SessionUpsertIsIdentity(ps: Principals, subject: string, id: Id, now: Time)
    requires subject in ps
    ensures Upsert(ps, StoredClaims(ps, subject), id, now) == ps[subject := ps[subject].(updatedAt := now)]
            <==> ps[subject].email != Some("")
  {
    var ps' := Upsert(ps, StoredClaims(ps, subject), id, now);
    assert ps'[subject].email == NullIf(Coalesce(ps[subject].email));
    if ps[subject].email == Some("") {
      assert ps'[subject] != ps[subject].(updatedAt := now);
    }
  }
}
