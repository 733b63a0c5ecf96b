/** What callers and tables are promised in every run: one effect, one result, no partial rows. */
module ExactlyOnce {
  import opened Prelude
  import opened Schema
  import opened OrganizationDomain
  import opened CreateProtocol

  // ----- One effect and one result per key -----

  lemma RunsInv(run: seq<Step>)
    requires ValidRun(INITIAL, run)
    ensures Inv(Exec(INITIAL, run))
  {
    InitialInv();
    RunInv(INITIAL, run);
  }

  /** Under one key at most one call ever commits a creation, however many retries and lost replies. */
  lemma OneCreation(run: seq<Step>, t: nat, u: nat)
    requires ValidRun(INITIAL, run)
    requires var s := Exec(INITIAL, run);
             && t < |s.txs| && u < |s.txs| && s.txs[t].call.Key() == s.txs[u].call.Key()
             && s.txs[t].pc.Finished? && s.txs[t].pc.fate == CommittedFresh
             && s.txs[u].pc.Finished? && s.txs[u].pc.fate == CommittedFresh
    ensures t == u
  {
    RunsInv(run);
    var s := Exec(INITIAL, run);
    assert TxOk(s.db, s.txs[t]) && TxOk(s.db, s.txs[u]);
    assert s.txs[t].ids[0] == s.txs[u].ids[0];
    assert s.txs[t].ids[0] in s.txs[t].ids && s.txs[u].ids[0] in s.txs[u].ids;
  }

  /** At most one 201 per key, and every success under a key carries the identical result. */
  lemma OneResult(run: seq<Step>, t: nat, u: nat)
    requires ValidRun(INITIAL, run)
    requires var s := Exec(INITIAL, run);
             && t < |s.txs| && u < |s.txs| && s.txs[t].call.Key() == s.txs[u].call.Key()
             && s.txs[t].pc.Finished? && s.txs[t].pc.reply.Success?
             && s.txs[u].pc.Finished? && s.txs[u].pc.reply.Success?
    ensures var s := Exec(INITIAL, run);
            && s.txs[t].pc.reply.result == s.txs[u].pc.reply.result
            && (HttpStatus(s.txs[t].pc.reply) == 201 && HttpStatus(s.txs[u].pc.reply) == 201 ==> t == u)
  {
    RunsInv(run);
    var s := Exec(INITIAL, run);
    assert TxOk(s.db, s.txs[t]) && TxOk(s.db, s.txs[u]);
    if HttpStatus(s.txs[t].pc.reply) == 201 && HttpStatus(s.txs[u].pc.reply) == 201 {
      OneCreation(run, t, u);
    }
  }

  /**
   The only errors a call of the store can end with are a key conflict, a database failure and a lost
   commit reply: the in-progress, missing-row, undecodable, invalid-organization and unique-violation
   branches are unreachable. A conflict is reported only against a committed row with another hash.
   */
  lemma ReachableErrors(run: seq<Step>, t: nat)
    requires ValidRun(INITIAL, run)
    requires t < |Exec(INITIAL, run).txs|
    ensures var s := Exec(INITIAL, run);
            && (s.txs[t].pc.RollingBack? ==> s.txs[t].pc.error in {KeyConflict, DatabaseFailure})
            && (s.txs[t].pc.Finished? && s.txs[t].pc.reply.Failure? ==>
                  s.txs[t].pc.reply.error in {KeyConflict, DatabaseFailure, ReplyLost})
            && (s.txs[t].pc.Finished? && s.txs[t].pc.reply == Failure(KeyConflict) ==>
                  Contradicted(s.db, s.txs[t].call))
  {
    RunsInv(run);
    assert TxOk(Exec(INITIAL, run).db, Exec(INITIAL, run).txs[t]);
  }

  /**
   The status a caller sees tells exactly how its call ended: 201 for a creation and 200 for a replay
   whose reply arrived, 409 for a rollback after the hash comparison, 500 for a failure of the database
   or a lost reply. In the first two cases the result is stored, in the third the key is contradicted.
   */
  lemma StatusMeaning(run: seq<Step>, t: nat)
    requires ValidRun(INITIAL, run)
    requires t < |Exec(INITIAL, run).txs| && Exec(INITIAL, run).txs[t].pc.Finished?
    ensures var s := Exec(INITIAL, run); var tx := s.txs[t]; var (fate, reply) := (tx.pc.fate, tx.pc.reply);
            var (status, arrived) := (HttpStatus(reply), reply != Failure(ReplyLost));
            && (status == 201 <==> fate == CommittedFresh && arrived)
            && (status == 200 <==> fate == CommittedReplay && arrived)
            && (status == 409 <==> fate == RolledBack && reply != Failure(DatabaseFailure))
            && (status == 500 <==> !arrived || reply == Failure(DatabaseFailure))
            && (status in {200, 201} ==> reply.Success? && Settled(s.db, tx.call, reply.result))
            && (status == 409 ==> Contradicted(s.db, tx.call))
            && (!arrived ==> fate != RolledBack)
  {
    RunsInv(run);
    assert TxOk(Exec(INITIAL, run).db, Exec(INITIAL, run).txs[t]);
  }

  // ----- What a creation stores, and what every success returns -----

  predicate CommittedUnder(tx: Tx, k: Key) {
    tx.pc.Finished? && tx.pc.fate == CommittedFresh && tx.call.Key() == k
  }

  /** A committed creation has stored, column by column, what its caller asked for, and replied with it. */
  lemma CreationStoresRequest(run: seq<Step>, t: nat)
    requires ValidRun(INITIAL, run) && t < |Exec(INITIAL, run).txs|
    requires CommittedUnder(Exec(INITIAL, run).txs[t], Exec(INITIAL, run).txs[t].call.Key())
    ensures var s := Exec(INITIAL, run); var tx := s.txs[t];
            && |tx.ids| == 3 && StoredExactly(s.db, tx.call, tx.now, tx.ids)
            && (tx.pc.reply.Success? ==> !tx.pc.reply.replay && IsResult(tx.pc.reply.result, tx.ids[0], tx.call.name))
  {
    RunsInv(run);
    var s := Exec(INITIAL, run);
    var tx := s.txs[t];
    assert TxOk(s.db, tx);
    assert tx.ids[0] in tx.ids && tx.ids[0] in s.issued;
    CreatedAsAsked(s.db, tx.call, tx.now, tx.ids);
  }

  ghost predicate HasCreator(s: State, k: Key) {
    exists t :: 0 <= t < |s.txs| && CommittedUnder(s.txs[t], k)
  }

  lemma CreatorStep(s: State, step: Step, k: Key)
    requires AllOk(s) && Enabled(s, step) && k in Apply(s, step).db.keys && (k in s.db.keys ==> HasCreator(s, k))
    ensures HasCreator(Apply(s, step), k)
  {
    var s' := Apply(s, step);
    if k in s.db.keys {
      var t :| 0 <= t < |s.txs| && CommittedUnder(s.txs[t], k);
      assert s'.txs[t] == s.txs[t];
    } else {
      assert TxOk(s.db, s.txs[step.t]);
      assert CommittedUnder(s'.txs[step.t], k);
    }
  }

  lemma {:induction false} CreatorRun(s: State, run: seq<Step>, k: Key)
    requires Inv(s) && ValidRun(s, run) && k in Exec(s, run).db.keys && (k in s.db.keys ==> HasCreator(s, k))
    ensures HasCreator(Exec(s, run), k)
    decreases |run|
  {
    if run == [] {
    } else {
      StepInv(s, run[0]);
      if k in Apply(s, run[0]).db.keys { CreatorStep(s, run[0], k); }
      CreatorRun(Apply(s, run[0]), run[1..], k);
    }
  }

  /**
   Every success of every run goes back to the one call that created its organization: the same key and
   hash, and a result that is what that call asked for.
   */
  lemma SuccessReturnsCreation(run: seq<Step>, u: nat) returns (t: nat)
    requires ValidRun(INITIAL, run) && u < |Exec(INITIAL, run).txs|
    requires Exec(INITIAL, run).txs[u].pc.Finished? && Exec(INITIAL, run).txs[u].pc.reply.Success?
    ensures var s := Exec(INITIAL, run); var call := s.txs[u].call;
            && t < |s.txs| && CommittedUnder(s.txs[t], call.Key()) && s.txs[t].call.hash == call.hash
            && |s.txs[t].ids| == 3 && IsResult(s.txs[u].pc.reply.result, s.txs[t].ids[0], s.txs[t].call.name)
  {
    InitialInv();
    RunsInv(run);
    var s := Exec(INITIAL, run);
    assert TxOk(s.db, s.txs[u]);
    CreatorRun(INITIAL, run, s.txs[u].call.Key());
    t :| 0 <= t < |s.txs| && CommittedUnder(s.txs[t], s.txs[u].call.Key());
    CreationStoresRequest(run, t);
  }

  /** No committed key row is PROCESSING, and committed rows never change or disappear. */
  lemma CommittedRowsPermanent(a: seq<Step>, b: seq<Step>)
    requires ValidRun(INITIAL, a) && ValidRun(Exec(INITIAL, a), b)
    ensures KeysCompleted(Exec(INITIAL, a).db)
    ensures Extends(Exec(INITIAL, a).db, Exec(Exec(INITIAL, a), b).db)
  {
    RunsInv(a);
    RunInv(Exec(INITIAL, a), b);
  }

  /** The reply is the one the stored row dictates, unless the database failed the call or lost its reply. */
  predicate Dictated(row: KeyRow, hash: Bytes, reply: Reply) {
    || reply == Failure(DatabaseFailure) || reply == Failure(ReplyLost)
    || (if row.hash == hash then row.responseBody.Some? && reply == Success(row.responseBody.value, true)
        else reply == Failure(KeyConflict))
  }

  /**
   Once a key is committed, every call under it that is still unfinished or has yet to arrive can only
   replay, conflict or fail. This includes the calls that were waiting for the commit.
   */
  lemma SettledKeyDecides(s: State, run: seq<Step>, t: nat)
    requires Inv(s) && ValidRun(s, run)
    requires t < |s.txs| ==> !s.txs[t].pc.Finished?
    requires t < |Exec(s, run).txs| && Exec(s, run).txs[t].pc.Finished?
    requires Exec(s, run).txs[t].call.Key() in s.db.keys
    ensures var tx := Exec(s, run).txs[t]; Dictated(s.db.keys[tx.call.Key()], tx.call.hash, tx.pc.reply)
    ensures var tx := Exec(s, run).txs[t];
            tx.pc.reply !in {Failure(DatabaseFailure), Failure(ReplyLost)} ==>
              HttpStatus(tx.pc.reply) == if tx.call.hash == s.db.keys[tx.call.Key()].hash then 200 else 409
  {
    RunInv(s, run);
    var s' := Exec(s, run);
    assert TxOk(s'.db, s'.txs[t]);
    if s'.txs[t].pc.fate == CommittedFresh {
      if t < |s.txs| { assert TxOk(s.db, s.txs[t]); }
      LateCallsNeverCreate(s.db, s, run, t);
    }
  }

  /** A call keeps its arguments for as long as it exists. */
  lemma {:induction false} CallStays(s: State, run: seq<Step>, t: nat)
    requires ValidRun(s, run) && t < |s.txs|
    ensures t < |Exec(s, run).txs| && Exec(s, run).txs[t].call == s.txs[t].call
    decreases |run|
  {
    if run == [] {
    } else {
      CallStays(Apply(s, run[0]), run[1..], t);
    }
  }

  /** A retry: the key is committed, and the new call with it is followed to its end. */
  lemma StartedRetry(s: State, c: Call, now: Time, run: seq<Step>)
    requires Inv(s) && !Blank(c.name) && c.Key() in s.db.keys
    requires ValidRun(Apply(s, Start(c, now)), run)
    ensures var (s', t) := (Exec(Apply(s, Start(c, now)), run), |s.txs|);
            && t < |s'.txs|
            && (s'.txs[t].pc.Finished? ==> Dictated(s.db.keys[c.Key()], c.hash, s'.txs[t].pc.reply))
  {
    var all := [Start(c, now)] + run;
    assert all[0] == Start(c, now) && all[1..] == run;
    CallStays(Apply(s, Start(c, now)), run, |s.txs|);
    if Exec(s, all).txs[|s.txs|].pc.Finished? { SettledKeyDecides(s, all, |s.txs|); }
  }

  /** The transaction has drawn no identifier, or its work is undone or about to be. */
  predicate Idle(tx: Tx) {
    tx.ids == [] || tx.pc.RollingBack? || (tx.pc.Finished? && tx.pc.fate == RolledBack)
  }

  /** A call whose key was committed before it finished creates nothing. */
  ghost predicate LateIdle(db: Tables, s: State, t: nat) {
    t < |s.txs| && s.txs[t].call.Key() in db.keys ==> Idle(s.txs[t])
  }

  lemma DrawsNothing(s: State, step: Step)
    requires Enabled(s, step) && !step.Start? && TxOk(s.db, s.txs[step.t])
    requires s.txs[step.t].call.Key() in s.db.keys
    ensures Advance(s, step).ids == s.txs[step.t].ids
  {
    var tx := s.txs[step.t];
    assert tx.writes.key.None?;
    assert !step.InsertOrg? && !step.InsertMember? && !step.Append?;
  }

  lemma IdleStep(s: State, step: Step)
    requires Enabled(s, step) && !step.Start? && TxOk(s.db, s.txs[step.t])
    requires s.txs[step.t].call.Key() in s.db.keys && Idle(s.txs[step.t])
    ensures Idle(Advance(s, step)) && Advance(s, step).call == s.txs[step.t].call
  {
    DrawsNothing(s, step);
  }

  lemma LateStep(db: Tables, s: State, step: Step, t: nat)
    requires t < |s.txs| ==> TxOk(s.db, s.txs[t])
    requires Enabled(s, step) && Extends(db, s.db) && LateIdle(db, s, t)
    ensures LateIdle(db, Apply(s, step), t)
  {
    var s' := Apply(s, step);
    if step.Start? {
      assert t < |s.txs| ==> s'.txs[t] == s.txs[t];
    } else if t == step.t {
      assert s'.txs[t] == Advance(s, step);
      if s.txs[t].call.Key() in db.keys { IdleStep(s, step); }
    } else {
      assert t < |s.txs| ==> s'.txs[t] == s.txs[t];
    }
  }

  lemma {:induction false} LateCallsNeverCreate(db: Tables, s: State, run: seq<Step>, t: nat)
    requires Inv(s) && Extends(db, s.db) && ValidRun(s, run) && LateIdle(db, s, t)
    ensures LateIdle(db, Exec(s, run), t)
    decreases |run|
  {
    if run == [] {
    } else {
      StepInv(s, run[0]);
      LateStep(db, s, run[0], t);
      ExtendsTransitive(db, s.db, Apply(s, run[0]).db);
      LateCallsNeverCreate(db, Apply(s, run[0]), run[1..], t);
    }
  }

  lemma ExtendsTransitive(a: Tables, b: Tables, c: Tables)
    requires Extends(a, b) && Extends(b, c)
    ensures Extends(a, c)
  {
  }

  // ----- All or nothing across the four tables -----

  /** `of` maps the rows of a table one-to-one onto `ids`. */
  ghost predicate Bijective<K(!new), V>(rows: map<K, V>, of: V -> Id, ids: set<Id>) {
    && (forall k :: k in rows ==> of(rows[k]) in ids)
    && (forall k, k' :: k in rows && k' in rows && of(rows[k]) == of(rows[k']) ==> k == k')
    && (forall o :: o in ids ==> exists k :: k in rows && of(rows[k]) == o)
  }

  lemma BijectiveAdd<K(!new), V>(rows: map<K, V>, of: V -> Id, ids: set<Id>, k: K, v: V)
    requires Bijective(rows, of, ids) && k !in rows && of(v) !in ids
    ensures Bijective(rows[k := v], of, ids + {of(v)})
  {
    var rows' := rows[k := v];
    forall o | o in ids + {of(v)} ensures exists k :: k in rows' && of(rows'[k]) == o {
      if o == of(v) {
        assert k in rows' && of(rows'[k]) == o;
      } else {
        var k0 :| k0 in rows && of(rows[k0]) == o;
        assert k0 in rows' && of(rows'[k0]) == o;
      }
    }
  }

  function RecordedId(r: KeyRow): Id { if r.responseBody.Some? then r.responseBody.value.id else "" }
  function MemberOf(m: Membership): Id { m.organization }
  function EntityOf(a: AuditEvent): Id { a.entityId }

  /** Key row `k` stores the result of its organization. */
  predicate RecordsResult(db: Tables, k: Key) {
    && k in db.keys && db.keys[k].status == Completed
    && RecordedId(db.keys[k]) in db.organizations
    && db.keys[k].responseBody == Some(ResultOf(db.organizations[RecordedId(db.keys[k])]))
  }

  /** Membership `m` makes the principal of `k` the administrator of its organization. */
  predicate Administers(db: Tables, k: Key, m: Id)
    requires k in db.keys && m in db.memberships
  {
    db.memberships[m].organization == RecordedId(db.keys[k]) ==>
      db.memberships[m] == AdministratorRow(k.principal, RecordedId(db.keys[k]), db.memberships[m].createdAt)
  }

  /** Audit event `a` reports the creation with the stored result as its After value. */
  predicate Reports(db: Tables, k: Key, a: Id)
    requires k in db.keys && a in db.audit
  {
    db.audit[a].entityId == RecordedId(db.keys[k]) ==>
      && db.audit[a].action == OrganizationCreated
      && db.audit[a].actor == NullIf(k.principal)
      && db.audit[a].after == db.keys[k].responseBody
  }

  /** Organizations, memberships, audit events and key rows are in one-to-one correspondence. */
  ghost predicate OneToOne(db: Tables) {
    && Bijective(db.keys, RecordedId, db.organizations.Keys)
    && Bijective(db.memberships, MemberOf, db.organizations.Keys)
    && Bijective(db.audit, EntityOf, db.organizations.Keys)
    && (forall k :: k in db.keys ==> RecordsResult(db, k))
    && (forall k, m :: k in db.keys && m in db.memberships ==> Administers(db, k, m))
    && (forall k, a :: k in db.keys && a in db.audit ==> Reports(db, k, a))
  }

  lemma CreationBijective(db: Tables, c: Call, now: Time, ids: seq<Id>)
    requires OneToOne(db) && |ids| == 3 && c.Key() !in db.keys
    requires ids[0] !in db.organizations && ids[1] !in db.memberships && ids[2] !in db.audit
    ensures var db' := db.Merge(CreatedRows(c, now, ids));
            && Bijective(db'.keys, RecordedId, db'.organizations.Keys)
            && Bijective(db'.memberships, MemberOf, db'.organizations.Keys)
            && Bijective(db'.audit, EntityOf, db'.organizations.Keys)
  {
    var w := CreatedRows(c, now, ids);
    assert db.Merge(w).organizations.Keys == db.organizations.Keys + {ids[0]};
    BijectiveAdd(db.keys, RecordedId, db.organizations.Keys, c.Key(), w.key.value.1);
    BijectiveAdd(db.memberships, MemberOf, db.organizations.Keys, ids[1], w.membership.value.1);
    BijectiveAdd(db.audit, EntityOf, db.organizations.Keys, ids[2], w.audit.value.1);
  }

  lemma CreationRecords(db: Tables, c: Call, now: Time, ids: seq<Id>, k: Key)
    requires |ids| == 3 && c.Key() !in db.keys && ids[0] !in db.organizations
    requires RecordsResult(db, k) || k == c.Key()
    ensures RecordsResult(db.Merge(CreatedRows(c, now, ids)), k)
  {
  }

  lemma CreationAdministers(db: Tables, c: Call, now: Time, ids: seq<Id>, k: Key, m: Id)
    requires |ids| == 3 && c.Key() !in db.keys && ids[0] !in db.organizations
    requires RecordsResult(db, k) || k == c.Key()
    requires m == ids[1] || (m in db.memberships && MemberOf(db.memberships[m]) in db.organizations)
    requires k in db.keys && m in db.memberships ==> Administers(db, k, m)
    ensures Administers(db.Merge(CreatedRows(c, now, ids)), k, m)
  {
  }

  lemma CreationReports(db: Tables, c: Call, now: Time, ids: seq<Id>, k: Key, a: Id)
    requires |ids| == 3 && c.Key() !in db.keys && ids[0] !in db.organizations
    requires RecordsResult(db, k) || k == c.Key()
    requires a == ids[2] || (a in db.audit && EntityOf(db.audit[a]) in db.organizations)
    requires k in db.keys && a in db.audit ==> Reports(db, k, a)
    ensures Reports(db.Merge(CreatedRows(c, now, ids)), k, a)
  {
  }

  lemma CreationOneToOne(db: Tables, c: Call, now: Time, ids: seq<Id>)
    requires OneToOne(db) && |ids| == 3 && c.Key() !in db.keys
    requires ids[0] !in db.organizations && ids[1] !in db.memberships && ids[2] !in db.audit
    ensures OneToOne(db.Merge(CreatedRows(c, now, ids)))
  {
    var db' := db.Merge(CreatedRows(c, now, ids));
    assert Bijective(db'.keys, RecordedId, db'.organizations.Keys)
        && Bijective(db'.memberships, MemberOf, db'.organizations.Keys)
        && Bijective(db'.audit, EntityOf, db'.organizations.Keys) by { CreationBijective(db, c, now, ids); }
    forall k | k in db'.keys ensures RecordsResult(db', k) { CreationRecords(db, c, now, ids, k); }
    forall k, m | k in db'.keys && m in db'.memberships ensures Administers(db', k, m) {
      CreationAdministers(db, c, now, ids, k, m);
    }
    forall k, a | k in db'.keys && a in db'.audit ensures Reports(db', k, a) {
      CreationReports(db, c, now, ids, k, a);
    }
  }

  lemma CommitOneToOne(db: Tables, tx: Tx)
    requires TxOk(db, tx) && tx.pc.Committing? && !tx.pc.replay && OneToOne(db)
    ensures OneToOne(db.Merge(tx.writes))
  {
    assert tx.ids[0] in tx.ids && tx.ids[1] in tx.ids && tx.ids[2] in tx.ids;
    CreationOneToOne(db, tx.call, tx.now, tx.ids);
  }

  lemma StepOneToOne(s: State, step: Step)
    requires Inv(s) && Enabled(s, step) && OneToOne(s.db)
    ensures OneToOne(Apply(s, step).db)
  {
    if step.Commit? {
      var tx := s.txs[step.t];
      assert TxOk(s.db, tx);
      if tx.pc.replay {
        assert s.db.Merge(NO_WRITES) == s.db;
      } else {
        CommitOneToOne(s.db, tx);
      }
    }
  }

  lemma {:induction false} RunOneToOne(s: State, run: seq<Step>)
    requires Inv(s) && ValidRun(s, run) && OneToOne(s.db)
    ensures OneToOne(Exec(s, run).db)
    decreases |run|
  {
    if run == [] {
    } else {
      StepInv(s, run[0]);
      StepOneToOne(s, run[0]);
      RunOneToOne(Apply(s, run[0]), run[1..]);
    }
  }

  /** From an empty database, in every state of every run, the four tables correspond row by row. */
  lemma AllOrNothing(run: seq<Step>)
    requires ValidRun(INITIAL, run)
    ensures OneToOne(Exec(INITIAL, run).db)
  {
    InitialInv();
    RunOneToOne(INITIAL, run);
  }
}
