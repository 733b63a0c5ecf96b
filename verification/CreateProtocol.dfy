/**
 Organization creation as a step system: any number of store calls, each one transaction whose SQL
 statements interleave freely under READ COMMITTED. A step is one statement, a commit, a rollback, a
 fault, or the arrival of a new call.
 */
module CreateProtocol {
  import opened Prelude
  import opened Text
  import opened Schema
  import opened Idempotency
  import opened OrganizationDomain

  datatype Fate = RolledBack | CommittedFresh | CommittedReplay

  /** The statement a transaction executes next. */
  datatype Pc =
    | Reserving                                             // INSERT the key row ON CONFLICT DO NOTHING
    | Loading                                               // SELECT the key row FOR UPDATE
    | InsertingOrganization
    | InsertingMembership(organization: Organization)
    | Auditing(organization: Organization)
    | Completing(result: OrganizationResult)                // UPDATE the key row to COMPLETED
    | Committing(result: OrganizationResult, replay: bool)
    | RollingBack(error: Error)                             // failed; its locks are held until the rollback
    | Finished(reply: Reply, fate: Fate)

  /** `ids` are the identifiers the call has drawn; `locked` says it holds the row lock of its key row. */
  datatype Tx = Tx(call: Call, now: Time, ids: seq<Id>, pc: Pc, writes: Writes, locked: bool)

  datatype State = State(db: Tables, txs: seq<Tx>, issued: set<Id>)

  const INITIAL := State(NO_ROWS, [], {})

  datatype Step =
    | Start(call: Call, now: Time)
    | Reserve(t: nat)
    | Load(t: nat)
    | InsertOrg(t: nat, id: Id)
    | InsertMember(t: nat, id: Id)
    | Append(t: nat, id: Id)
    | Complete(t: nat)
    | Commit(t: nat, delivered: bool)   // the commit takes effect whether or not its reply arrives
    | Abort(t: nat)                     // the statement or commit fails, or the client gives up
    | Rollback(t: nat)

  /** The transaction has an uncommitted row for `k`. */
  predicate Reserves(tx: Tx, k: Key) { tx.writes.key.Some? && tx.writes.key.value.0 == k }

  /** Another transaction has an uncommitted row for `k`: the reservation waits for its end. */
  ghost predicate Reserved(s: State, t: nat, k: Key) {
    exists u :: 0 <= u < |s.txs| && u != t && Reserves(s.txs[u], k)
  }

  /** Another transaction holds the row lock of `k`. */
  ghost predicate RowLocked(s: State, t: nat, k: Key) {
    exists u :: 0 <= u < |s.txs| && u != t && s.txs[u].locked && s.txs[u].call.Key() == k
  }

  predicate Fresh(s: State, id: Id) { id != "" && id !in s.issued }

  predicate Running(tx: Tx) { !tx.pc.Finished? && !tx.pc.RollingBack? }

  ghost predicate Enabled(s: State, step: Step) {
    if step.Start? then
      !Blank(step.call.name)
    else
      && step.t < |s.txs|
      && var tx := s.txs[step.t];
         match step
         case Reserve(t) => tx.pc.Reserving? && !Reserved(s, t, tx.call.Key())
         case Load(t) => tx.pc.Loading? && !RowLocked(s, t, tx.call.Key())
         case InsertOrg(t, id) => tx.pc.InsertingOrganization? && Fresh(s, id)
         case InsertMember(t, id) => tx.pc.InsertingMembership? && Fresh(s, id)
         case Append(t, id) => tx.pc.Auditing? && Fresh(s, id)
         case Complete(t) => tx.pc.Completing?
         case Commit(t, delivered) => tx.pc.Committing?
         case Abort(t) => Running(tx)
         case Rollback(t) => tx.pc.RollingBack?
  }

  // The transaction after its own statement; `view` is the committed tables overlaid with its writes.

  function AfterReserve(view: Tables, tx: Tx): Tx {
    var (writes, affected) := InsertKey(view, tx.writes, tx.call.Key(), ProcessingRow(tx.call.hash, tx.now));
    tx.(writes := writes, pc := if affected == 1 then InsertingOrganization else Loading)
  }

  function AfterLoad(view: Tables, tx: Tx): Tx {
    if tx.call.Key() !in view.keys then tx.(pc := RollingBack(MissingKey)) else
    match Classify(view.keys[tx.call.Key()], tx.call.hash)
    case Conflict => tx.(locked := true, pc := RollingBack(KeyConflict))
    case StillProcessing => tx.(locked := true, pc := RollingBack(InProgress))
    case Replay(None) => tx.(locked := true, pc := RollingBack(Undecodable))
    case Replay(Some(body)) => tx.(locked := true, pc := Committing(body, true))
  }

  function AfterInsertOrg(view: Tables, tx: Tx, id: Id): Tx {
    var drawn := tx.(ids := tx.ids + [id]);
    match NewOrganization(id, tx.call.name, tx.now)
    case None => drawn.(pc := RollingBack(InvalidOrganization))
    case Some(o) =>
      match InsertOrganization(view, tx.writes, o)
      case None => drawn.(pc := RollingBack(UniqueViolation))
      case Some(writes) => drawn.(writes := writes, pc := InsertingMembership(o))
  }

  function AfterInsertMember(view: Tables, tx: Tx, id: Id): Tx
    requires tx.pc.InsertingMembership?
  {
    var row := AdministratorRow(tx.call.principal, tx.pc.organization.id, tx.now);
    tx.(ids := tx.ids + [id], writes := InsertMembership(view, tx.writes, id, row),
        pc := Auditing(tx.pc.organization))
  }

  function AfterAppend(view: Tables, tx: Tx, id: Id): Tx
    requires tx.pc.Auditing?
  {
    var drawn := tx.(ids := tx.ids + [id]);
    match InsertAudit(view, tx.writes, id, CreatedEvent(tx.call.principal, tx.pc.organization, tx.now))
    case None => drawn.(pc := RollingBack(UniqueViolation))
    case Some(writes) => drawn.(writes := writes, pc := Completing(ResultOf(tx.pc.organization)))
  }

  function AfterComplete(view: Tables, tx: Tx): Tx
    requires tx.pc.Completing?
  {
    var (writes, affected) :=
      CompleteKey(view, tx.writes, tx.call.Key(), STATUS_CREATED, tx.pc.result, tx.now);
    tx.(writes := writes, pc := if affected == 1 then Committing(tx.pc.result, false) else RollingBack(InProgress))
  }

  function AfterCommit(tx: Tx, delivered: bool): Tx
    requires tx.pc.Committing?
  {
    var reply := if delivered then Success(tx.pc.result, tx.pc.replay) else Failure(ReplyLost);
    tx.(writes := NO_WRITES, locked := false,
        pc := Finished(reply, if tx.pc.replay then CommittedReplay else CommittedFresh))
  }

  function AfterRollback(tx: Tx): Tx
    requires tx.pc.RollingBack?
  {
    tx.(writes := NO_WRITES, locked := false, pc := Finished(Failure(tx.pc.error), RolledBack))
  }

  ghost function Advance(s: State, step: Step): Tx
    requires !step.Start? && Enabled(s, step)
  {
    var tx := s.txs[step.t];
    var view := s.db.Merge(tx.writes);
    match step
    case Reserve(_) => AfterReserve(view, tx)
    case Load(_) => AfterLoad(view, tx)
    case InsertOrg(_, id) => AfterInsertOrg(view, tx, id)
    case InsertMember(_, id) => AfterInsertMember(view, tx, id)
    case Append(_, id) => AfterAppend(view, tx, id)
    case Complete(_) => AfterComplete(view, tx)
    case Commit(_, delivered) => AfterCommit(tx, delivered)
    case Abort(_) => tx.(pc := RollingBack(DatabaseFailure))
    case Rollback(_) => AfterRollback(tx)
  }

  ghost function Apply(s: State, step: Step): State
    requires Enabled(s, step)
  {
    if step.Start? then
      s.(txs := s.txs + [Tx(step.call, step.now, [], Reserving, NO_WRITES, false)])
    else
      State(if step.Commit? then s.db.Merge(s.txs[step.t].writes) else s.db,
            s.txs[step.t := Advance(s, step)],
            if step.InsertOrg? || step.InsertMember? || step.Append? then s.issued + {step.id} else s.issued)
  }

  ghost predicate ValidRun(s: State, run: seq<Step>)
    decreases |run|
  {
    run != [] ==> Enabled(s, run[0]) && ValidRun(Apply(s, run[0]), run[1..])
  }

  ghost function Exec(s: State, run: seq<Step>): State
    requires ValidRun(s, run)
    decreases |run|
  {
    if run == [] then s else Exec(Apply(s, run[0]), run[1..])
  }

  // ----- The invariant of every reachable state -----

  /** Rows a fresh creation has written after drawing `ids`, its key row still PROCESSING. */
  function FreshRows(c: Call, now: Time, ids: seq<Id>): Writes {
    Writes(
      if |ids| >= 1 then Some((ids[0], OrganizationRow(ids[0], c.name, now))) else None,
      if |ids| >= 2 then Some((ids[1], AdministratorRow(c.principal, ids[0], now))) else None,
      if |ids| >= 3 then Some((ids[2], CreatedEvent(c.principal, OrganizationRow(ids[0], c.name, now), now))) else None,
      Some((c.Key(), ProcessingRow(c.hash, now))))
  }

  function ResultFor(c: Call, now: Time, id: Id): OrganizationResult {
    ResultOf(OrganizationRow(id, c.name, now))
  }

  /** All the rows of one completed creation. */
  function CreatedRows(c: Call, now: Time, ids: seq<Id>): Writes
    requires |ids| == 3
  {
    FreshRows(c, now, ids).(key := Some((c.Key(), CompletedRow(c.hash, ResultFor(c, now, ids[0]), now))))
  }

  /** The rows of `w` are stored. */
  predicate Includes(db: Tables, w: Writes) {
    && (w.organization.Some? ==> (w.organization.value.0, w.organization.value.1) in db.organizations.Items)
    && (w.membership.Some? ==> (w.membership.value.0, w.membership.value.1) in db.memberships.Items)
    && (w.audit.Some? ==> (w.audit.value.0, w.audit.value.1) in db.audit.Items)
    && (w.key.Some? ==> (w.key.value.0, w.key.value.1) in db.keys.Items)
  }

  /** The rows of a creation are what the call asked for. */
  lemma CreatedAsAsked(db: Tables, c: Call, now: Time, ids: seq<Id>)
    requires |ids| == 3 && ids[0] != "" && Includes(db, CreatedRows(c, now, ids))
    ensures StoredExactly(db, c, now, ids) && IsResult(ResultFor(c, now, ids[0]), ids[0], c.name)
  {
    TrimSpaceTrims(c.name);
  }

  /** The key of `c` is committed for the same request, and `result` is its stored response. */
  predicate Settled(db: Tables, c: Call, result: OrganizationResult) {
    && c.Key() in db.keys
    && db.keys[c.Key()].hash == c.hash
    && db.keys[c.Key()].responseBody == Some(result)
  }

  /** The key of `c` is committed for a different request. */
  predicate Contradicted(db: Tables, c: Call) {
    c.Key() in db.keys && db.keys[c.Key()].hash != c.hash
  }

  /** No committed key row is PROCESSING, and each carries its response. */
  ghost predicate KeysCompleted(db: Tables) {
    forall k :: k in db.keys ==>
      && db.keys[k].status == Completed
      && db.keys[k].responseStatus == Some(STATUS_CREATED)
      && db.keys[k].responseBody.Some?
  }

  predicate FinishedOk(db: Tables, tx: Tx)
    requires tx.pc.Finished?
  {
    match tx.pc.fate
    case RolledBack =>
      || tx.pc.reply == Failure(DatabaseFailure)
      || (tx.pc.reply == Failure(KeyConflict) && Contradicted(db, tx.call))
    case CommittedReplay =>
      && (tx.pc.reply.Success? ==> tx.pc.reply.replay && Settled(db, tx.call, tx.pc.reply.result))
      && (tx.pc.reply.Failure? ==> tx.pc.reply.error == ReplyLost)
    case CommittedFresh =>
      && |tx.ids| == 3
      && Includes(db, CreatedRows(tx.call, tx.now, tx.ids))
      && (tx.pc.reply.Success? ==>
            tx.pc.reply == Success(ResultFor(tx.call, tx.now, tx.ids[0]), false))
      && (tx.pc.reply.Failure? ==> tx.pc.reply.error == ReplyLost)
  }

  /** What a transaction has done by the time it reaches its program point. */
  ghost predicate TxOk(db: Tables, tx: Tx) {
    var k := tx.call.Key();
    && !Blank(tx.call.name)
    && (tx.writes.key.Some? ==> tx.writes.key.value.0 == k && k !in db.keys)
    && (!tx.pc.Finished? ==> forall i :: i in tx.ids ==> i !in IdsOf(db))
    && (Running(tx) && !tx.pc.Committing? ==> !tx.locked)
    && match tx.pc
       case Reserving => tx.writes == NO_WRITES && tx.ids == []
       case Loading => tx.writes == NO_WRITES && tx.ids == [] && k in db.keys
       case InsertingOrganization => |tx.ids| == 0 && tx.writes == FreshRows(tx.call, tx.now, tx.ids)
       case InsertingMembership(o) =>
         && |tx.ids| == 1 && tx.writes == FreshRows(tx.call, tx.now, tx.ids)
         && o == OrganizationRow(tx.ids[0], tx.call.name, tx.now)
       case Auditing(o) =>
         && |tx.ids| == 2 && tx.writes == FreshRows(tx.call, tx.now, tx.ids)
         && o == OrganizationRow(tx.ids[0], tx.call.name, tx.now)
       case Completing(r) =>
         && |tx.ids| == 3 && tx.writes == FreshRows(tx.call, tx.now, tx.ids)
         && r == ResultFor(tx.call, tx.now, tx.ids[0])
       case Committing(r, true) => tx.writes == NO_WRITES && tx.ids == [] && Settled(db, tx.call, r)
       case Committing(r, false) =>
         && |tx.ids| == 3 && tx.writes == CreatedRows(tx.call, tx.now, tx.ids)
         && r == ResultFor(tx.call, tx.now, tx.ids[0])
       case RollingBack(e) => e == DatabaseFailure || (e == KeyConflict && Contradicted(db, tx.call))
       case Finished(_, _) => tx.writes == NO_WRITES && !tx.locked && FinishedOk(db, tx)
  }

  function IdsOf(t: Tables): set<Id> {
    t.organizations.Keys + t.memberships.Keys + t.audit.Keys
  }

  /** Two transactions never share an identifier, nor a reserved key. */
  ghost predicate Exclusive(a: Tx, b: Tx) {
    && (forall i :: i in a.ids ==> i !in b.ids)
    && (a.writes.key.Some? && b.writes.key.Some? ==> a.call.Key() != b.call.Key())
  }

  ghost predicate AllOk(s: State) {
    forall t :: 0 <= t < |s.txs| ==> TxOk(s.db, s.txs[t])
  }

  ghost predicate AllExclusive(s: State) {
    forall t, u :: 0 <= t < |s.txs| && 0 <= u < |s.txs| && t != u ==> Exclusive(s.txs[t], s.txs[u])
  }

  ghost predicate IdsIssued(s: State) {
    && "" !in s.issued && IdsOf(s.db) <= s.issued
    && forall t, i :: 0 <= t < |s.txs| && i in s.txs[t].ids ==> i in s.issued
  }

  ghost predicate Inv(s: State) {
    KeysCompleted(s.db) && IdsIssued(s) && AllOk(s) && AllExclusive(s)
  }

  // ----- Each statement keeps its own transaction's part of the invariant -----

  ghost predicate Local(db: Tables, issued: set<Id>, tx: Tx) {
    && TxOk(db, tx) && KeysCompleted(db) && IdsOf(db) <= issued
    && forall i :: i in tx.ids ==> i in issued
  }

  lemma ReserveOk(db: Tables, issued: set<Id>, tx: Tx)
    requires Local(db, issued, tx) && tx.pc.Reserving?
    ensures TxOk(db, AfterReserve(db.Merge(tx.writes), tx))
  {
  }

  lemma LoadOk(db: Tables, issued: set<Id>, tx: Tx)
    requires Local(db, issued, tx) && tx.pc.Loading?
    ensures TxOk(db, AfterLoad(db.Merge(tx.writes), tx))
  {
    var row := db.keys[tx.call.Key()];
    if row.hash != tx.call.hash {
      assert AfterLoad(db.Merge(tx.writes), tx) == tx.(locked := true, pc := RollingBack(KeyConflict));
    } else {
      assert AfterLoad(db.Merge(tx.writes), tx) ==
             tx.(locked := true, pc := Committing(row.responseBody.value, true));
    }
  }

  lemma InsertOrgOk(db: Tables, issued: set<Id>, tx: Tx, id: Id)
    requires Local(db, issued, tx) && tx.pc.InsertingOrganization? && id != "" && id !in issued
    ensures TxOk(db, AfterInsertOrg(db.Merge(tx.writes), tx, id))
  {
    var o := OrganizationRow(id, tx.call.name, tx.now);
    assert AfterInsertOrg(db.Merge(tx.writes), tx, id) ==
           tx.(ids := tx.ids + [id], writes := tx.writes.(organization := Some((id, o))), pc := InsertingMembership(o));
  }

  lemma InsertMemberOk(db: Tables, issued: set<Id>, tx: Tx, id: Id)
    requires Local(db, issued, tx) && tx.pc.InsertingMembership? && id !in issued
    ensures TxOk(db, AfterInsertMember(db.Merge(tx.writes), tx, id))
  {
  }

  lemma AppendOk(db: Tables, issued: set<Id>, tx: Tx, id: Id)
    requires Local(db, issued, tx) && tx.pc.Auditing? && id !in issued
    ensures TxOk(db, AfterAppend(db.Merge(tx.writes), tx, id))
  {
    assert AfterAppend(db.Merge(tx.writes), tx, id).pc == Completing(ResultOf(tx.pc.organization));
  }

  lemma CompleteOk(db: Tables, issued: set<Id>, tx: Tx)
    requires Local(db, issued, tx) && tx.pc.Completing?
    ensures TxOk(db, AfterComplete(db.Merge(tx.writes), tx))
  {
  }

  /** The rows of one creation, added under an unused key and unused identifiers. */
  lemma CreatedRowsSettle(db: Tables, c: Call, now: Time, ids: seq<Id>)
    requires KeysCompleted(db) && |ids| == 3 && c.Key() !in db.keys
    requires forall i :: i in ids ==> i !in IdsOf(db)
    ensures var db' := db.Merge(CreatedRows(c, now, ids));
            KeysCompleted(db') && Extends(db, db') && Includes(db', CreatedRows(c, now, ids))
  {
    assert ids[0] in ids && ids[1] in ids && ids[2] in ids;
  }

  lemma CommitOk(db: Tables, issued: set<Id>, tx: Tx, delivered: bool)
    requires Local(db, issued, tx) && tx.pc.Committing?
    ensures TxOk(db.Merge(tx.writes), AfterCommit(tx, delivered))
    ensures KeysCompleted(db.Merge(tx.writes)) && Extends(db, db.Merge(tx.writes))
    ensures tx.pc.replay ==> db.Merge(tx.writes) == db
  {
    if tx.pc.replay {
      assert db.Merge(NO_WRITES) == db;
    } else {
      CreatedRowsSettle(db, tx.call, tx.now, tx.ids);
    }
  }

  // ----- Every step keeps the invariant, and every run extends the committed tables -----

  lemma OwnOk(s: State, step: Step)
    requires Inv(s) && Enabled(s, step) && !step.Start?
    ensures TxOk(Apply(s, step).db, Advance(s, step))
    ensures KeysCompleted(Apply(s, step).db) && Extends(s.db, Apply(s, step).db)
  {
    var tx := s.txs[step.t];
    assert Local(s.db, s.issued, tx);
    match step {
      case Reserve(_) => ReserveOk(s.db, s.issued, tx);
      case Load(_) => LoadOk(s.db, s.issued, tx);
      case InsertOrg(_, id) => InsertOrgOk(s.db, s.issued, tx, id);
      case InsertMember(_, id) => InsertMemberOk(s.db, s.issued, tx, id);
      case Append(_, id) => AppendOk(s.db, s.issued, tx, id);
      case Complete(_) => CompleteOk(s.db, s.issued, tx);
      case Commit(_, delivered) => CommitOk(s.db, s.issued, tx, delivered);
      case Abort(_) =>
      case Rollback(_) =>
    }
  }

  /** What a transaction relies on survives any growth that spares its key and its identifiers. */
  lemma TxOkFrame(db: Tables, db': Tables, tx: Tx)
    requires TxOk(db, tx) && Extends(db, db')
    requires tx.writes.key.Some? ==> tx.call.Key() !in db'.keys
    requires !tx.pc.Finished? ==> forall i :: i in tx.ids ==> i !in IdsOf(db')
    ensures TxOk(db', tx)
  {
  }

  /** The identifiers and keys of the tables after a commit. */
  lemma CommitAdds(db: Tables, tx: Tx)
    requires TxOk(db, tx) && tx.pc.Committing?
    ensures forall i :: i in IdsOf(db.Merge(tx.writes)) ==> i in IdsOf(db) || i in tx.ids
    ensures forall k :: k in db.Merge(tx.writes).keys ==> k in db.keys || (k == tx.call.Key() && tx.writes.key.Some?)
  {
  }

  lemma OthersOk(s: State, step: Step, u: nat)
    requires Inv(s) && Enabled(s, step) && !step.Start? && u < |s.txs| && u != step.t
    ensures TxOk(Apply(s, step).db, s.txs[u])
  {
    OwnOk(s, step);
    assert TxOk(s.db, s.txs[u]) && TxOk(s.db, s.txs[step.t]);
    assert Exclusive(s.txs[step.t], s.txs[u]);
    if step.Commit? {
      CommitAdds(s.db, s.txs[step.t]);
    }
    TxOkFrame(s.db, Apply(s, step).db, s.txs[u]);
  }

  lemma PairsOk(s: State, step: Step, u: nat)
    requires Inv(s) && Enabled(s, step) && !step.Start? && u < |s.txs| && u != step.t
    ensures Exclusive(Advance(s, step), s.txs[u]) && Exclusive(s.txs[u], Advance(s, step))
  {
    assert Exclusive(s.txs[step.t], s.txs[u]) && Exclusive(s.txs[u], s.txs[step.t]);
    assert TxOk(s.db, s.txs[u]);
  }

  lemma IdsOk(s: State, step: Step)
    requires Inv(s) && Enabled(s, step) && !step.Start?
    ensures IdsIssued(Apply(s, step))
  {
    assert TxOk(s.db, s.txs[step.t]);
    if step.Commit? {
      CommitAdds(s.db, s.txs[step.t]);
    }
  }

  lemma StartInv(s: State, step: Step)
    requires Inv(s) && Enabled(s, step) && step.Start?
    ensures Inv(Apply(s, step))
  {
    var s' := Apply(s, step);
    assert forall t :: 0 <= t < |s.txs| ==> s'.txs[t] == s.txs[t];
  }

  lemma AllOkStep(s: State, step: Step)
    requires Inv(s) && Enabled(s, step) && !step.Start?
    ensures AllOk(Apply(s, step))
  {
    OwnOk(s, step);
    forall t | 0 <= t < |s.txs| && t != step.t ensures TxOk(Apply(s, step).db, s.txs[t]) {
      OthersOk(s, step, t);
    }
  }

  lemma AllExclusiveStep(s: State, step: Step)
    requires Inv(s) && Enabled(s, step) && !step.Start?
    ensures AllExclusive(Apply(s, step))
  {
    forall t | 0 <= t < |s.txs| && t != step.t
      ensures Exclusive(Advance(s, step), s.txs[t]) && Exclusive(s.txs[t], Advance(s, step))
    {
      PairsOk(s, step, t);
    }
  }

  lemma StepInv(s: State, step: Step)
    requires Inv(s) && Enabled(s, step)
    ensures Inv(Apply(s, step)) && Extends(s.db, Apply(s, step).db)
  {
    if step.Start? {
      StartInv(s, step);
    } else {
      OwnOk(s, step);
      IdsOk(s, step);
      AllOkStep(s, step);
      AllExclusiveStep(s, step);
    }
  }

  lemma {:induction false} RunInv(s: State, run: seq<Step>)
    requires Inv(s) && ValidRun(s, run)
    ensures Inv(Exec(s, run)) && Extends(s.db, Exec(s, run).db)
    decreases |run|
  {
    if run == [] {
    } else {
      StepInv(s, run[0]);
      RunInv(Apply(s, run[0]), run[1..]);
    }
  }

  lemma InitialInv()
    ensures Inv(INITIAL)
  {
  }
}
