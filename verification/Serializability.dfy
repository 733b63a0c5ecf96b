/**
 Every interleaving is equivalent to running the decided calls one at a time, in the order in which
 they were decided, against the tables and, more abstractly, against a map from key to (hash, result).
 */
module Serializability {
  import opened Prelude
  import opened Schema
  import opened Idempotency
  import opened OrganizationDomain
  import opened CreateProtocol

  /** One decided call: its clock reading, the identifiers it drew and the reply it earned. */
  datatype Op = Op(t: nat, call: Call, now: Time, ids: seq<Id>, reply: Reply)

  /** The whole of Create, executed with nobody else around and no fault. */
  function SerialCreate(db: Tables, c: Call, now: Time, ids: seq<Id>): (Tables, Reply) {
    var k := c.Key();
    if k !in db.keys then
      if Blank(c.name) || |ids| != 3 then (db, Failure(InvalidOrganization))
      else (db.Merge(CreatedRows(c, now, ids)), Success(ResultFor(c, now, ids[0]), false))
    else (db, OnStoredRow(db.keys[k], c.hash))
  }

  /** The reply to a call whose key row is already stored. */
  function OnStoredRow(row: KeyRow, hash: Bytes): Reply {
    match Classify(row, hash)
    case Conflict => Failure(KeyConflict)
    case StillProcessing => Failure(InProgress)
    case Replay(None) => Failure(Undecodable)
    case Replay(Some(body)) => Success(body, true)
  }

  /** Running `ops` one at a time from `db` gives each of them its reply and ends in `db'`. */
  ghost predicate Explains(db: Tables, ops: seq<Op>, db': Tables)
    decreases |ops|
  {
    if ops == [] then db' == db
    else
      var (next, reply) := SerialCreate(db, ops[0].call, ops[0].now, ops[0].ids);
      reply == ops[0].reply && Explains(next, ops[1..], db')
  }

  /** The call decided by this step, if any: a commit, delivered or not, or the rollback of a conflict. */
  ghost function Decision(s: State, step: Step): seq<Op>
    requires Enabled(s, step)
  {
    if step.Start? then [] else
    var tx := s.txs[step.t];
    if step.Commit? then [Op(step.t, tx.call, tx.now, tx.ids, Success(tx.pc.result, tx.pc.replay))]
    else if step.Rollback? && tx.pc.error == KeyConflict then
      [Op(step.t, tx.call, tx.now, tx.ids, Failure(KeyConflict))]
    else []
  }

  ghost function Linearize(s: State, run: seq<Step>): seq<Op>
    requires ValidRun(s, run)
    decreases |run|
  {
    if run == [] then [] else Decision(s, run[0]) + Linearize(Apply(s, run[0]), run[1..])
  }

  lemma DecisionExplained(s: State, step: Step)
    requires Inv(s) && Enabled(s, step)
    ensures |Decision(s, step)| <= 1
    ensures Decision(s, step) == [] ==> Apply(s, step).db == s.db
    ensures Decision(s, step) != [] ==>
              var op := Decision(s, step)[0];
              SerialCreate(s.db, op.call, op.now, op.ids) == (Apply(s, step).db, op.reply)
  {
    if !step.Start? {
      var tx := s.txs[step.t];
      assert TxOk(s.db, tx);
      if step.Commit? && tx.pc.replay {
        assert s.db.Merge(NO_WRITES) == s.db;
      }
    }
  }

  lemma {:induction false} RunExplained(s: State, run: seq<Step>)
    requires Inv(s) && ValidRun(s, run)
    ensures Explains(s.db, Linearize(s, run), Exec(s, run).db)
    decreases |run|
  {
    if run == [] {
    } else {
      var s' := Apply(s, run[0]);
      DecisionExplained(s, run[0]);
      StepInv(s, run[0]);
      RunExplained(s', run[1..]);
      var d := Decision(s, run[0]);
      if d != [] {
        assert (d + Linearize(s', run[1..]))[1..] == Linearize(s', run[1..]);
      } else {
        assert d + Linearize(s', run[1..]) == Linearize(s', run[1..]);
      }
    }
  }

  // ----- Each decided call appears exactly once, with the reply its caller saw -----

  predicate Decided(tx: Tx) {
    tx.pc.Finished? && (tx.pc.fate != RolledBack || tx.pc.reply == Failure(KeyConflict))
  }

  /** The caller of `tx` saw the reply of `op`, or lost the reply of a commit that took effect. */
  predicate Answers(tx: Tx, op: Op) {
    && Decided(tx) && tx.call == op.call && tx.now == op.now && tx.ids == op.ids
    && (tx.pc.reply == op.reply || (tx.pc.reply == Failure(ReplyLost) && tx.pc.fate != RolledBack))
  }

  function Count(ops: seq<Op>, t: nat): nat {
    if ops == [] then 0 else (if ops[0].t == t then 1 else 0) + Count(ops[1..], t)
  }

  ghost predicate DecidedIn(s: State, t: nat) { t < |s.txs| && Decided(s.txs[t]) }

  lemma {:induction false} FinishedStays(s: State, run: seq<Step>, t: nat)
    requires ValidRun(s, run) && t < |s.txs| && s.txs[t].pc.Finished?
    ensures t < |Exec(s, run).txs| && Exec(s, run).txs[t] == s.txs[t]
    decreases |run|
  {
    if run == [] {
    } else {
      FinishedStays(Apply(s, run[0]), run[1..], t);
    }
  }

  lemma {:induction false} CountAppend(a: seq<Op>, b: seq<Op>, t: nat)
    ensures Count(a + b, t) == Count(a, t) + Count(b, t)
  {
    if a == [] {
      assert a + b == b;
    } else {
      assert (a + b)[1..] == a[1..] + b;
      CountAppend(a[1..], b, t);
    }
  }

  lemma DecisionCounts(s: State, step: Step, t: nat)
    requires Inv(s) && Enabled(s, step)
    ensures Count(Decision(s, step), t) ==
            (if DecidedIn(Apply(s, step), t) then 1 else 0) - (if DecidedIn(s, t) then 1 else 0)
  {
    if !step.Start? { assert TxOk(s.db, s.txs[step.t]); }
  }

  lemma DecisionAnswered(s: State, step: Step)
    requires Enabled(s, step) && Decision(s, step) != []
    ensures var op := Decision(s, step)[0];
            |Decision(s, step)| == 1 && op.t < |Apply(s, step).txs| && Answers(Apply(s, step).txs[op.t], op)
  {
  }

  lemma {:induction false} DecidedOnce(s: State, run: seq<Step>, t: nat)
    requires Inv(s) && ValidRun(s, run)
    ensures Count(Linearize(s, run), t) ==
            (if DecidedIn(Exec(s, run), t) then 1 else 0) - (if DecidedIn(s, t) then 1 else 0)
    decreases |run|
  {
    if run == [] {
    } else {
      StepInv(s, run[0]);
      DecisionCounts(s, run[0], t);
      DecidedOnce(Apply(s, run[0]), run[1..], t);
      CountAppend(Decision(s, run[0]), Linearize(Apply(s, run[0]), run[1..]), t);
    }
  }

  lemma {:induction false} OpsAnswered(s: State, run: seq<Step>, j: nat)
    requires ValidRun(s, run) && j < |Linearize(s, run)|
    ensures var op := Linearize(s, run)[j];
            op.t < |Exec(s, run).txs| && Answers(Exec(s, run).txs[op.t], op)
    decreases |run|
  {
    var s' := Apply(s, run[0]);
    var d := Decision(s, run[0]);
    if j < |d| {
      DecisionAnswered(s, run[0]);
      FinishedStays(s', run[1..], d[0].t);
    } else {
      OpsAnswered(s', run[1..], j - |d|);
      assert Linearize(s, run)[j] == Linearize(s', run[1..])[j - |d|];
    }
  }

  /**
   Serializability: the committed tables and every success and conflict reply of a run are those of
   the one-at-a-time run of its decided calls.
   */
  lemma Serializable(run: seq<Step>)
    requires ValidRun(INITIAL, run)
    ensures var s, ops := Exec(INITIAL, run), Linearize(INITIAL, run);
            && Explains(NO_ROWS, ops, s.db)
            && (forall j :: 0 <= j < |ops| ==> ops[j].t < |s.txs| && Answers(s.txs[ops[j].t], ops[j]))
            && (forall t :: 0 <= t < |s.txs| ==> Count(ops, t) == if Decided(s.txs[t]) then 1 else 0)
  {
    InitialInv();
    RunExplained(INITIAL, run);
    var s, ops := Exec(INITIAL, run), Linearize(INITIAL, run);
    forall j | 0 <= j < |ops| ensures ops[j].t < |s.txs| && Answers(s.txs[ops[j].t], ops[j]) {
      OpsAnswered(INITIAL, run, j);
    }
    forall t | 0 <= t < |s.txs| ensures Count(ops, t) == if Decided(s.txs[t]) then 1 else 0 {
      DecidedOnce(INITIAL, run, t);
    }
  }

  lemma {:induction false} RunSplit(s: State, a: seq<Step>, b: seq<Step>)
    requires ValidRun(s, a + b)
    ensures ValidRun(s, a) && ValidRun(Exec(s, a), b) && Exec(s, a + b) == Exec(Exec(s, a), b)
    decreases |a|
  {
    if a == [] {
      assert a + b == b;
    } else {
      assert (a + b)[0] == a[0] && (a + b)[1..] == a[1..] + b;
      RunSplit(Apply(s, a[0]), a[1..], b);
    }
  }

  lemma {:induction false} LinearizeSplit(s: State, a: seq<Step>, b: seq<Step>)
    requires ValidRun(s, a + b) && ValidRun(s, a) && ValidRun(Exec(s, a), b)
    ensures Linearize(s, a + b) == Linearize(s, a) + Linearize(Exec(s, a), b)
    decreases |a|
  {
    if a == [] {
      assert a + b == b;
    } else {
      assert (a + b)[0] == a[0] && (a + b)[1..] == a[1..] + b;
      LinearizeSplit(Apply(s, a[0]), a[1..], b);
    }
  }

  /** The serial order respects real time: a call decided before another one arrives comes first. */
  lemma RealTimeOrder(a: seq<Step>, b: seq<Step>, i: nat, j: nat)
    requires ValidRun(INITIAL, a + b)
    requires i < |Linearize(INITIAL, a + b)| && j < |Linearize(INITIAL, a + b)|
    requires ValidRun(INITIAL, a) && DecidedIn(Exec(INITIAL, a), Linearize(INITIAL, a + b)[i].t)
    requires Linearize(INITIAL, a + b)[j].t >= |Exec(INITIAL, a).txs|
    ensures i < j
  {
    RunSplit(INITIAL, a, b);
    LinearizeSplit(INITIAL, a, b);
    InitialInv();
    RunInv(INITIAL, a);
    var mid := Exec(INITIAL, a);
    var before, after := Linearize(INITIAL, a), Linearize(mid, b);
    if j < |before| {
      OpsAnswered(INITIAL, a, j);
      assert false;
    }
    if i >= |before| {
      var t := after[i - |before|].t;
      DecidedOnce(mid, b, t);
      FinishedStays(mid, b, t);
      CountPositive(after, i - |before|);
      assert false;
    }
  }

  lemma {:induction false} CountPositive(ops: seq<Op>, i: nat)
    requires i < |ops|
    ensures Count(ops, ops[i].t) >= 1
  {
    if i == 0 {
    } else {
      CountPositive(ops[1..], i - 1);
    }
  }

  // ----- The sequential map underneath -----

  type Ledger = map<Key, (Bytes, OrganizationResult)>

  /** The first request under a key stores its candidate result; later ones get it back, or conflict. */
  function LedgerCreate(l: Ledger, k: Key, hash: Bytes, candidate: Option<OrganizationResult>): (Ledger, Reply) {
    if k !in l then
      if candidate.None? then (l, Failure(InvalidOrganization))
      else (l[k := (hash, candidate.value)], Success(candidate.value, false))
    else if l[k].0 != hash then (l, Failure(KeyConflict))
    else (l, Success(l[k].1, true))
  }

  function Candidate(c: Call, now: Time, ids: seq<Id>): Option<OrganizationResult> {
    if |ids| == 3 && !Blank(c.name) then Some(ResultFor(c, now, ids[0])) else None
  }

  function LedgerOf(db: Tables): Ledger {
    map k | k in db.keys && db.keys[k].responseBody.Some? :: (db.keys[k].hash, db.keys[k].responseBody.value)
  }

  ghost predicate LedgerExplains(l: Ledger, ops: seq<Op>, l': Ledger)
    decreases |ops|
  {
    if ops == [] then l' == l
    else
      var op := ops[0];
      var (next, reply) := LedgerCreate(l, op.call.Key(), op.call.hash, Candidate(op.call, op.now, op.ids));
      reply == op.reply && LedgerExplains(next, ops[1..], l')
  }

  /** The four-table creation acts on the ledger exactly as the map operation does. */
  lemma SerialCreateRefinesLedger(db: Tables, c: Call, now: Time, ids: seq<Id>)
    requires KeysCompleted(db)
    ensures var (db', reply) := SerialCreate(db, c, now, ids);
            && KeysCompleted(db')
            && LedgerCreate(LedgerOf(db), c.Key(), c.hash, Candidate(c, now, ids)) == (LedgerOf(db'), reply)
  {
    if c.Key() !in db.keys && |ids| == 3 && !Blank(c.name) {
      var db' := SerialCreate(db, c, now, ids).0;
      assert LedgerOf(db') == LedgerOf(db)[c.Key() := (c.hash, ResultFor(c, now, ids[0]))];
    }
  }

  lemma {:induction false} ExplainsRefinesLedger(db: Tables, ops: seq<Op>, db': Tables)
    requires KeysCompleted(db) && Explains(db, ops, db')
    ensures LedgerExplains(LedgerOf(db), ops, LedgerOf(db'))
    decreases |ops|
  {
    if ops == [] {
    } else {
      SerialCreateRefinesLedger(db, ops[0].call, ops[0].now, ops[0].ids);
      ExplainsRefinesLedger(SerialCreate(db, ops[0].call, ops[0].now, ops[0].ids).0, ops[1..], db');
    }
  }

  /** Every run's replies and final ledger are those of a sequential map from key to (hash, result). */
  lemma LedgerSerializable(run: seq<Step>)
    requires ValidRun(INITIAL, run)
    ensures LedgerExplains(map[], Linearize(INITIAL, run), LedgerOf(Exec(INITIAL, run).db))
  {
    Serializable(run);
    ExplainsRefinesLedger(NO_ROWS, Linearize(INITIAL, run), Exec(INITIAL, run).db);
    assert LedgerOf(NO_ROWS) == map[];
  }
}
