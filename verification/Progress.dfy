/** Organization creation never deadlocks, and every finite set of calls finishes. */
module Progress {
  import opened Prelude
  import opened Schema
  import opened OrganizationDomain
  import opened CreateProtocol

  /** Statements a transaction may still execute, its rollback included. */
  function Remaining(pc: Pc): nat {
    match pc
    case Reserving => 7
    case InsertingOrganization => 6
    case InsertingMembership(_) => 5
    case Auditing(_) => 4
    case Loading => 3
    case Completing(_) => 3
    case Committing(_, _) => 2
    case RollingBack(_) => 1
    case Finished(_, _) => 0
  }

  function Measure(txs: seq<Tx>): nat {
    if txs == [] then 0 else Remaining(txs[|txs| - 1].pc) + Measure(txs[..|txs| - 1])
  }

  lemma {:induction false} MeasureUpdate(txs: seq<Tx>, t: nat, tx: Tx)
    requires t < |txs|
    ensures Measure(txs[t := tx]) == Measure(txs) - Remaining(txs[t].pc) + Remaining(tx.pc)
  {
    var n := |txs| - 1;
    if t == n {
      assert txs[t := tx][..n] == txs[..n];
    } else {
      assert txs[t := tx][..n] == txs[..n][t := tx];
      MeasureUpdate(txs[..n], t, tx);
    }
  }

  /** Every step except the arrival of a call lowers the measure; an arrival raises it by seven. */
  lemma StepLowersMeasure(s: State, step: Step)
    requires Enabled(s, step)
    ensures var m, m' := Measure(s.txs), Measure(Apply(s, step).txs);
            if step.Start? then m' == m + 7 else m' < m
  {
    if step.Start? {
      var tx := Tx(step.call, step.now, [], Reserving, NO_WRITES, false);
      assert (s.txs + [tx])[..|s.txs|] == s.txs;
    } else {
      MeasureUpdate(s.txs, step.t, Advance(s, step));
    }
  }

  function Arrivals(run: seq<Step>): nat {
    if run == [] then 0 else (if run[0].Start? then 1 else 0) + Arrivals(run[1..])
  }

  /** A run in which n calls arrive has at most 8n steps beyond what was already pending. */
  lemma {:induction false} RunBounded(s: State, run: seq<Step>)
    requires ValidRun(s, run)
    ensures |run| + Measure(Exec(s, run).txs) <= Measure(s.txs) + 8 * Arrivals(run)
    decreases |run|
  {
    if run == [] {
    } else {
      StepLowersMeasure(s, run[0]);
      RunBounded(Apply(s, run[0]), run[1..]);
    }
  }

  /** The step that continues an unfinished transaction without a fault, if nothing blocks it. */
  function Continuation(tx: Tx, t: nat, id: Id): Step {
    match tx.pc
    case Reserving => Reserve(t)
    case Loading => Load(t)
    case InsertingOrganization => InsertOrg(t, id)
    case InsertingMembership(_) => InsertMember(t, id)
    case Auditing(_) => Append(t, id)
    case Completing(_) => Complete(t)
    case Committing(_, _) => Commit(t, true)
    case RollingBack(_) => Rollback(t)
    case Finished(_, _) => Abort(t)
  }

  /** A transaction that holds a reservation or a row lock is never itself waiting. */
  lemma HoldersRun(s: State, u: nat, id: Id)
    requires AllOk(s) && u < |s.txs| && Fresh(s, id)
    requires s.txs[u].writes.key.Some? || s.txs[u].locked
    ensures !s.txs[u].pc.Finished? && Enabled(s, Continuation(s.txs[u], u, id))
  {
    assert TxOk(s.db, s.txs[u]);
  }

  /** A row lock has one holder. */
  ghost predicate LocksExclusive(s: State) {
    forall t, u :: 0 <= t < u < |s.txs| && s.txs[t].locked && s.txs[u].locked ==>
      s.txs[t].call.Key() != s.txs[u].call.Key()
  }

  lemma LockStep(s: State, step: Step)
    requires LocksExclusive(s) && Enabled(s, step)
    ensures LocksExclusive(Apply(s, step))
  {
    var s' := Apply(s, step);
    if step.Start? {
      assert forall t :: 0 <= t < |s.txs| ==> s'.txs[t] == s.txs[t];
    } else {
      assert s'.txs[step.t].call == s.txs[step.t].call;
      assert s'.txs[step.t].locked ==> s.txs[step.t].locked || !RowLocked(s, step.t, s.txs[step.t].call.Key());
      assert forall t :: 0 <= t < |s.txs| && t != step.t ==> s'.txs[t] == s.txs[t];
    }
  }

  /** In every run no two transactions hold the lock of the same key row at once. */
  lemma {:induction false} RowLocksExclusive(s: State, run: seq<Step>)
    requires LocksExclusive(s) && ValidRun(s, run)
    ensures LocksExclusive(Exec(s, run))
    decreases |run|
  {
    if run == [] {
    } else {
      LockStep(s, run[0]);
      RowLocksExclusive(Apply(s, run[0]), run[1..]);
    }
  }

  /** The transaction waits for another one's reservation or row lock. */
  ghost predicate Waiting(s: State, t: nat)
    requires t < |s.txs|
  {
    || (s.txs[t].pc.Reserving? && Reserved(s, t, s.txs[t].call.Key()))
    || (s.txs[t].pc.Loading? && RowLocked(s, t, s.txs[t].call.Key()))
  }

  lemma NotWaitingRuns(s: State, t: nat, id: Id)
    requires t < |s.txs| && !s.txs[t].pc.Finished? && !Waiting(s, t) && Fresh(s, id)
    ensures Enabled(s, Continuation(s.txs[t], t, id))
  {
  }

  lemma Blocker(s: State, t: nat) returns (u: nat)
    requires t < |s.txs| && Waiting(s, t)
    ensures u < |s.txs| && u != t && (s.txs[u].writes.key.Some? || s.txs[u].locked)
  {
    var k := s.txs[t].call.Key();
    if s.txs[t].pc.Reserving? {
      u :| 0 <= u < |s.txs| && u != t && Reserves(s.txs[u], k);
    } else {
      u :| 0 <= u < |s.txs| && u != t && s.txs[u].locked && s.txs[u].call.Key() == k;
    }
  }

  /** Deadlock freedom: some unfinished transaction can take a step that is not a fault. */
  lemma NoDeadlock(s: State, t: nat) returns (step: Step)
    requires AllOk(s) && t < |s.txs| && !s.txs[t].pc.Finished?
    ensures Enabled(s, step) && !step.Start? && !step.Abort? && (step.Commit? ==> step.delivered)
  {
    var id := FreshId(s.issued);
    var u := t;
    if Waiting(s, t) {
      u := Blocker(s, t);
      HoldersRun(s, u, id);
    } else {
      NotWaitingRuns(s, t, id);
    }
    step := Continuation(s.txs[u], u, id);
  }

  ghost predicate AllFinished(s: State) {
    forall t :: 0 <= t < |s.txs| ==> s.txs[t].pc.Finished?
  }

  lemma Prepend(s: State, step: Step, rest: seq<Step>)
    requires Enabled(s, step) && ValidRun(Apply(s, step), rest)
    ensures ValidRun(s, [step] + rest) && Exec(s, [step] + rest) == Exec(Apply(s, step), rest)
  {
    assert ([step] + rest)[1..] == rest;
  }

  /** Neither an arrival nor a fault. */
  predicate Faultless(step: Step) { !step.Start? && !step.Abort? && (step.Commit? ==> step.delivered) }

  lemma Forward(s: State) returns (step: Step)
    requires Inv(s) && !AllFinished(s)
    ensures Enabled(s, step) && Faultless(step)
    ensures Inv(Apply(s, step)) && Measure(Apply(s, step).txs) < Measure(s.txs)
  {
    var t :| 0 <= t < |s.txs| && !s.txs[t].pc.Finished?;
    step := NoDeadlock(s, t);
    StepInv(s, step);
    StepLowersMeasure(s, step);
  }

  /** From every reachable state the pending calls can all be brought to an end without a single fault. */
  lemma CanFinish(s: State) returns (run: seq<Step>)
    requires Inv(s)
    ensures ValidRun(s, run) && AllFinished(Exec(s, run))
    ensures forall i :: 0 <= i < |run| ==> Faultless(run[i])
    decreases Measure(s.txs)
  {
    if AllFinished(s) {
      run := [];
    } else {
      var step := Forward(s);
      var rest := CanFinish(Apply(s, step));
      run := [step] + rest;
      Prepend(s, step, rest);
    }
  }

  /** Whatever has happened so far, all calls can still be finished, and within the bound they are. */
  lemma EveryRunCanFinish(run: seq<Step>) returns (rest: seq<Step>)
    requires ValidRun(INITIAL, run)
    ensures ValidRun(Exec(INITIAL, run), rest) && AllFinished(Exec(Exec(INITIAL, run), rest))
    ensures forall i :: 0 <= i < |rest| ==> Faultless(rest[i])
    ensures |run| + |rest| <= 8 * Arrivals(run)
  {
    InitialInv();
    RunInv(INITIAL, run);
    rest := CanFinish(Exec(INITIAL, run));
    RunBounded(INITIAL, run);
    RunBounded(Exec(INITIAL, run), rest);
    NoArrivals(rest);
  }

  lemma {:induction false} NoArrivals(run: seq<Step>)
    requires forall i :: 0 <= i < |run| ==> !run[i].Start?
    ensures Arrivals(run) == 0
  {
    if run == [] {
    } else {
      NoArrivals(run[1..]);
    }
  }

  // ----- Without faults, every call gets its answer -----

  /** The call has met no fault. */
  predicate Unharmed(tx: Tx) {
    && tx.pc != RollingBack(DatabaseFailure)
    && (tx.pc.Finished? ==> tx.pc.reply !in {Failure(DatabaseFailure), Failure(ReplyLost)})
  }

  lemma UnharmedStep(s: State, step: Step, t: nat)
    requires Inv(s) && Enabled(s, step) && (step.Start? || Faultless(step))
    requires t < |Apply(s, step).txs| && (t < |s.txs| ==> Unharmed(s.txs[t]))
    ensures Unharmed(Apply(s, step).txs[t])
  {
    if t < |s.txs| { assert TxOk(s.db, s.txs[t]); }
  }

  lemma {:induction false} UnharmedRun(s: State, run: seq<Step>, t: nat)
    requires Inv(s) && ValidRun(s, run) && t < |Exec(s, run).txs| && (t < |s.txs| ==> Unharmed(s.txs[t]))
    requires forall i :: 0 <= i < |run| ==> run[i].Start? || Faultless(run[i])
    ensures Unharmed(Exec(s, run).txs[t])
    decreases |run|
  {
    if run == [] {
    } else {
      StepInv(s, run[0]);
      if t < |Apply(s, run[0]).txs| { UnharmedStep(s, run[0], t); }
      UnharmedRun(Apply(s, run[0]), run[1..], t);
    }
  }

  /**
   In a run without faults every finished call has succeeded or was told of a conflict: its status is 409
   exactly when the key is committed for another hash, and otherwise 201 or 200.
   */
  lemma FaultFreeReplies(run: seq<Step>, t: nat)
    requires ValidRun(INITIAL, run) && forall i :: 0 <= i < |run| ==> run[i].Start? || Faultless(run[i])
    requires t < |Exec(INITIAL, run).txs| && Exec(INITIAL, run).txs[t].pc.Finished?
    ensures var s := Exec(INITIAL, run); var tx := s.txs[t];
            && (tx.pc.reply.Success? || tx.pc.reply == Failure(KeyConflict))
            && tx.call.Key() in s.db.keys
            && (HttpStatus(tx.pc.reply) == 409 <==> s.db.keys[tx.call.Key()].hash != tx.call.hash)
            && (HttpStatus(tx.pc.reply) in {200, 201} <==> s.db.keys[tx.call.Key()].hash == tx.call.hash)
  {
    InitialInv();
    RunInv(INITIAL, run);
    UnharmedRun(INITIAL, run, t);
    assert TxOk(Exec(INITIAL, run).db, Exec(INITIAL, run).txs[t]);
  }
}
