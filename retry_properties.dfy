/** What the retry worker promises about one transaction (lib/output/retry.go:253-323),
    stated about its whole run `Work(...)` and proved from the per-iteration
    lemmas of `RetryWorker`. */
module RetryProperties {
  import opened RetryTypes
  import opened RetryWorker

  // ---------------------------------------------------------------------------
  // errLooped and the backoff instance

  /** A worker raises `errLooped` once, on its first error response, and
      lowers it once when it leaves the loop; a worker whose first attempt
      succeeds never touches it. A worker still waiting on the child keeps
      its share. */
  lemma ErrLoopedBalanced(build: Build, env: Env, ts: Transaction, resChan: Chan)
    ensures var r := Work(build, env, ts, resChan);
            var failed := Count(r.trace, Received(Failure)) > 0;
            && Count(r.trace, ErrLoopedIncr) == (if failed then 1 else 0)
            && Count(r.trace, ErrLoopedDecr) == (if failed && !r.exit.Blocked? then 1 else 0)
  {
    ShapeFrom(build, env, ts, resChan, 0);
  }

  /** At every point of a corrected worker's run its share of `errLooped`
      is 0 or 1: a decrement never comes before the increment, and there is
      no increment before an error response. */
  lemma ErrLoopedNeverNegative(env: Env, ts: Transaction, resChan: Chan, k: nat)
    requires k <= |Work(Corrected, env, ts, resChan).trace|
    ensures var p := Work(Corrected, env, ts, resChan).trace[..k];
            && Count(p, ErrLoopedDecr) <= Count(p, ErrLoopedIncr) <= 1
            && Count(p, ErrLoopedIncr) <= Count(p, Received(Failure))
  {
    var t := Work(Corrected, env, ts, resChan).trace;
    FollowsFrom(env, ts, resChan, 0);
    ReplayPrefix(ts, resChan, t, AtIteration(0), k);
    ReplayAccounting(ts, resChan, t[..k], AtIteration(0));
    ReplayOrder(ts, resChan, t[..k], AtIteration(0));
  }

  /** The backoff instance is created lazily: exactly once if an attempt
      fails, never otherwise. */
  lemma LazyBackoff(build: Build, env: Env, ts: Transaction, resChan: Chan)
    ensures var r := Work(build, env, ts, resChan);
            Count(r.trace, BackoffCreated) == (if Count(r.trace, Received(Failure)) > 0 then 1 else 0)
  {
    ShapeFrom(build, env, ts, resChan, 0);
  }

  /** ... and never before the first error response. */
  lemma BackoffAfterFailure(env: Env, ts: Transaction, resChan: Chan, k: nat)
    requires k <= |Work(Corrected, env, ts, resChan).trace|
    ensures var p := Work(Corrected, env, ts, resChan).trace[..k];
            Count(p, BackoffCreated) <= Count(p, Received(Failure)) && Count(p, BackoffCreated) <= 1
  {
    var t := Work(Corrected, env, ts, resChan).trace;
    FollowsFrom(env, ts, resChan, 0);
    ReplayPrefix(ts, resChan, t, AtIteration(0), k);
    ReplayAccounting(ts, resChan, t[..k], AtIteration(0));
    ReplayOrder(ts, resChan, t[..k], AtIteration(0));
  }

  // ---------------------------------------------------------------------------
  // The terminal response

  /** Whichever way the run ends, the transaction's response channel
      receives at most one write: exactly one, of the delivered outcome,
      when the worker delivers, none when it returns on shutdown or is still
      waiting. An acknowledgement comes with the parts-sent metric, a
      negative acknowledgement with the end-of-retries metric. */
  lemma AtMostOneResponse(build: Build, env: Env, ts: Transaction, resChan: Chan)
    ensures var r := Work(build, env, ts, resChan);
            && Writes(r.trace, ts.responseChan) == (if r.exit.Delivered? then 1 else 0)
            && (r.exit.Delivered? ==> Count(r.trace, Wrote(ts.responseChan, r.exit.out)) == 1)
            && (r.exit == Delivered(Ack) ==>
                  Count(r.trace, PartsSuccess(|ts.payload|)) == 1 && Count(r.trace, EndOfRetries) == 0)
            && (r.exit == Delivered(Noack) ==> Count(r.trace, EndOfRetries) == 1)
  {
    ShapeFrom(build, env, ts, resChan, 0);
  }

  /** The corrected worker writes an acknowledgement or a negative one,
      never a nil response, and writes to no channel but the transaction's
      own. */
  lemma ExactlyOneResponse(env: Env, ts: Transaction, resChan: Chan)
    ensures var r := Work(Corrected, env, ts, resChan);
            && (r.exit.Delivered? ==> r.exit.out == Ack || r.exit.out == Noack)
            && Writes(r.trace, ts.responseChan) == (if r.exit.Delivered? then 1 else 0)
            && forall c :: c != ts.responseChan ==> Writes(r.trace, c) == 0
  {
    var t := Work(Corrected, env, ts, resChan).trace;
    ShapeFrom(Corrected, env, ts, resChan, 0);
    FollowsFrom(env, ts, resChan, 0);
    ReplayWrites(ts, resChan, t, AtIteration(0));
  }

  // ---------------------------------------------------------------------------
  // How a run ends

  /** Without shutdown, a run from the head of iteration `i` never gives up
      on its transaction: it delivers an acknowledgement or a negative one,
      or is still waiting for the child's response. Every resubmission is
      taken to send on a `transactionsOut` the coordinator has not closed. */
  lemma {:induction false} NoShutdownFrom(build: Build, env: Env, ts: Transaction, resChan: Chan, i: nat)
    requires i <= |env.responses| && env.shutdown == Never
    ensures var r := Worker(build, env, ts, resChan, i);
            r.exit.Blocked? || r.exit == Delivered(Ack) || r.exit == Delivered(Noack)
    decreases |env.responses| - i
  {
    if Continues(env, i) {
      WorkerResubmits(build, env, ts, resChan, i);
      NoShutdownFrom(build, env, ts, resChan, i + 1);
    }
  }

  /** Without shutdown the worker either answers its transaction, exactly
      once and with an acknowledgement or a negative one, or is still
      waiting for the child. */
  lemma NoShutdownNoAbandon(build: Build, env: Env, ts: Transaction, resChan: Chan)
    requires env.shutdown == Never
    ensures var r := Work(build, env, ts, resChan);
            && (r.exit.Blocked? || r.exit == Delivered(Ack) || r.exit == Delivered(Noack))
            && Writes(r.trace, ts.responseChan) == (if r.exit.Blocked? then 0 else 1)
  {
    NoShutdownFrom(build, env, ts, resChan, 0);
    ShapeFrom(build, env, ts, resChan, 0);
  }

  /** Shutdown is observed in iteration `k` at a point the run reaches:
      every earlier iteration resubmits, and iteration `k` gets as far as
      the point `env.shutdown` names (the loop head and the response wait
      always; the backoff wait and the resubmission after an error whose
      draw is an interval; the final select once the loop has ended). */
  predicate ShutdownReached(env: Env, k: nat)
  {
    && k <= |env.responses|
    && (forall j :: 0 <= j < k ==> Continues(env, j))
    && env.shutdown.At? && env.shutdown.iteration == k
    && match env.shutdown.point
       case LoopHead => true
       case ResponseWait => true
       case BackoffWait => k < |env.responses| && env.responses[k] == Failure && env.draws(k).Interval?
       case ResubmitSend => k < |env.responses| && env.responses[k] == Failure && env.draws(k).Interval?
       case FinalWrite => k < |env.responses| && (env.responses[k] == Success || env.draws(k) == Stop)
  }

  /** When `closeChan` fires at a wait the run reaches, the worker returns
      without writing to the transaction's channel. The one exception is
      the loop head of the source as written, which writes its nil
      response instead. The resubmission is taken to send on a
      `transactionsOut` the coordinator has not closed. */
  lemma ShutdownCancels(build: Build, env: Env, ts: Transaction, resChan: Chan, k: nat)
    requires ShutdownReached(env, k)
    ensures var r := Work(build, env, ts, resChan);
            if build == AsWritten && env.shutdown.point == LoopHead then
              r.exit == Delivered(NilResponse) && Writes(r.trace, ts.responseChan) == 1
            else
              r.exit == Abandoned && Writes(r.trace, ts.responseChan) == 0
  {
    var r := Work(build, env, ts, resChan);
    Unroll(build, env, ts, resChan, 0, k);
    CancelledAt(build, env, ts, resChan, k);
    assert r.exit == Worker(build, env, ts, resChan, k).exit;
    ShapeFrom(build, env, ts, resChan, 0);
  }

  /** The exit of iteration `k` when shutdown is observed there at a point
      it reaches. */
  lemma CancelledAt(build: Build, env: Env, ts: Transaction, resChan: Chan, k: nat)
    requires ShutdownReached(env, k)
    ensures Worker(build, env, ts, resChan, k).exit
            == if build == AsWritten && env.shutdown.point == LoopHead then Delivered(NilResponse) else Abandoned
  {
  }

  /** A run from the head of iteration `i`, whose earlier iterations all
      resubmitted, ends on shutdown only at a point it reaches. */
  lemma {:induction false} AbandonedFrom(build: Build, env: Env, ts: Transaction, resChan: Chan, i: nat)
    requires i <= |env.responses| && forall j :: 0 <= j < i ==> Continues(env, j)
    requires Worker(build, env, ts, resChan, i).exit == Abandoned
    ensures exists k :: ShutdownReached(env, k)
    decreases |env.responses| - i
  {
    if Continues(env, i) {
      WorkerResubmits(build, env, ts, resChan, i);
      AbandonedFrom(build, env, ts, resChan, i + 1);
    } else {
      assert ShutdownReached(env, i);
    }
  }

  /** The worker returns without an answer only on shutdown, and only when
      shutdown comes at a point the run reaches. */
  lemma AbandonsOnlyOnShutdown(build: Build, env: Env, ts: Transaction, resChan: Chan)
    requires Work(build, env, ts, resChan).exit == Abandoned
    ensures exists k :: ShutdownReached(env, k)
  {
    AbandonedFrom(build, env, ts, resChan, 0);
  }

  // ---------------------------------------------------------------------------
  // Resubmission

  /** Every transaction the corrected worker resubmits is the original
      dispatch (the same payload on the same response channel); up to any
      point, there are no more resubmissions than error responses, and no
      more responses than attempts sent. */
  lemma ResubmitOnlyAfterFailure(env: Env, ts: Transaction, resChan: Chan, k: nat)
    requires k <= |Work(Corrected, env, ts, resChan).trace|
    ensures var p := Work(Corrected, env, ts, resChan).trace[..k];
            var d := Dispatch(ts, resChan);
            && d.payload == ts.payload && d.responseChan == resChan
            && (forall x :: x != d ==> Count(p, Resubmitted(x)) == 0)
            && Count(p, Resubmitted(d)) <= Count(p, Received(Failure))
            && Count(p, Received(Success)) + Count(p, Received(Failure)) <= Count(p, Resubmitted(d)) + 1
  {
    var t := Work(Corrected, env, ts, resChan).trace;
    FollowsFrom(env, ts, resChan, 0);
    ReplayPrefix(ts, resChan, t, AtIteration(0), k);
    ReplayAttempts(ts, resChan, t[..k], AtIteration(0));
  }

  /** With no shutdown, `k` error responses each followed by a wait, then an
      error response whose backoff says `Stop`, give `k + 1` attempts: `k`
      resubmissions, a negative acknowledgement and one end of retries. */
  lemma BudgetExhausted(build: Build, env: Env, ts: Transaction, resChan: Chan, k: nat)
    requires env.shutdown == Never && k < |env.responses|
    requires forall j :: 0 <= j <= k ==> env.responses[j] == Failure
    requires forall j :: 0 <= j < k ==> env.draws(j).Interval?
    requires env.draws(k) == Stop
    ensures var r := Work(build, env, ts, resChan);
            && r.exit == Delivered(Noack)
            && Count(r.trace, Received(Failure)) == k + 1
            && Count(r.trace, Resubmitted(Dispatch(ts, resChan))) == k
            && Count(r.trace, EndOfRetries) == 1
            && Count(r.trace, Wrote(ts.responseChan, Noack)) == 1
  {
    assert forall j :: 0 <= j < k ==> Continues(env, j);
    Unroll(build, env, ts, resChan, 0, k);
    WorkerStops(build, env, ts, resChan, k);
    NoackAfterRetries(env, ts, resChan, k, Work(build, env, ts, resChan));
    NoackWritten(env, ts, resChan, k, Work(build, env, ts, resChan));
  }

  /** A run that starts with the events `t` and goes on as `rk` counts the
      events of both and ends as `rk` does. */
  lemma Joined(r: Run, t: seq<Event>, rk: Run, e: Event)
    requires r == Then(t, rk)
    ensures r.exit == rk.exit && Count(r.trace, e) == Count(t, e) + Count(rk.trace, e)
  {
    CountAppend(t, rk.trace);
  }

  /** `k` resubmitting iterations followed by the iteration that exhausts
      the budget: the attempts and resubmissions, counted. */
  lemma NoackAfterRetries(env: Env, ts: Transaction, resChan: Chan, k: nat, r: Run)
    requires forall j :: 0 <= j < k ==> Continues(env, j)
    requires env.shutdown != At(k, FinalWrite)
    requires r == Then(Retries(env, ts, resChan, 0, k), StopRun(env, ts, k))
    ensures && r.exit == Delivered(Noack)
            && Count(r.trace, Received(Failure)) == k + 1
            && Count(r.trace, Resubmitted(Dispatch(ts, resChan))) == k
  {
    var t, rk := Retries(env, ts, resChan, 0, k), StopRun(env, ts, k);
    StopTally(env, ts, resChan, k);
    Joined(r, t, rk, Received(Failure));
    RetriesCount(env, ts, resChan, 0, k, Received(Failure));
    Joined(r, t, rk, Resubmitted(Dispatch(ts, resChan)));
    RetriesCount(env, ts, resChan, 0, k, Resubmitted(Dispatch(ts, resChan)));
  }

  /** ... and its one end of retries and negative acknowledgement. */
  lemma NoackWritten(env: Env, ts: Transaction, resChan: Chan, k: nat, r: Run)
    requires forall j :: 0 <= j < k ==> Continues(env, j)
    requires env.shutdown != At(k, FinalWrite)
    requires r == Then(Retries(env, ts, resChan, 0, k), StopRun(env, ts, k))
    ensures && Count(r.trace, EndOfRetries) == 1
            && Count(r.trace, Wrote(ts.responseChan, Noack)) == 1
  {
    var t, rk := Retries(env, ts, resChan, 0, k), StopRun(env, ts, k);
    StopTally(env, ts, resChan, k);
    Joined(r, t, rk, EndOfRetries);
    RetriesCount(env, ts, resChan, 0, k, EndOfRetries);
    Joined(r, t, rk, Wrote(ts.responseChan, Noack));
    RetriesCount(env, ts, resChan, 0, k, Wrote(ts.responseChan, Noack));
  }

  /** The counts of the iteration that exhausts the budget. */
  lemma StopTally(env: Env, ts: Transaction, resChan: Chan, k: nat)
    requires env.shutdown != At(k, FinalWrite)
    ensures var r := StopRun(env, ts, k);
            && r.exit == Delivered(Noack)
            && Count(r.trace, Received(Failure)) == 1
            && Count(r.trace, Resubmitted(Dispatch(ts, resChan))) == 0
            && Count(r.trace, EndOfRetries) == 1
            && Count(r.trace, Wrote(ts.responseChan, Noack)) == 1
  {
    StopCounts(env, ts, k);
    OnFailureCounts(k > 0, k > 0, Stop);
    LeaveCounts(env, ts, k, true, Noack);
  }

  /** With no shutdown, `f` error responses each followed by a wait, then a
      success, give an acknowledgement after `f` resubmissions; the error
      loop is entered exactly when `f > 0`. */
  lemma RetriesUntilSuccess(build: Build, env: Env, ts: Transaction, resChan: Chan, f: nat)
    requires env.shutdown == Never && f < |env.responses|
    requires forall j :: 0 <= j < f ==> env.responses[j] == Failure && env.draws(j).Interval?
    requires env.responses[f] == Success
    ensures var r := Work(build, env, ts, resChan);
            && r.exit == Delivered(Ack)
            && Count(r.trace, Resubmitted(Dispatch(ts, resChan))) == f
            && Count(r.trace, Received(Success)) == 1
            && Count(r.trace, PartsSuccess(|ts.payload|)) == 1
            && Count(r.trace, ErrLoopedIncr) == Count(r.trace, ErrLoopedDecr) == (if f > 0 then 1 else 0)
            && Count(r.trace, Wrote(ts.responseChan, Ack)) == 1
  {
    assert forall j :: 0 <= j < f ==> Continues(env, j);
    Unroll(build, env, ts, resChan, 0, f);
    WorkerSucceeds(build, env, ts, resChan, f);
    AckAfterRetries(env, ts, resChan, f, Work(build, env, ts, resChan));
    AckWritten(env, ts, resChan, f, Work(build, env, ts, resChan));
  }

  /** `f` resubmitting iterations followed by one whose attempt succeeds:
      the resubmissions and the success, counted. */
  lemma AckAfterRetries(env: Env, ts: Transaction, resChan: Chan, f: nat, r: Run)
    requires forall j :: 0 <= j < f ==> Continues(env, j)
    requires env.shutdown != At(f, FinalWrite)
    requires r == Then(Retries(env, ts, resChan, 0, f), SuccessRun(env, ts, f))
    ensures && r.exit == Delivered(Ack)
            && Count(r.trace, Resubmitted(Dispatch(ts, resChan))) == f
            && Count(r.trace, Received(Success)) == 1
            && Count(r.trace, PartsSuccess(|ts.payload|)) == 1
  {
    var t, rk := Retries(env, ts, resChan, 0, f), SuccessRun(env, ts, f);
    SuccessTally(env, ts, resChan, f);
    Joined(r, t, rk, Resubmitted(Dispatch(ts, resChan)));
    RetriesCount(env, ts, resChan, 0, f, Resubmitted(Dispatch(ts, resChan)));
    Joined(r, t, rk, Received(Success));
    RetriesCount(env, ts, resChan, 0, f, Received(Success));
    Joined(r, t, rk, PartsSuccess(|ts.payload|));
    RetriesCount(env, ts, resChan, 0, f, PartsSuccess(|ts.payload|));
  }

  /** ... and the error loop entered and left once if `f > 0`, and the one
      acknowledgement written. */
  lemma AckWritten(env: Env, ts: Transaction, resChan: Chan, f: nat, r: Run)
    requires forall j :: 0 <= j < f ==> Continues(env, j)
    requires env.shutdown != At(f, FinalWrite)
    requires r == Then(Retries(env, ts, resChan, 0, f), SuccessRun(env, ts, f))
    ensures && Count(r.trace, ErrLoopedIncr) == Count(r.trace, ErrLoopedDecr) == (if f > 0 then 1 else 0)
            && Count(r.trace, Wrote(ts.responseChan, Ack)) == 1
  {
    var t, rk := Retries(env, ts, resChan, 0, f), SuccessRun(env, ts, f);
    SuccessTally(env, ts, resChan, f);
    Joined(r, t, rk, ErrLoopedIncr);
    RetriesCount(env, ts, resChan, 0, f, ErrLoopedIncr);
    Joined(r, t, rk, ErrLoopedDecr);
    RetriesCount(env, ts, resChan, 0, f, ErrLoopedDecr);
    Joined(r, t, rk, Wrote(ts.responseChan, Ack));
    RetriesCount(env, ts, resChan, 0, f, Wrote(ts.responseChan, Ack));
  }

  /** The counts of the iteration whose attempt succeeds. */
  lemma SuccessTally(env: Env, ts: Transaction, resChan: Chan, f: nat)
    requires env.shutdown != At(f, FinalWrite)
    ensures var r := SuccessRun(env, ts, f);
            && r.exit == Delivered(Ack)
            && Count(r.trace, Received(Success)) == 1
            && Count(r.trace, Received(Failure)) == 0
            && Count(r.trace, Resubmitted(Dispatch(ts, resChan))) == 0
            && Count(r.trace, PartsSuccess(|ts.payload|)) == 1
            && Count(r.trace, ErrLoopedIncr) == 0
            && Count(r.trace, ErrLoopedDecr) == (if f > 0 then 1 else 0)
            && Count(r.trace, Wrote(ts.responseChan, Ack)) == 1
  {
    SuccessCounts(env, ts, f);
    LeaveCounts(env, ts, f, f > 0, Ack);
  }

  // ---------------------------------------------------------------------------
  // Shutdown at the loop head

  /** When `running` reads 0 at the head of iteration `k`, after `k` attempts
      that each failed and were resubmitted, the source as written leaves
      the loop with `resOut` unset, and when the final select picks the
      write case it writes that nil response to the transaction's channel;
      the corrected worker returns without writing. */
  lemma AsWrittenLoopHeadSendsNil(env: Env, ts: Transaction, resChan: Chan, k: nat)
    requires env.shutdown == At(k, LoopHead) && k <= |env.responses|
    requires forall j :: 0 <= j < k ==> env.responses[j] == Failure && env.draws(j).Interval?
    ensures var r := Work(AsWritten, env, ts, resChan);
            r.exit == Delivered(NilResponse) && Count(r.trace, Wrote(ts.responseChan, NilResponse)) == 1
    ensures var r := Work(Corrected, env, ts, resChan);
            r.exit == Abandoned && Writes(r.trace, ts.responseChan) == 0
  {
    Unroll(AsWritten, env, ts, resChan, 0, k);
    Unroll(Corrected, env, ts, resChan, 0, k);
    ShapeFrom(AsWritten, env, ts, resChan, 0);
    ShapeFrom(Corrected, env, ts, resChan, 0);
  }

  /** A nil response is outside the worker's protocol: the monitor rejects
      every run of the source as written that ends at the loop head, after
      any number `k` of failed and resubmitted attempts. */
  lemma NilResponseRejected(env: Env, ts: Transaction, resChan: Chan, k: nat)
    requires env.shutdown == At(k, LoopHead) && k <= |env.responses|
    requires forall j :: 0 <= j < k ==> env.responses[j] == Failure && env.draws(j).Interval?
    ensures Replay(ts, resChan, Work(AsWritten, env, ts, resChan).trace, AtIteration(0)) == None
  {
    var t := Work(AsWritten, env, ts, resChan).trace;
    AsWrittenLoopHeadSendsNil(env, ts, resChan, k);
    if Replay(ts, resChan, t, AtIteration(0)).Some? {
      ReplayNoNil(ts, resChan, t, AtIteration(0));
      assert false;
    }
  }
}
