/** The per-transaction retry worker that `Retry.loop` spawns for every
    transaction it dispatches (lib/output/retry.go:253-323), with the
    goroutine's channels, timers and `closeChan` replaced by an `Env`.

    `Worker` gives the run of the worker as a function of its environment;
    `Accept`/`Replay` state, independently of it, the protocol every run must
    follow; the lemmas connect the two and derive the source's promises. */
module RetryWorker {
  import opened RetryTypes

  /** The source as written, or with the loop-head exit corrected (see
      `AsWrittenLoopHeadSendsNil` and `ExactlyOneResponse`). */
  datatype Build = AsWritten | Corrected

  /** The transaction the coordinator sends to the child output: the
      original payload paired with a fresh response channel (line 247). */
  function Dispatch(tran: Transaction, rChan: Chan): Transaction
  {
    Transaction(tran.payload, rChan)
  }

  /** The worker's deferred function: leaving the error loop gives back the
      worker's share of `errLooped`. */
  function Deferred(inErrLoop: bool): seq<Event>
  {
    if inErrLoop then [ErrLoopedDecr] else []
  }

  function Then(pre: seq<Event>, r: Run): Run
  {
    Run(pre + r.trace, r.exit)
  }

  /** After the retry loop ended in iteration `i` with `resOut == out`: the
      final select writes `out` to the transaction's own response channel
      unless shutdown wins it; then the deferred function runs. */
  function Leave(env: Env, ts: Transaction, i: nat, inErrLoop: bool, out: Outcome): Run
  {
    if env.shutdown == At(i, FinalWrite) then Run(Deferred(inErrLoop), Abandoned)
    else Run([Wrote(ts.responseChan, out)] + Deferred(inErrLoop), Delivered(out))
  }

  /** The events of an error response up to `backOff.NextBackOff()`: the
      first error of the transaction raises `errLooped`, the backoff instance
      is created only if there is none yet, and one value is drawn from it. */
  function OnFailure(inErrLoop: bool, created: bool, v: BackoffValue): seq<Event>
  {
    [Received(Failure)] + (if inErrLoop then [] else [ErrLoopedIncr])
    + (if created then [] else [BackoffCreated]) + [Drawn(v)]
  }

  /** The rest of a worker's run from the head of loop iteration `i`. Only
      a failed attempt leads to another iteration, and the first failure
      sets both of the worker's flags, so at the head of iteration `i` the
      flags `inErrLoop` and `backOff != nil` both hold exactly when `i > 0`. */
  function Worker(build: Build, env: Env, ts: Transaction, resChan: Chan, i: nat): (r: Run)
    requires i <= |env.responses|
    ensures r.exit == Delivered(NilResponse) ==>
              build == AsWritten && env.shutdown.At? && env.shutdown.point == LoopHead
    decreases |env.responses| - i
  {
    if env.shutdown == At(i, LoopHead) then
      // `running` reads 0: the loop ends with `resOut` still unset
      match build
      case AsWritten => Leave(env, ts, i, i > 0, NilResponse)
      case Corrected => Run(Deferred(i > 0), Abandoned)
    else if env.shutdown == At(i, ResponseWait) then
      Run(Deferred(i > 0), Abandoned)
    else if i == |env.responses| then
      Run([], Blocked)
    else if env.responses[i].Success? then
      Then([Received(Success), PartsSuccess(|ts.payload|)], Leave(env, ts, i, i > 0, Ack))
    else
      var pre := OnFailure(i > 0, i > 0, env.draws(i));
      match env.draws(i)
      case Stop =>
        Then(pre + [EndOfRetries], Leave(env, ts, i, true, Noack))
      case Interval(d) =>
        if env.shutdown == At(i, BackoffWait) then
          Run(pre + Deferred(true), Abandoned)
        else if env.shutdown == At(i, ResubmitSend) then
          Run(pre + [Waited(d)] + Deferred(true), Abandoned)
        else
          Then(pre + [Waited(d), Resubmitted(Dispatch(ts, resChan))],
               Worker(build, env, ts, resChan, i + 1))
  }

  lemma ThenAssoc(a: seq<Event>, b: seq<Event>, r: Run)
    ensures Then(a + b, r) == Then(a, Then(b, r))
  {
    assert (a + b) + r.trace == a + (b + r.trace);
  }

  /** The run from the head of iteration `i` when `running` reads 0 there. */
  lemma WorkerStopsRunning(build: Build, env: Env, ts: Transaction, resChan: Chan, i: nat)
    requires i <= |env.responses| && env.shutdown == At(i, LoopHead)
    ensures Worker(build, env, ts, resChan, i)
            == if build == AsWritten then Leave(env, ts, i, i > 0, NilResponse) else Run(Deferred(i > 0), Abandoned)
  {
  }

  /** The run from the head of iteration `i` when its attempt succeeds. */
  lemma WorkerSucceeds(build: Build, env: Env, ts: Transaction, resChan: Chan, i: nat)
    requires i < |env.responses| && env.responses[i] == Success
    requires env.shutdown != At(i, LoopHead) && env.shutdown != At(i, ResponseWait)
    ensures Worker(build, env, ts, resChan, i)
            == Then([Received(Success), PartsSuccess(|ts.payload|)], Leave(env, ts, i, i > 0, Ack))
  {
  }

  /** ... when its attempt fails and the backoff says `Stop`. */
  lemma WorkerStops(build: Build, env: Env, ts: Transaction, resChan: Chan, i: nat)
    requires i < |env.responses| && env.responses[i] == Failure && env.draws(i) == Stop
    requires env.shutdown != At(i, LoopHead) && env.shutdown != At(i, ResponseWait)
    ensures Worker(build, env, ts, resChan, i)
            == Then(OnFailure(i > 0, i > 0, Stop) + [EndOfRetries], Leave(env, ts, i, true, Noack))
  {
  }

  /** ... when its attempt fails and shutdown comes during or after the wait. */
  lemma WorkerAbandons(build: Build, env: Env, ts: Transaction, resChan: Chan, i: nat)
    requires i < |env.responses| && env.responses[i] == Failure && env.draws(i).Interval?
    requires env.shutdown == At(i, BackoffWait) || env.shutdown == At(i, ResubmitSend)
    ensures var pre := OnFailure(i > 0, i > 0, env.draws(i));
            Worker(build, env, ts, resChan, i)
            == if env.shutdown == At(i, BackoffWait) then Run(pre + Deferred(true), Abandoned)
               else Run(pre + [Waited(env.draws(i).millis)] + Deferred(true), Abandoned)
  {
  }

  /** ... when it resubmits. */
  lemma WorkerResubmits(build: Build, env: Env, ts: Transaction, resChan: Chan, i: nat)
    requires Continues(env, i)
    ensures var d := env.draws(i).millis;
            Worker(build, env, ts, resChan, i)
            == Then(OnFailure(i > 0, i > 0, env.draws(i)) + [Waited(d)] + [Resubmitted(Dispatch(ts, resChan))],
                    Worker(build, env, ts, resChan, i + 1))
  {
    var d := env.draws(i).millis;
    var pre := OnFailure(i > 0, i > 0, env.draws(i));
    assert pre + [Waited(d)] + [Resubmitted(Dispatch(ts, resChan))]
        == pre + [Waited(d), Resubmitted(Dispatch(ts, resChan))];
  }

  /** The whole run of the worker for transaction `ts`, dispatched on `resChan`. */
  function Work(build: Build, env: Env, ts: Transaction, resChan: Chan): Run
  {
    Worker(build, env, ts, resChan, 0)
  }

  // ---------------------------------------------------------------------------
  // The protocol of a worker, as a monitor over its events

  datatype Phase =
    | Awaiting              // an attempt is with the child; its response is awaited
    | Succeeded             // the child acknowledged the attempt
    | Failed                // the child reported an error for the attempt
    | Exhausted             // the backoff said Stop
    | Sleeping(millis: nat) // waiting out the backoff interval
    | Resubmitting          // about to send the payload again
    | Deciding(out: Outcome)// the terminal outcome is fixed, not yet written
    | Written               // the terminal outcome was written
    | Exited                // the deferred decrement ran

  /** `level` is the worker's share of `errLooped`; `entered` records that it
      has ever incremented it; `created` that it has a backoff instance. */
  datatype Monitor = Monitor(phase: Phase, level: nat, entered: bool, created: bool)

  /** The monitor's state at the head of loop iteration `i`. */
  function AtIteration(i: nat): Monitor
  {
    Monitor(Awaiting, if i > 0 then 1 else 0, i > 0, i > 0)
  }

  /** The monitor's step on event `e`, or None when `e` breaks the protocol. */
  function Accept(ts: Transaction, resChan: Chan, m: Monitor, e: Event): Option<Monitor>
  {
    match e
    case Received(res) =>
      if m.phase == Awaiting then Some(m.(phase := if res.Success? then Succeeded else Failed)) else None
    case PartsSuccess(n) =>
      if m.phase == Succeeded && n == |ts.payload| then Some(m.(phase := Deciding(Ack))) else None
    case ErrLoopedIncr =>
      if m.phase == Failed && !m.entered then Some(m.(level := 1, entered := true)) else None
    case BackoffCreated =>
      if m.phase == Failed && m.entered && !m.created then Some(m.(created := true)) else None
    case Drawn(v) =>
      if m.phase == Failed && m.entered && m.created then
        Some(m.(phase := if v.Stop? then Exhausted else Sleeping(v.millis)))
      else None
    case EndOfRetries =>
      if m.phase == Exhausted then Some(m.(phase := Deciding(Noack))) else None
    case Waited(d) =>
      if m.phase == Sleeping(d) then Some(m.(phase := Resubmitting)) else None
    case Resubmitted(t) =>
      if m.phase == Resubmitting && t == Dispatch(ts, resChan) then Some(m.(phase := Awaiting)) else None
    case Wrote(c, o) =>
      if m.phase == Deciding(o) && c == ts.responseChan then Some(m.(phase := Written)) else None
    case ErrLoopedDecr =>
      if m.level == 1 && (m.phase.Awaiting? || m.phase.Sleeping? || m.phase.Resubmitting?
                          || m.phase.Deciding? || m.phase.Written?)
      then Some(m.(phase := Exited, level := 0))
      else None
  }

  /** The monitor's state after the events `t`, or None if `t` breaks the protocol. */
  function Replay(ts: Transaction, resChan: Chan, t: seq<Event>, m: Monitor): Option<Monitor>
    decreases |t|
  {
    if t == [] then Some(m)
    else match Accept(ts, resChan, m, t[0])
      case None => None
      case Some(m1) => Replay(ts, resChan, t[1..], m1)
  }

  lemma {:induction false} ReplayAppend(ts: Transaction, resChan: Chan, a: seq<Event>, b: seq<Event>, m: Monitor)
    ensures Replay(ts, resChan, a + b, m) ==
            match Replay(ts, resChan, a, m)
            case None => None
            case Some(m1) => Replay(ts, resChan, b, m1)
    decreases |a|
  {
    if a == [] {
      assert a + b == b;
    } else {
      assert (a + b)[0] == a[0];
      assert (a + b)[1..] == a[1..] + b;
      match Accept(ts, resChan, m, a[0])
      case None =>
      case Some(m1) => ReplayAppend(ts, resChan, a[1..], b, m1);
    }
  }

  /** From the head of iteration `i`, an error response and its draw leave
      the worker in the error loop with a backoff instance. */
  lemma {:induction false} ReplayOnFailure(ts: Transaction, resChan: Chan, i: nat, v: BackoffValue)
    ensures Replay(ts, resChan, OnFailure(i > 0, i > 0, v), AtIteration(i)) ==
            Some(Monitor(if v.Stop? then Exhausted else Sleeping(v.millis), 1, true, true))
  {
    var a, b := [Received(Failure)], if i > 0 then [] else [ErrLoopedIncr];
    var c, d := if i > 0 then [] else [BackoffCreated], [Drawn(v)];
    ReplayAppend(ts, resChan, a + b + c, d, AtIteration(i));
    ReplayAppend(ts, resChan, a + b, c, AtIteration(i));
    ReplayAppend(ts, resChan, a, b, AtIteration(i));
  }

  /** The final write and the deferred decrement, once the outcome is decided. */
  lemma {:induction false} ReplayLeave(env: Env, ts: Transaction, resChan: Chan, i: nat, inErrLoop: bool, m: Monitor)
    requires m.phase.Deciding? && m.level == (if inErrLoop then 1 else 0)
    ensures var r := Leave(env, ts, i, inErrLoop, m.phase.out);
            var f := Replay(ts, resChan, r.trace, m);
            f.Some? && f.value.level == 0
  {
    var w := [Wrote(ts.responseChan, m.phase.out)];
    ReplayAppend(ts, resChan, w, Deferred(inErrLoop), m);
  }

  /** An iteration that succeeds follows the protocol and gives back the
      worker's share of `errLooped`. */
  lemma ReplaySuccess(env: Env, ts: Transaction, resChan: Chan, i: nat)
    ensures var f := Replay(ts, resChan, SuccessRun(env, ts, i).trace, AtIteration(i));
            f.Some? && f.value.level == 0
  {
    var m := AtIteration(i);
    var pre := [Received(Success), PartsSuccess(|ts.payload|)];
    ReplayAppend(ts, resChan, pre, Leave(env, ts, i, i > 0, Ack).trace, m);
    ReplayAppend(ts, resChan, [Received(Success)], [PartsSuccess(|ts.payload|)], m);
    ReplayLeave(env, ts, resChan, i, i > 0, m.(phase := Deciding(Ack)));
  }

  /** So does an iteration whose backoff says `Stop`. */
  lemma ReplayStop(env: Env, ts: Transaction, resChan: Chan, i: nat)
    ensures var f := Replay(ts, resChan, StopRun(env, ts, i).trace, AtIteration(i));
            f.Some? && f.value.level == 0
  {
    var m := AtIteration(i);
    var pre := OnFailure(i > 0, i > 0, Stop);
    ReplayOnFailure(ts, resChan, i, Stop);
    ReplayAppend(ts, resChan, pre + [EndOfRetries], Leave(env, ts, i, true, Noack).trace, m);
    ReplayAppend(ts, resChan, pre, [EndOfRetries], m);
    ReplayLeave(env, ts, resChan, i, true, Monitor(Deciding(Noack), 1, true, true));
  }

  /** So does an iteration shut down around its backoff wait. */
  lemma ReplayAbandon(ts: Transaction, resChan: Chan, i: nat, d: nat, waited: bool)
    ensures var f := Replay(ts, resChan, AbandonRun(i, d, waited).trace, AtIteration(i));
            f.Some? && f.value.level == 0
  {
    var m := AtIteration(i);
    var pre := OnFailure(i > 0, i > 0, Interval(d));
    var w: seq<Event> := if waited then [Waited(d)] else [];
    ReplayOnFailure(ts, resChan, i, Interval(d));
    ReplayAppend(ts, resChan, pre + w, Deferred(true), m);
    ReplayAppend(ts, resChan, pre, w, m);
  }

  /** An iteration that resubmits brings the monitor to the head of the
      next iteration. */
  lemma ReplayStep(ts: Transaction, resChan: Chan, i: nat, d: nat)
    ensures var step := OnFailure(i > 0, i > 0, Interval(d)) + [Waited(d), Resubmitted(Dispatch(ts, resChan))];
            Replay(ts, resChan, step, AtIteration(i)) == Some(AtIteration(i + 1))
  {
    var m := AtIteration(i);
    var pre := OnFailure(i > 0, i > 0, Interval(d));
    ReplayOnFailure(ts, resChan, i, Interval(d));
    ReplayAppend(ts, resChan, pre, [Waited(d), Resubmitted(Dispatch(ts, resChan))], m);
    ReplayAppend(ts, resChan, [Waited(d)], [Resubmitted(Dispatch(ts, resChan))], Monitor(Sleeping(d), 1, true, true));
  }

  /** Every run of the corrected worker from the head of iteration `i`
      follows the protocol; once it has ended, its share of `errLooped` is
      back to zero, and while it is blocked it is still awaiting a response. */
  lemma {:induction false} FollowsFrom(env: Env, ts: Transaction, resChan: Chan, i: nat)
    requires i <= |env.responses|
    ensures var r := Worker(Corrected, env, ts, resChan, i);
            var f := Replay(ts, resChan, r.trace, AtIteration(i));
            && f.Some?
            && (!r.exit.Blocked? ==> f.value.level == 0)
            && (r.exit.Blocked? ==> f.value.phase == Awaiting)
    decreases |env.responses| - i
  {
    var r := Worker(Corrected, env, ts, resChan, i);
    if Continues(env, i) {
      var d := env.draws(i).millis;
      var step := OnFailure(i > 0, i > 0, Interval(d)) + [Waited(d), Resubmitted(Dispatch(ts, resChan))];
      var rest := Worker(Corrected, env, ts, resChan, i + 1);
      assert r.trace == step + rest.trace;
      ReplayStep(ts, resChan, i, d);
      ReplayAppend(ts, resChan, step, rest.trace, AtIteration(i));
      FollowsFrom(env, ts, resChan, i + 1);
    } else if env.shutdown == At(i, LoopHead) || env.shutdown == At(i, ResponseWait) || i == |env.responses| {
    } else if env.responses[i] == Success {
      ReplaySuccess(env, ts, resChan, i);
    } else if env.draws(i) == Stop {
      ReplayStop(env, ts, resChan, i);
    } else {
      var waited := env.shutdown == At(i, ResubmitSend);
      ReplayAbandon(ts, resChan, i, env.draws(i).millis, waited);
      assert r == AbandonRun(i, env.draws(i).millis, waited);
    }
  }

  // ---------------------------------------------------------------------------
  // What every trace the monitor accepts satisfies

  /** The share of `errLooped` the monitor tracks is the increments minus the
      decrements seen, and a worker increments at most once. */
  lemma {:induction false} ReplayAccounting(ts: Transaction, resChan: Chan, t: seq<Event>, m: Monitor)
    requires Replay(ts, resChan, t, m).Some?
    requires m.level == (if m.entered then 1 else 0) || m.phase == Exited
    ensures Replay(ts, resChan, t, m).value.level == m.level + Count(t, ErrLoopedIncr) - Count(t, ErrLoopedDecr)
    ensures Count(t, ErrLoopedIncr) <= (if m.entered then 0 else 1)
    ensures Count(t, BackoffCreated) <= (if m.created then 0 else 1)
    decreases |t|
  {
    if t != [] {
      assert t == [t[0]] + t[1..];
      var m1 := Accept(ts, resChan, m, t[0]).value;
      ReplayAccounting(ts, resChan, t[1..], m1);
    }
  }

  function WritesLeft(m: Monitor): nat
  {
    if m.phase.Written? || m.phase.Exited? then 0 else 1
  }

  /** A trace the monitor accepts writes at most one terminal response, and
      only to the transaction's own response channel. */
  lemma {:induction false} ReplayWrites(ts: Transaction, resChan: Chan, t: seq<Event>, m: Monitor)
    requires Replay(ts, resChan, t, m).Some?
    ensures Writes(t, ts.responseChan) <= WritesLeft(m)
    ensures forall c :: c != ts.responseChan ==> Writes(t, c) == 0
    decreases |t|
  {
    if t != [] {
      assert t == [t[0]] + t[1..];
      var m1 := Accept(ts, resChan, m, t[0]).value;
      ReplayWrites(ts, resChan, t[1..], m1);
      forall c | c != ts.responseChan
        ensures Writes(t, c) == 0
      {
        assert Writes(t[1..], c) == 0;
      }
    }
  }

  /** The monitor never decides a nil response, so a trace it accepts from
      any other state writes no nil response. */
  lemma {:induction false} ReplayNoNil(ts: Transaction, resChan: Chan, t: seq<Event>, m: Monitor)
    requires Replay(ts, resChan, t, m).Some?
    requires m.phase != Deciding(NilResponse)
    ensures forall c :: Count(t, Wrote(c, NilResponse)) == 0
    decreases |t|
  {
    if t != [] {
      var m1 := Accept(ts, resChan, m, t[0]).value;
      ReplayNoNil(ts, resChan, t[1..], m1);
    }
  }

  /** 1 while an attempt is with the child. */
  function InFlight(m: Monitor): nat
  {
    if m.phase == Awaiting then 1 else 0
  }

  /** 1 between an error response and the resubmission it may lead to. */
  function Pending(m: Monitor): nat
  {
    if m.phase == Failed || m.phase.Sleeping? || m.phase == Resubmitting then 1 else 0
  }

  /** In a trace the monitor accepts, each response answers an attempt in
      flight, each resubmission follows an error response, and every
      resubmission is the original dispatch. */
  lemma {:induction false} ReplayAttempts(ts: Transaction, resChan: Chan, t: seq<Event>, m: Monitor)
    requires Replay(ts, resChan, t, m).Some?
    ensures var d := Dispatch(ts, resChan);
            Count(t, Received(Success)) + Count(t, Received(Failure)) <= Count(t, Resubmitted(d)) + InFlight(m)
    ensures Count(t, Resubmitted(Dispatch(ts, resChan))) <= Count(t, Received(Failure)) + Pending(m)
    ensures forall x :: x != Dispatch(ts, resChan) ==> Count(t, Resubmitted(x)) == 0
    decreases |t|
  {
    if t != [] {
      assert t == [t[0]] + t[1..];
      var m1 := Accept(ts, resChan, m, t[0]).value;
      ReplayAttempts(ts, resChan, t[1..], m1);
    }
  }

  /** In a trace the monitor accepts, the error loop is entered and the
      backoff instance created only after an error response. */
  lemma {:induction false} ReplayOrder(ts: Transaction, resChan: Chan, t: seq<Event>, m: Monitor)
    requires Replay(ts, resChan, t, m).Some?
    ensures Count(t, ErrLoopedIncr) <= Count(t, Received(Failure)) + (if m.phase == Failed && !m.entered then 1 else 0)
    ensures Count(t, BackoffCreated) <= Count(t, Received(Failure)) + (if m.phase == Failed && !m.created then 1 else 0)
    decreases |t|
  {
    if t != [] {
      assert t == [t[0]] + t[1..];
      var m1 := Accept(ts, resChan, m, t[0]).value;
      ReplayOrder(ts, resChan, t[1..], m1);
    }
  }

  /** Every prefix of a trace the monitor accepts is accepted too. */
  lemma ReplayPrefix(ts: Transaction, resChan: Chan, t: seq<Event>, m: Monitor, k: nat)
    requires Replay(ts, resChan, t, m).Some? && k <= |t|
    ensures Replay(ts, resChan, t[..k], m).Some?
  {
    assert t == t[..k] + t[k..];
    ReplayAppend(ts, resChan, t[..k], t[k..], m);
  }

  // ---------------------------------------------------------------------------
  // Counts over a worker's run

  lemma DeferredCounts(inErrLoop: bool)
    ensures forall e :: Count(Deferred(inErrLoop), e) == if inErrLoop && e == ErrLoopedDecr then 1 else 0
  {
    if inErrLoop {
      CountSingle(ErrLoopedDecr);
    }
  }

  /** The final write and the deferred decrement: the outcome, written at
      most once and only to the transaction's channel, and the worker's
      share of `errLooped` given back. */
  lemma LeaveCounts(env: Env, ts: Transaction, i: nat, inErrLoop: bool, out: Outcome)
    ensures var l := Leave(env, ts, i, inErrLoop, out);
            && !l.exit.Blocked?
            && (l.exit.Delivered? ==> l.exit.out == out)
            && forall e :: Count(l.trace, e) ==
                 (if l.exit.Delivered? && e == Wrote(ts.responseChan, out) then 1 else 0)
                 + (if inErrLoop && e == ErrLoopedDecr then 1 else 0)
  {
    DeferredCounts(inErrLoop);
    var w := Wrote(ts.responseChan, out);
    CountSingle(w);
    CountAppend([w], Deferred(inErrLoop));
  }

  lemma OnFailureCounts(inErrLoop: bool, created: bool, v: BackoffValue)
    ensures forall e :: Count(OnFailure(inErrLoop, created, v), e) ==
              (if e == Received(Failure) then 1 else 0)
              + (if !inErrLoop && e == ErrLoopedIncr then 1 else 0)
              + (if !created && e == BackoffCreated then 1 else 0)
              + (if e == Drawn(v) then 1 else 0)
  {
    var a, b := [Received(Failure)], if inErrLoop then [] else [ErrLoopedIncr];
    var c, d := if created then [] else [BackoffCreated], [Drawn(v)];
    CountSingle(Received(Failure));
    CountSingle(ErrLoopedIncr);
    CountSingle(BackoffCreated);
    CountSingle(Drawn(v));
    CountAppend(a, b);
    CountAppend(a + b, c);
    CountAppend(a + b + c, d);
  }

  /** Iteration `i` ends with a resubmission, so the loop goes on. */
  predicate Continues(env: Env, i: nat)
  {
    && i < |env.responses| && env.responses[i] == Failure && env.draws(i).Interval?
    && env.shutdown != At(i, LoopHead) && env.shutdown != At(i, ResponseWait)
    && env.shutdown != At(i, BackoffWait) && env.shutdown != At(i, ResubmitSend)
  }

  /** The events of an iteration that goes on, counted. */
  lemma StepCounts(build: Build, env: Env, ts: Transaction, resChan: Chan, i: nat)
    requires Continues(env, i)
    ensures var r := Worker(build, env, ts, resChan, i);
            var rest := Worker(build, env, ts, resChan, i + 1);
            && r.exit == rest.exit
            && forall e :: Count(r.trace, e) ==
                 Count(OnFailure(i > 0, i > 0, env.draws(i)), e)
                 + (if e == Waited(env.draws(i).millis) then 1 else 0)
                 + (if e == Resubmitted(Dispatch(ts, resChan)) then 1 else 0)
                 + Count(rest.trace, e)
  {
    var r := Worker(build, env, ts, resChan, i);
    var rest := Worker(build, env, ts, resChan, i + 1);
    var pre := OnFailure(i > 0, i > 0, env.draws(i));
    var w, s := Waited(env.draws(i).millis), Resubmitted(Dispatch(ts, resChan));
    assert [w, s] == [w] + [s];
    CountSingle(w);
    CountSingle(s);
    CountAppend([w], [s]);
    CountAppend([w, s], rest.trace);
    CountAppend(pre, [w, s] + rest.trace);
    assert r.trace == pre + ([w, s] + rest.trace);
  }

  /** What a run from the head of iteration `i` shows, whichever way it
      ends: a first failure raises `errLooped` and creates the backoff
      instance once, a decrement follows whenever the run leaves the loop
      after raising it, the transaction's channel receives exactly one write
      when the run delivers and none otherwise, and each outcome comes with
      its metric. */
  predicate Shape(build: Build, ts: Transaction, r: Run, i: nat)
  {
    ErrLoopedShape(r, i) && OutputShape(build, ts, r)
  }

  /** A first failure raises `errLooped` and creates the backoff instance
      once; a decrement follows whenever the run leaves the loop after
      raising it. */
  predicate ErrLoopedShape(r: Run, i: nat)
  {
    var failed := Count(r.trace, Received(Failure)) > 0;
    && Count(r.trace, ErrLoopedIncr) == (if i == 0 && failed then 1 else 0)
    && Count(r.trace, BackoffCreated) == (if i == 0 && failed then 1 else 0)
    && Count(r.trace, ErrLoopedDecr) == (if r.exit.Blocked? || (i == 0 && !failed) then 0 else 1)
  }

  /** The transaction's channel receives exactly one write when the run
      delivers and none otherwise, and each outcome comes with its metric. */
  predicate OutputShape(build: Build, ts: Transaction, r: Run)
  {
    && Writes(r.trace, ts.responseChan) == (if r.exit.Delivered? then 1 else 0)
    && (r.exit.Delivered? ==> Count(r.trace, Wrote(ts.responseChan, r.exit.out)) == 1)
    && (build == Corrected ==> r.exit != Delivered(NilResponse))
    && (r.exit == Delivered(Ack) ==>
          Count(r.trace, PartsSuccess(|ts.payload|)) == 1 && Count(r.trace, EndOfRetries) == 0)
    && (r.exit == Delivered(Noack) ==> Count(r.trace, EndOfRetries) == 1)
  }

  /** A run that ends at the loop head, while waiting for the response, or
      still waiting for it. */
  lemma EarlyLast(build: Build, env: Env, ts: Transaction, resChan: Chan, i: nat)
    requires i <= |env.responses|
    requires env.shutdown == At(i, LoopHead) || env.shutdown == At(i, ResponseWait) || i == |env.responses|
    ensures Shape(build, ts, Worker(build, env, ts, resChan, i), i)
  {
    if env.shutdown == At(i, LoopHead) && build == AsWritten {
      LeaveCounts(env, ts, i, i > 0, NilResponse);
    } else if env.shutdown == At(i, LoopHead) || env.shutdown == At(i, ResponseWait) {
      DeferredCounts(i > 0);
    }
  }

  /** The run of an iteration whose attempt succeeds. */
  function SuccessRun(env: Env, ts: Transaction, i: nat): Run
  {
    Then([Received(Success), PartsSuccess(|ts.payload|)], Leave(env, ts, i, i > 0, Ack))
  }

  lemma SuccessCounts(env: Env, ts: Transaction, i: nat)
    ensures forall e :: Count(SuccessRun(env, ts, i).trace, e) ==
              (if e == Received(Success) then 1 else 0) + (if e == PartsSuccess(|ts.payload|) then 1 else 0)
              + Count(Leave(env, ts, i, i > 0, Ack).trace, e)
  {
    var a, b := Received(Success), PartsSuccess(|ts.payload|);
    assert [a, b] == [a] + [b];
    CountSingle(a);
    CountSingle(b);
    CountAppend([a], [b]);
    CountAppend([a, b], Leave(env, ts, i, i > 0, Ack).trace);
  }

  lemma SuccessErrLooped(env: Env, ts: Transaction, i: nat)
    ensures ErrLoopedShape(SuccessRun(env, ts, i), i)
  {
    SuccessCounts(env, ts, i);
    LeaveCounts(env, ts, i, i > 0, Ack);
  }

  lemma SuccessOutput(build: Build, env: Env, ts: Transaction, i: nat)
    ensures OutputShape(build, ts, SuccessRun(env, ts, i))
  {
    SuccessCounts(env, ts, i);
    LeaveCounts(env, ts, i, i > 0, Ack);
  }

  /** The run of an iteration whose attempt fails and whose backoff says
      `Stop`. */
  function StopRun(env: Env, ts: Transaction, i: nat): Run
  {
    Then(OnFailure(i > 0, i > 0, Stop) + [EndOfRetries], Leave(env, ts, i, true, Noack))
  }

  lemma StopCounts(env: Env, ts: Transaction, i: nat)
    ensures forall e :: Count(StopRun(env, ts, i).trace, e) ==
              Count(OnFailure(i > 0, i > 0, Stop), e) + (if e == EndOfRetries then 1 else 0)
              + Count(Leave(env, ts, i, true, Noack).trace, e)
  {
    var pre := OnFailure(i > 0, i > 0, Stop);
    CountSingle(EndOfRetries);
    CountAppend(pre, [EndOfRetries]);
    CountAppend(pre + [EndOfRetries], Leave(env, ts, i, true, Noack).trace);
  }

  lemma StopErrLooped(env: Env, ts: Transaction, i: nat)
    ensures ErrLoopedShape(StopRun(env, ts, i), i)
  {
    StopCounts(env, ts, i);
    OnFailureCounts(i > 0, i > 0, Stop);
    LeaveCounts(env, ts, i, true, Noack);
  }

  lemma StopOutput(build: Build, env: Env, ts: Transaction, i: nat)
    ensures OutputShape(build, ts, StopRun(env, ts, i))
  {
    StopCounts(env, ts, i);
    OnFailureCounts(i > 0, i > 0, Stop);
    LeaveCounts(env, ts, i, true, Noack);
  }

  /** The run of an iteration whose attempt fails and which is shut down
      before or after the wait, without resubmitting. */
  function AbandonRun(i: nat, d: nat, waited: bool): Run
  {
    Run(OnFailure(i > 0, i > 0, Interval(d)) + (if waited then [Waited(d)] else []) + Deferred(true), Abandoned)
  }

  lemma AbandonCounts(i: nat, d: nat, waited: bool)
    ensures forall e :: Count(AbandonRun(i, d, waited).trace, e) ==
              Count(OnFailure(i > 0, i > 0, Interval(d)), e) + (if waited && e == Waited(d) then 1 else 0)
              + (if e == ErrLoopedDecr then 1 else 0)
  {
    var pre := OnFailure(i > 0, i > 0, Interval(d));
    var w: seq<Event> := if waited then [Waited(d)] else [];
    DeferredCounts(true);
    CountSingle(Waited(d));
    CountAppend(pre, w);
    CountAppend(pre + w, Deferred(true));
  }

  lemma AbandonErrLooped(i: nat, d: nat, waited: bool)
    ensures ErrLoopedShape(AbandonRun(i, d, waited), i)
  {
    AbandonCounts(i, d, waited);
    OnFailureCounts(i > 0, i > 0, Interval(d));
  }

  lemma AbandonOutput(build: Build, ts: Transaction, i: nat, d: nat, waited: bool)
    ensures OutputShape(build, ts, AbandonRun(i, d, waited))
  {
    AbandonCounts(i, d, waited);
    OnFailureCounts(i > 0, i > 0, Interval(d));
  }

  /** An iteration that resubmits keeps `errLooped`'s shape from the next
      iteration's run to the whole run. */
  lemma ErrLoopedStep(r: Run, rest: Run, i: nat, d: nat, x: Transaction)
    requires r.exit == rest.exit
    requires forall e :: Count(r.trace, e) ==
               Count(OnFailure(i > 0, i > 0, Interval(d)), e)
               + (if e == Waited(d) then 1 else 0)
               + (if e == Resubmitted(x) then 1 else 0)
               + Count(rest.trace, e)
    requires ErrLoopedShape(rest, i + 1)
    ensures ErrLoopedShape(r, i)
  {
    OnFailureCounts(i > 0, i > 0, Interval(d));
  }

  /** An iteration that resubmits writes nothing and records no outcome
      metric. */
  lemma OutputStep(build: Build, ts: Transaction, r: Run, rest: Run, i: nat, d: nat, x: Transaction)
    requires r.exit == rest.exit
    requires forall e :: Count(r.trace, e) ==
               Count(OnFailure(i > 0, i > 0, Interval(d)), e)
               + (if e == Waited(d) then 1 else 0)
               + (if e == Resubmitted(x) then 1 else 0)
               + Count(rest.trace, e)
    requires OutputShape(build, ts, rest)
    ensures OutputShape(build, ts, r)
  {
    OnFailureCounts(i > 0, i > 0, Interval(d));
  }

  /** `Shape` holds of every run from the head of iteration `i`, for the
      source as written and the corrected worker alike. */
  lemma {:induction false} ShapeFrom(build: Build, env: Env, ts: Transaction, resChan: Chan, i: nat)
    requires i <= |env.responses|
    ensures Shape(build, ts, Worker(build, env, ts, resChan, i), i)
    decreases |env.responses| - i
  {
    var r := Worker(build, env, ts, resChan, i);
    if Continues(env, i) {
      var rest := Worker(build, env, ts, resChan, i + 1);
      var d, x := env.draws(i).millis, Dispatch(ts, resChan);
      StepCounts(build, env, ts, resChan, i);
      ShapeFrom(build, env, ts, resChan, i + 1);
      ErrLoopedStep(r, rest, i, d, x);
      OutputStep(build, ts, r, rest, i, d, x);
    } else if env.shutdown == At(i, LoopHead) || env.shutdown == At(i, ResponseWait) || i == |env.responses| {
      EarlyLast(build, env, ts, resChan, i);
    } else if env.responses[i] == Success {
      SuccessErrLooped(env, ts, i);
      SuccessOutput(build, env, ts, i);
    } else if env.draws(i) == Stop {
      StopErrLooped(env, ts, i);
      StopOutput(build, env, ts, i);
    } else {
      var waited := env.shutdown == At(i, ResubmitSend);
      AbandonErrLooped(i, env.draws(i).millis, waited);
      AbandonOutput(build, ts, i, env.draws(i).millis, waited);
      assert r == AbandonRun(i, env.draws(i).millis, waited);
    }
  }

  /** The events of iteration `i` when it fails, waits for its backoff
      interval and resubmits the original dispatch. */
  function Step(env: Env, ts: Transaction, resChan: Chan, i: nat): seq<Event>
    requires env.draws(i).Interval?
  {
    OnFailure(i > 0, i > 0, env.draws(i)) + [Waited(env.draws(i).millis), Resubmitted(Dispatch(ts, resChan))]
  }

  /** The events of iterations `i` to `k - 1` when each of them resubmits. */
  function Retries(env: Env, ts: Transaction, resChan: Chan, i: nat, k: nat): seq<Event>
    requires i <= k
    requires forall j :: i <= j < k ==> Continues(env, j)
    decreases k - i
  {
    if i == k then []
    else
      assert Continues(env, i);
      Step(env, ts, resChan, i) + Retries(env, ts, resChan, i + 1, k)
  }

  /** When iterations `i` to `k - 1` all resubmit, the run from iteration
      `i` is their events followed by the run from iteration `k`. */
  lemma {:induction false} Unroll(build: Build, env: Env, ts: Transaction, resChan: Chan, i: nat, k: nat)
    requires i <= k <= |env.responses|
    requires forall j :: i <= j < k ==> Continues(env, j)
    ensures Worker(build, env, ts, resChan, i)
            == Then(Retries(env, ts, resChan, i, k), Worker(build, env, ts, resChan, k))
    decreases k - i
  {
    if i < k {
      assert Continues(env, i);
      var d := env.draws(i).millis;
      WorkerResubmits(build, env, ts, resChan, i);
      assert Step(env, ts, resChan, i)
          == OnFailure(i > 0, i > 0, env.draws(i)) + [Waited(d)] + [Resubmitted(Dispatch(ts, resChan))];
      Unroll(build, env, ts, resChan, i + 1, k);
      ThenAssoc(Step(env, ts, resChan, i), Retries(env, ts, resChan, i + 1, k), Worker(build, env, ts, resChan, k));
    }
  }

  /** The events a resubmitting iteration may record more than once per
      run or with a varying value, which the counts below leave aside. */
  predicate Varying(e: Event)
  {
    e.Drawn? || e.Waited? || e == BackoffCreated
  }

  /** A resubmitting iteration records one error response and one
      resubmission of the original dispatch, raises `errLooped` if it is the
      first, and records nothing else. */
  lemma StepCount(env: Env, ts: Transaction, resChan: Chan, i: nat, e: Event)
    requires env.draws(i).Interval? && !Varying(e)
    ensures Count(Step(env, ts, resChan, i), e)
            == if e == Received(Failure) || e == Resubmitted(Dispatch(ts, resChan)) then 1
               else if e == ErrLoopedIncr && i == 0 then 1 else 0
  {
    var w, x := Waited(env.draws(i).millis), Resubmitted(Dispatch(ts, resChan));
    var pre := OnFailure(i > 0, i > 0, env.draws(i));
    OnFailureCounts(i > 0, i > 0, env.draws(i));
    assert [w, x] == [w] + [x];
    CountSingle(w);
    CountSingle(x);
    CountAppend([w], [x]);
    CountAppend(pre, [w, x]);
  }

  /** Iterations `i` to `k - 1` record `k - i` error responses and as many
      resubmissions, raise `errLooped` once if they start the run, and
      record nothing else. */
  lemma {:induction false} RetriesCount(env: Env, ts: Transaction, resChan: Chan, i: nat, k: nat, e: Event)
    requires i <= k
    requires forall j :: i <= j < k ==> Continues(env, j)
    requires !Varying(e)
    ensures Count(Retries(env, ts, resChan, i, k), e)
            == if e == Received(Failure) || e == Resubmitted(Dispatch(ts, resChan)) then k - i
               else if e == ErrLoopedIncr && i == 0 < k then 1 else 0
    decreases k - i
  {
    if i < k {
      assert Continues(env, i);
      RetriesCount(env, ts, resChan, i + 1, k, e);
      StepCount(env, ts, resChan, i, e);
      CountAppend(Step(env, ts, resChan, i), Retries(env, ts, resChan, i + 1, k));
    }
  }
}
