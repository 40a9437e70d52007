/** The retry output object (lib/output/retry.go:138-366): its construction,
    the one-shot `Consume`, the one-shot `CloseAsync`, the coordinator's
    backpressure gate and the body of a retry worker, run against the
    object's shared `errLooped` counter. */
module RetryOutput {
  import opened RetryTypes
  import opened RetryWorker

  /** What `NewRetry` reads from its configuration: the child output's
      configuration, if any, identified by its type name. */
  datatype ChildConf = ChildConf(typeName: string)

  datatype NewRetryError =
    | NoChild                                   // conf.Retry.Output == nil
    | ChildFailed(typeName: string, cause: string) // New(*conf.Retry.Output, ...) failed
    | BackoffFailed(cause: string)              // conf.Retry.GetCtor() failed

  /** The text of the `error` value `NewRetry` returns. */
  function ErrorMessage(e: NewRetryError): string
  {
    match e
    case NoChild => "cannot create retry output without a child"
    case ChildFailed(t, c) => "failed to create output '" + t + "': " + c
    case BackoffFailed(c) => c
  }

  /** The checks `NewRetry` makes before it builds the object, in the
      source's order: a child must be configured, the child must build
      (`newChild` gives the child constructor's error, if any), and the
      backoff configuration must yield a constructor (`ctorErr`). */
  function CheckNewRetry(output: Option<ChildConf>, newChild: ChildConf -> Option<string>, ctorErr: Option<string>)
    : (r: Result<ChildConf, NewRetryError>)
    ensures r == Err(NoChild) <==> output.None?
    ensures r.Ok? <==> output.Some? && newChild(output.value).None? && ctorErr.None?
    ensures r.Ok? ==> r.value == output.value
    ensures output.Some? && newChild(output.value).Some? ==>
              r == Err(ChildFailed(output.value.typeName, newChild(output.value).value))
    ensures output.Some? && newChild(output.value).None? && ctorErr.Some? ==>
              r == Err(BackoffFailed(ctorErr.value))
  {
    match output
    case None => Err(NoChild)
    case Some(c) =>
      match newChild(c)
      case Some(cause) => Err(ChildFailed(c.typeName, cause))
      case None =>
        match ctorErr
        case Some(cause) => Err(BackoffFailed(cause))
        case None => Ok(c)
  }

  datatype ConsumeError = AlreadyStarted | ChildConsumeFailed(cause: string)

  /** What the coordinator's gate did: pulled the next transaction after
      `polls` sleeps, returned because `closeChan` fired, or is still
      sleeping when the readings run out. */
  datatype Gate = Pull(polls: nat) | Closed(polls: nat) | StillWaiting

  /** How an iteration of a worker's retry loop ends once the child has
      answered: the loop goes on, breaks with `resOut` set, the worker
      returns, or it is still waiting for the child. */
  datatype Verdict = Resubmit | Decided(out: Outcome) | Abandon | Waiting

  class Retry {
    /** `r.running`: 1 until `CloseAsync` swaps it to 0. */
    var running: int
    /** `r.transactionsIn`: the source channel `Consume` installed, or nil. */
    var transactionsIn: Chan
    /** `r.transactionsOut`: the channel the child output consumes from. */
    var transactionsOut: Chan
    // The three counters below record effects of the source, not fields of
    // its struct.
    /** How many times `Consume` handed `transactionsOut` to the child (the
        child's `Consume` itself is not part of this model). */
    ghost var childConsumeCalls: nat
    /** How many coordinator loops (`go r.loop()`) were started. */
    ghost var loopsStarted: nat
    /** How many times `close(r.closeChan)` ran. */
    ghost var closeChanCloses: nat
    /** The coordinator's `errLooped`: the number of workers inside their
        error loop. In the source it is a local of `loop` shared with the
        workers it spawns. */
    var errLooped: int

    ghost predicate Valid()
      reads this
    {
      && (running == 0 || running == 1)
      && closeChanCloses == (if running == 0 then 1 else 0)
      && errLooped >= 0
    }

    /** The object `NewRetry` returns once its checks pass (line 178). */
    constructor (outChan: Chan)
      ensures Valid()
      ensures running == 1 && closeChanCloses == 0 && errLooped == 0
      ensures transactionsIn == Nil && transactionsOut == outChan
      ensures childConsumeCalls == 0 && loopsStarted == 0
    {
      running := 1;
      transactionsIn := Nil;
      transactionsOut := outChan;
      childConsumeCalls := 0;
      loopsStarted := 0;
      closeChanCloses := 0;
      errLooped := 0;
    }

    /** `Consume`: refuses a second start, hands `transactionsOut` to the
        child, and only when the child accepts it installs `ts` and starts
        the coordinator loop. */
    method Consume(ts: Chan, childErr: Option<string>) returns (err: Option<ConsumeError>)
      requires Valid()
      modifies this
      ensures Valid()
      ensures old(transactionsIn) != Nil ==> err == Some(AlreadyStarted) && unchanged(this)
      ensures old(transactionsIn) == Nil ==>
                && childConsumeCalls == old(childConsumeCalls) + 1
                && (childErr.Some? ==> err == Some(ChildConsumeFailed(childErr.value))
                                       && transactionsIn == Nil && loopsStarted == old(loopsStarted))
                && (childErr.None? ==> err.None? && transactionsIn == ts
                                       && loopsStarted == old(loopsStarted) + 1)
      ensures running == old(running) && closeChanCloses == old(closeChanCloses)
      ensures errLooped == old(errLooped) && transactionsOut == old(transactionsOut)
    {
      if transactionsIn != Nil {
        return Some(AlreadyStarted);
      }
      childConsumeCalls := childConsumeCalls + 1;
      if childErr.Some? {
        return Some(ChildConsumeFailed(childErr.value));
      }
      transactionsIn := ts;
      loopsStarted := loopsStarted + 1;
      err := None;
    }

    /** `CloseAsync`: the compare-and-swap of `running` from 1 to 0 lets
        exactly one call close `closeChan`; every call leaves the object
        closed. */
    method CloseAsync()
      requires Valid()
      modifies this`running, this`closeChanCloses
      ensures Valid()
      ensures running == 0 && closeChanCloses == 1
      ensures old(running) == 0 ==> unchanged(this)
    {
      if running == 1 {
        running := 0;
        closeChanCloses := closeChanCloses + 1;
      }
    }

    /** The gate at the top of the coordinator loop (lines 223-231): while
        `errLooped` reads positive it sleeps until a worker's interrupt or
        100ms pass, and returns when `closeChan` fires. `readings` are the
        successive values it reads, standing in for the `errLooped` that the
        workers change concurrently (so the method reads no field of the
        object); `closeAt` is the sleep, if any, in which `closeChan` wins
        the select. */
    method AwaitGate(readings: seq<int>, closeAt: Option<nat>) returns (g: Gate)
      ensures g.Pull? || g.Closed? ==> g.polls < |readings| && forall j :: 0 <= j < g.polls ==> readings[j] > 0
      ensures g.Pull? ==> readings[g.polls] <= 0
      ensures g.Pull? ==> closeAt.None? || closeAt.value >= g.polls
      ensures g.Closed? ==> readings[g.polls] > 0 && closeAt == Some(g.polls)
      ensures g.StillWaiting? ==>
                (forall j :: 0 <= j < |readings| ==> readings[j] > 0)
                && (closeAt.None? || closeAt.value >= |readings|)
    {
      var n := 0;
      while n < |readings| && readings[n] > 0
        invariant 0 <= n <= |readings|
        invariant forall j :: 0 <= j < n ==> readings[j] > 0
        invariant closeAt.None? || closeAt.value >= n
        decreases |readings| - n
      {
        if closeAt == Some(n) {
          return Closed(n);
        }
        n := n + 1;
      }
      if n == |readings| {
        return StillWaiting;
      }
      g := Pull(n);
    }

    /** The worker's deferred function: leaving its error loop lowers
        `errLooped`. */
    method LeaveErrLoop(inErrLoop: bool) returns (events: seq<Event>)
      requires errLooped >= (if inErrLoop then 1 else 0)  // the worker's own share is counted
      modifies this`errLooped
      ensures events == Deferred(inErrLoop)
      ensures errLooped == old(errLooped) - (if inErrLoop then 1 else 0)
    {
      if inErrLoop {
        errLooped := errLooped - 1;
      }
      events := Deferred(inErrLoop);
    }

    /** A worker's handling of an error response up to
        `backOff.NextBackOff()` (lines 281-291): the first error raises
        `errLooped`, the backoff instance is created on first use, and one
        value is drawn from it. */
    method RecordError(inErrLoop: bool, created: bool, next: BackoffValue)
      returns (events: seq<Event>, nowInErrLoop: bool, nowCreated: bool)
      requires errLooped >= (if inErrLoop then 1 else 0)  // the worker's own share is counted
      modifies this`errLooped
      ensures events == OnFailure(inErrLoop, created, next)
      ensures nowInErrLoop && nowCreated
      ensures errLooped == old(errLooped) + (if inErrLoop then 0 else 1)
    {
      events := [Received(Failure)];
      nowInErrLoop, nowCreated := inErrLoop, created;
      if !nowInErrLoop {
        nowInErrLoop := true;
        errLooped := errLooped + 1;
        events := events + [ErrLoopedIncr];
      }
      if !nowCreated {
        nowCreated := true;
        events := events + [BackoffCreated];
      }
      events := events + [Drawn(next)];
    }

    /** One retry worker (lines 253-323) for transaction `ts`, dispatched on
        `resChan`, in environment `env`: its run is the one `Worker` gives;
        a worker that has ended leaves `errLooped` as it found it, and one
        still waiting on the child holds one unit of it exactly when it has
        seen an error. */
    method RunWorker(build: Build, ts: Transaction, resChan: Chan, env: Env) returns (run: Run)
      requires Valid()
      modifies this`errLooped
      ensures Valid()
      ensures run == Work(build, env, ts, resChan)
      ensures !run.exit.Blocked? ==> errLooped == old(errLooped)
      ensures run.exit.Blocked? ==> errLooped == old(errLooped) + (if run.trace == [] then 0 else 1)
    {
      run := RetryLoop(build, ts, resChan, env);
    }

    /** The body of the worker goroutine: the retry loop and what follows it. */
    method RetryLoop(build: Build, ts: Transaction, resChan: Chan, env: Env) returns (run: Run)
      requires errLooped >= 0
      modifies this`errLooped
      ensures run == Work(build, env, ts, resChan)
      ensures !run.exit.Blocked? ==> errLooped == old(errLooped)
      ensures run.exit.Blocked? ==> errLooped == old(errLooped) + (if run.trace == [] then 0 else 1)
    {
      var trace: seq<Event> := [];
      var inErrLoop := false;
      var i := 0;
      while env.shutdown != At(i, LoopHead)  // `running` still reads 1
        invariant 0 <= i <= |env.responses|
        invariant inErrLoop == (i > 0) == (trace != [])
        invariant Then(trace, Worker(build, env, ts, resChan, i)) == Work(build, env, ts, resChan)
        invariant errLooped == old(errLooped) + (if inErrLoop then 1 else 0)
        decreases |env.responses| - i
      {
        var events, verdict, nowInErrLoop := Attempt(build, ts, resChan, env, i, inErrLoop);
        match verdict
        case Waiting =>
          return Run(trace, Blocked);
        case Abandon =>
          return Run(trace + events, Abandoned);
        case Decided(out) =>
          // `break retryLoop` with `resOut` set, then the final select
          ThenAssoc(trace, events, Leave(env, ts, i, nowInErrLoop, out));
          run := FinalSelect(env, ts, i, nowInErrLoop, out, trace + events);
          return;
        case Resubmit =>
          ThenAssoc(trace, events, Worker(build, env, ts, resChan, i + 1));
          trace := trace + events;
          inErrLoop := true;
          i := i + 1;
      }
      run := LoopHeadExit(build, ts, resChan, env, i, inErrLoop, trace);
    }

    /** `running` read 0 at the head of iteration `i`: the loop ends with
        `resOut` still nil, and the source as written goes on to the final
        select while the corrected worker returns. */
    method LoopHeadExit(build: Build, ts: Transaction, resChan: Chan, env: Env, i: nat, inErrLoop: bool, trace: seq<Event>)
      returns (run: Run)
      requires i <= |env.responses| && env.shutdown == At(i, LoopHead) && inErrLoop == (i > 0)
      requires errLooped >= (if inErrLoop then 1 else 0)  // the worker's own share is counted
      modifies this`errLooped
      ensures run == Then(trace, Worker(build, env, ts, resChan, i))
      ensures !run.exit.Blocked?
      ensures errLooped == old(errLooped) - (if inErrLoop then 1 else 0)
    {
      WorkerStopsRunning(build, env, ts, resChan, i);
      if build == Corrected {
        var d := LeaveErrLoop(inErrLoop);
        return Run(trace + d, Abandoned);
      }
      run := FinalSelect(env, ts, i, inErrLoop, NilResponse, trace);
    }

    /** One iteration of the retry loop after the `running` check (lines
        274-315): wait for the child's response unless shutdown comes first,
        then handle it. The worker returns on shutdown (running the deferred
        function) or stays blocked while the child has not answered. */
    method Attempt(build: Build, ts: Transaction, resChan: Chan, env: Env, i: nat, inErrLoop: bool)
      returns (events: seq<Event>, verdict: Verdict, nowInErrLoop: bool)
      requires i <= |env.responses| && inErrLoop == (i > 0)
      requires errLooped >= (if inErrLoop then 1 else 0)  // the worker's own share is counted
      requires env.shutdown != At(i, LoopHead)
      modifies this`errLooped
      ensures verdict == Waiting ==>
                Worker(build, env, ts, resChan, i) == Run([], Blocked) && errLooped == old(errLooped)
      ensures verdict == Abandon ==>
                Worker(build, env, ts, resChan, i) == Run(events, Abandoned) && errLooped == old(errLooped) - (if inErrLoop then 1 else 0)
      ensures verdict.Decided? || verdict == Resubmit ==>
                && i < |env.responses| && events != []
                && nowInErrLoop == (inErrLoop || env.responses[i] == Failure)
                && errLooped == old(errLooped) + (if nowInErrLoop && !inErrLoop then 1 else 0)
      ensures verdict == Resubmit ==>
                && Continues(env, i)
                && Worker(build, env, ts, resChan, i)
                   == Then(events, Worker(build, env, ts, resChan, i + 1))
      ensures verdict.Decided? ==>
                Worker(build, env, ts, resChan, i) == Then(events, Leave(env, ts, i, nowInErrLoop, verdict.out))
    {
      if env.shutdown == At(i, ResponseWait) {
        var d := LeaveErrLoop(inErrLoop);
        return d, Abandon, inErrLoop;
      }
      if i == |env.responses| {
        return [], Waiting, inErrLoop;
      }
      events, verdict, nowInErrLoop := HandleResponse(build, ts, resChan, env, i, inErrLoop);
    }

    /** The rest of iteration `i` of the retry loop once the child has
        answered (lines 279-315): a success decides an acknowledgement; an
        error is recorded and a value drawn from the backoff, which then ends
        the budget, or the worker returns on shutdown during the wait or the
        resubmission (running the deferred function), or it resubmits the
        original dispatch. `created` equals `inErrLoop` here: both are set
        by the first error. */
    method HandleResponse(build: Build, ts: Transaction, resChan: Chan, env: Env, i: nat, inErrLoop: bool)
      returns (events: seq<Event>, verdict: Verdict, nowInErrLoop: bool)
      requires i < |env.responses| && inErrLoop == (i > 0)
      requires errLooped >= (if inErrLoop then 1 else 0)  // the worker's own share is counted
      requires env.shutdown != At(i, LoopHead) && env.shutdown != At(i, ResponseWait)
      modifies this`errLooped
      ensures verdict != Waiting && events != []
      ensures nowInErrLoop == (inErrLoop || env.responses[i] == Failure)
      ensures verdict == Resubmit ==>
                && Continues(env, i)
                && Worker(build, env, ts, resChan, i)
                   == Then(events, Worker(build, env, ts, resChan, i + 1))
      ensures verdict.Decided? ==>
                Worker(build, env, ts, resChan, i) == Then(events, Leave(env, ts, i, nowInErrLoop, verdict.out))
      ensures verdict == Abandon ==>
                env.responses[i] == Failure && Worker(build, env, ts, resChan, i) == Run(events, Abandoned)
      ensures errLooped == old(errLooped)
                + (if nowInErrLoop && !inErrLoop then 1 else 0)
                - (if verdict == Abandon then 1 else 0)
    {
      if env.responses[i] == Success {
        WorkerSucceeds(build, env, ts, resChan, i);
        return [Received(Success), PartsSuccess(|ts.payload|)], Decided(Ack), inErrLoop;
      }
      var next := env.draws(i);
      var created;
      events, nowInErrLoop, created := RecordError(inErrLoop, inErrLoop, next);
      if next == Stop {
        WorkerStops(build, env, ts, resChan, i);
        return events + [EndOfRetries], Decided(Noack), nowInErrLoop;
      }
      if env.shutdown == At(i, BackoffWait) {
        WorkerAbandons(build, env, ts, resChan, i);
        var d := LeaveErrLoop(nowInErrLoop);
        return events + d, Abandon, nowInErrLoop;
      }
      events := events + [Waited(next.millis)];
      if env.shutdown == At(i, ResubmitSend) {
        WorkerAbandons(build, env, ts, resChan, i);
        var d := LeaveErrLoop(nowInErrLoop);
        return events + d, Abandon, nowInErrLoop;
      }
      WorkerResubmits(build, env, ts, resChan, i);
      events := events + [Resubmitted(Dispatch(ts, resChan))];
      verdict := Resubmit;
    }

    /** The select after the retry loop (lines 318-322), then the deferred
        function: `out` is written to the transaction's response channel
        unless shutdown wins the select. */
    method FinalSelect(env: Env, ts: Transaction, i: nat, inErrLoop: bool, out: Outcome, trace: seq<Event>)
      returns (run: Run)
      requires errLooped >= (if inErrLoop then 1 else 0)  // the worker's own share is counted
      modifies this`errLooped
      ensures run == Then(trace, Leave(env, ts, i, inErrLoop, out))
      ensures !run.exit.Blocked?
      ensures errLooped == old(errLooped) - (if inErrLoop then 1 else 0)
    {
      if env.shutdown == At(i, FinalWrite) {
        var d := LeaveErrLoop(inErrLoop);
        run := Run(trace + d, Abandoned);
      } else {
        var d := LeaveErrLoop(inErrLoop);
        run := Run(trace + ([Wrote(ts.responseChan, out)] + d), Delivered(out));
      }
    }
  }

  /** `NewRetry`: the checks of `CheckNewRetry`, returning the failing
      check's message, then a running object with no source installed and
      nothing in its error loop. */
  method NewRetry(output: Option<ChildConf>, newChild: ChildConf -> Option<string>, ctorErr: Option<string>, outChan: Chan)
    returns (res: Result<Retry, string>)
    ensures CheckNewRetry(output, newChild, ctorErr).Err? ==>
              res == Err(ErrorMessage(CheckNewRetry(output, newChild, ctorErr).error))
    ensures output.None? ==> res == Err("cannot create retry output without a child")
    ensures CheckNewRetry(output, newChild, ctorErr).Ok? ==>
              && res.Ok? && fresh(res.value) && res.value.Valid()
              && res.value.running == 1 && res.value.transactionsIn == Nil
              && res.value.errLooped == 0 && res.value.transactionsOut == outChan
  {
    match CheckNewRetry(output, newChild, ctorErr)
    case Err(e) =>
      res := Err(ErrorMessage(e));
    case Ok(_) =>
      var r := new Retry(outChan);
      res := Ok(r);
  }

  /** A second `Consume` after a successful one is refused and changes
      nothing: one coordinator loop runs, on the first source. */
  method ConsumeOnce(r: Retry, ts: Chan, again: Chan) returns (first: Option<ConsumeError>, second: Option<ConsumeError>)
    requires r.Valid() && r.transactionsIn == Nil && r.loopsStarted == 0 && ts != Nil
    modifies r
    ensures first.None? && second == Some(AlreadyStarted)
    ensures r.Valid() && r.loopsStarted == 1 && r.transactionsIn == ts
  {
    first := r.Consume(ts, None);
    second := r.Consume(again, None);
  }

  /** Closing twice is the same as closing once: `closeChan` is closed a
      single time and `running` stays 0. */
  method CloseTwice(r: Retry)
    requires r.Valid()
    modifies r
    ensures r.Valid() && r.running == 0 && r.closeChanCloses == 1
  {
    r.CloseAsync();
    r.CloseAsync();
  }
}
