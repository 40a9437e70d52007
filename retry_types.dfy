/** Values exchanged by the retry output: transactions, the child output's
    responses, backoff values, and the events a retry worker produces.
    Channels are identities; payload parts are opaque integers. */
module RetryTypes {

  datatype Option<T> = None | Some(value: T)

  datatype Result<T, E> = Ok(value: T) | Err(error: E)

  /** A Go channel value: `nil` or an identified channel. */
  datatype Chan = Nil | Chan(id: nat)

  /** A transaction: a payload (its parts) and the channel its single
      response must be written to. */
  datatype Transaction = Transaction(payload: seq<int>, responseChan: Chan)

  /** What the child output answers for one delivery attempt:
      `res.Error() == nil` or not. The error itself is only logged. */
  datatype Response = Success | Failure

  /** One value of `backOff.NextBackOff()`: a wait, or `backoff.Stop`. */
  datatype BackoffValue = Stop | Interval(millis: nat)

  /** The value a worker writes to the transaction's response channel:
      `response.NewAck()`, `response.NewNoack()`, or the zero value of the
      `types.Response` interface (nil). */
  datatype Outcome = Ack | Noack | NilResponse

  /** The points in one iteration of the retry loop at which shutdown can be
      observed: the `running` check at the loop head and the four selects
      that race `closeChan`. */
  datatype Point = LoopHead | ResponseWait | BackoffWait | ResubmitSend | FinalWrite

  /** When, if ever, shutdown is observed by the worker: at `point` of the
      loop iteration numbered `iteration` (0 for the first attempt). For
      `FinalWrite`, `iteration` is the iteration in which the loop ended. */
  datatype Shutdown = Never | At(iteration: nat, point: Point)

  /** Everything outside the worker that decides its run: the child's
      responses to successive attempts (running out means the child has not
      answered yet), the successive values of the transaction's backoff
      instance, and the moment shutdown is observed. */
  datatype Env = Env(responses: seq<Response>, draws: nat -> BackoffValue, shutdown: Shutdown)

  /** Observable steps of a worker, in order. */
  datatype Event =
    | Received(res: Response)          // a response read from the attempt channel
    | ErrLoopedIncr                    // atomic.AddInt64(&errLooped, 1)
    | BackoffCreated                   // backOff = r.backoffCtor()
    | Drawn(value: BackoffValue)       // backOff.NextBackOff()
    | EndOfRetries                     // retry.end_of_retries metric
    | Waited(millis: nat)              // time.After(nextBackoff) fired
    | Resubmitted(t: Transaction)      // sent to the child's transaction channel
    | PartsSuccess(parts: nat)         // retry.parts.send.success metric
    | Wrote(dest: Chan, out: Outcome)  // terminal response written
    | ErrLoopedDecr                    // atomic.AddInt64(&errLooped, -1)

  /** How a worker's run ends: it wrote an outcome, it returned on shutdown
      without writing, or it is still waiting for the child's response. */
  datatype Exit = Delivered(out: Outcome) | Abandoned | Blocked

  datatype Run = Run(trace: seq<Event>, exit: Exit)

  /** How many times event `e` occurs in `t`. */
  function Count(t: seq<Event>, e: Event): nat
  {
    if t == [] then 0 else (if t[0] == e then 1 else 0) + Count(t[1..], e)
  }

  lemma {:induction false} CountAppend(a: seq<Event>, b: seq<Event>)
    ensures forall e :: Count(a + b, e) == Count(a, e) + Count(b, e)
  {
    if a == [] {
      assert a + b == b;
    } else {
      assert (a + b)[0] == a[0];
      assert (a + b)[1..] == a[1..] + b;
      CountAppend(a[1..], b);
    }
  }

  lemma CountSingle(x: Event)
    ensures forall e :: Count([x], e) == if x == e then 1 else 0
  {
    assert [x][1..] == [];
  }

  /** How many terminal responses `t` writes to channel `c`. */
  function Writes(t: seq<Event>, c: Chan): nat
  {
    Count(t, Wrote(c, Ack)) + Count(t, Wrote(c, Noack)) + Count(t, Wrote(c, NilResponse))
  }
}
