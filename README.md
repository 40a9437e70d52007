# Retry output: a Dafny model

This project models the `retry` output of Benthos, found in `lib/output/retry.go`. The output sits in
front of a child output. Its coordinator takes each transaction from the upstream source and sends
the payload to the child on a fresh response channel. It then spawns a worker for that transaction.
The worker waits for the child's response:

- on success it acknowledges upstream;
- on an error it enters the error loop, draws a backoff interval from a per-transaction backoff
  instance, waits, and resubmits the same payload on the same response channel;
- when the backoff says `Stop` it sends a negative acknowledgement.

A shared counter, `errLooped`, counts the workers inside their error loop. While that counter is
positive, the coordinator does not pull new transactions. Shutdown (`CloseAsync`) swaps `running`
from 1 to 0 and closes `closeChan`. Every wait in a worker races against `closeChan`.

The project has four files:

- `retry_types.dfy` (`RetryTypes`) holds the values:
  - transactions, responses, backoff values and outcomes;
  - the worker's environment `Env`: the child's successive responses, the backoff instance's
    successive values, and the point at which shutdown is observed;
  - the events a worker produces, and `Count`, which counts them.
- `retry_worker.dfy` (`RetryWorker`) holds the worker:
  - `Worker` gives its run from the head of a loop iteration, as a function of the environment;
  - `Accept`/`Replay` are an independent protocol monitor over the events;
  - lemmas tie the two together.
- `retry_properties.dfy` (`RetryProperties`) states the promises of the source about one
  transaction, as lemmas over the whole run `Work`.
- `retry_output.dfy` (`RetryOutput`) holds the object:
  - the construction checks of `NewRetry`;
  - a `Retry` class whose methods update `running`, `transactionsIn` and `errLooped` in place. Ghost
    counters record the effects that are not fields of the source's struct: the child's `Consume`
    calls, the coordinator loops started, and the closes of `closeChan`;
  - the coordinator's backpressure gate as a loop;
  - the worker as an imperative method, `RunWorker`, proved to produce exactly the run `Work` gives.

A worker's flags `inErrLoop` and `backOff != nil` both become true on its first error response. An
iteration only follows another when the earlier one failed, so at the head of iteration `i` both
flags hold exactly when `i > 0`. `Worker` uses this fact.

The worker exists in two builds, `AsWritten` and `Corrected`. They differ only in what happens when
`running` reads 0 at the loop head (see Findings).

## Model

| member | source | states |
|---|---|---|
| RetryWorker.Worker | lib/output/retry.go:253-323 | The run of a worker from the head of iteration `i`. It ends with a nil response only in the source as written, and only when `running` reads 0 at the loop head. |
| RetryWorker.ReplayOnFailure | lib/output/retry.go:281-293 | The events of an error response bring the protocol to the error loop, with a backoff instance and the drawn value pending. |
| RetryWorker.ReplayStep | lib/output/retry.go:281-309 | A resubmitting iteration takes the protocol monitor from the head of one iteration to the head of the next. |
| RetryWorker.FollowsFrom | lib/output/retry.go:253-323 | Every run of the corrected worker is accepted by the protocol monitor. A run that has ended has given back its share of `errLooped`. A run still waiting is awaiting a response. |
| RetryWorker.ReplayAccounting | lib/output/retry.go:258-261 | In any accepted trace, the share of `errLooped` is increments minus decrements. It is raised at most once, and the backoff instance is created at most once. |
| RetryWorker.ReplayWrites | lib/output/retry.go:318-322 | An accepted trace writes at most one terminal response, and only to the transaction's own response channel. |
| RetryWorker.ReplayNoNil | lib/output/retry.go:310-322 | The protocol decides only an acknowledgement (after a success) or a negative acknowledgement (after `Stop`). So no accepted trace writes a nil response to any channel. |
| RetryWorker.ReplayAttempts | lib/output/retry.go:274-309 | In an accepted trace, every response answers an attempt in flight, and every resubmission follows an error response and is the original dispatch. |
| RetryWorker.ReplayOrder | lib/output/retry.go:281-291 | In an accepted trace, `errLooped` is raised and the backoff instance created only after an error response. |
| RetryWorker.ReplayPrefix | lib/output/retry.go:253-323 | Every prefix of an accepted trace is accepted. |
| RetryWorker.ShapeFrom | lib/output/retry.go:253-323 | In every run, in both builds, a first failure raises `errLooped` and creates the backoff instance once. A decrement follows whenever the run leaves after raising it. The response channel gets exactly one write if the run delivers and none otherwise. Each outcome comes with its metric. |
| RetryWorker.Unroll | lib/output/retry.go:273-309 | When iterations `i` to `k - 1` all resubmit, the run from `i` is their events followed by the run from `k`. |
| RetryWorker.StepCount | lib/output/retry.go:281-309 | A resubmitting iteration records one error response and one resubmission. It raises `errLooped` only in the first iteration, and counts no success, end of retries or write. |
| RetryWorker.RetriesCount | lib/output/retry.go:273-309 | Iterations `i` to `k - 1` that all resubmit record `k - i` error responses and `k - i` resubmissions, and raise `errLooped` once if they start the run. |
| RetryProperties.ErrLoopedBalanced | lib/output/retry.go:258-285 | A worker raises `errLooped` exactly when it sees an error response. It lowers it exactly when, after that, it leaves the loop. |
| RetryProperties.ErrLoopedNeverNegative | lib/output/retry.go:258-285 | At every point of a corrected run, the worker's share of `errLooped` is 0 or 1, and it is never raised before an error response. |
| RetryProperties.LazyBackoff | lib/output/retry.go:289-291 | The backoff instance is created exactly once if an attempt fails, and never otherwise. |
| RetryProperties.BackoffAfterFailure | lib/output/retry.go:289-291 | At every point of a corrected run, the backoff instance was created at most once, and only after an error response. |
| RetryProperties.AtMostOneResponse | lib/output/retry.go:318-322 | The response channel gets one write of the delivered outcome when the run delivers, and none otherwise. An acknowledgement comes with the parts metric. A negative acknowledgement comes with the end-of-retries metric. |
| RetryProperties.ExactlyOneResponse | lib/output/retry.go:318-322 | The corrected worker delivers only an acknowledgement or a negative acknowledgement, exactly once when it delivers. It writes to no other channel. |
| RetryProperties.NoShutdownFrom | lib/output/retry.go:273-322 | Without shutdown, a run from any iteration ends with an acknowledgement or a negative acknowledgement, or is still waiting for the child. It never returns without an answer. It assumes `transactionsOut` is open at every resubmission (see "## Left out"). |
| RetryProperties.NoShutdownNoAbandon | lib/output/retry.go:273-322 | Without shutdown, the whole run either writes exactly one response, an acknowledgement or a negative acknowledgement, or is still waiting for the child and has written nothing. It assumes `transactionsOut` is open at every resubmission (see "## Left out"). |
| RetryProperties.ShutdownCancels | lib/output/retry.go:273-322 | When `closeChan` fires at a wait the run reaches, the worker returns and writes nothing. The waits are the loop head, the response wait, the backoff wait and the resubmission after an error, and the final select. The one exception is the loop head of the source as written, which writes its nil response. It assumes `transactionsOut` is open at every resubmission (see "## Left out"). |
| RetryProperties.AbandonedFrom | lib/output/retry.go:273-322 | A run from iteration `i`, after `i` resubmitting iterations, returns without an answer only when shutdown comes at a wait it reaches. |
| RetryProperties.AbandonsOnlyOnShutdown | lib/output/retry.go:273-322 | The worker returns without an answer only when shutdown comes at a wait the run reaches. With `ShutdownCancels`, this characterises the runs that abandon their transaction. |
| RetryProperties.ResubmitOnlyAfterFailure | lib/output/retry.go:305-309 | Up to any point of a corrected run, every resubmission is the original payload on the original response channel. There are no more resubmissions than error responses, and no more responses than attempts. |
| RetryProperties.BudgetExhausted | lib/output/retry.go:293-298 | With no shutdown, `k` draws of an interval then `Stop` give `k + 1` attempts, `k` resubmissions, one end of retries and one negative acknowledgement. |
| RetryProperties.NoackAfterRetries | lib/output/retry.go:293-309 | `k` resubmitting iterations followed by an exhausted budget count `k + 1` errors and `k` resubmissions, and deliver a negative acknowledgement. A step of the proof of `BudgetExhausted`. |
| RetryProperties.NoackWritten | lib/output/retry.go:293-298 | The same run records one end of retries and writes one negative acknowledgement. A step of the proof of `BudgetExhausted`. |
| RetryProperties.StopTally | lib/output/retry.go:293-298 | The iteration that exhausts the budget records one error and no resubmission, and writes one negative acknowledgement. A step of the proof of `BudgetExhausted`. |
| RetryProperties.RetriesUntilSuccess | lib/output/retry.go:281-315 | With no shutdown, `f` errors then a success give an acknowledgement after `f` resubmissions. `errLooped` is raised and lowered once exactly when `f > 0`. |
| RetryProperties.AckAfterRetries | lib/output/retry.go:305-315 | `f` resubmitting iterations followed by a success count `f` resubmissions, one success and one parts metric, and deliver an acknowledgement. A step of the proof of `RetriesUntilSuccess`. |
| RetryProperties.AckWritten | lib/output/retry.go:258-285 | The same run raises and lowers `errLooped` once exactly when `f > 0`, and writes one acknowledgement. A step of the proof of `RetriesUntilSuccess`. |
| RetryProperties.SuccessTally | lib/output/retry.go:310-315 | The iteration that succeeds records one success, no error and no resubmission, and writes one acknowledgement. A step of the proof of `RetriesUntilSuccess`. |
| RetryProperties.AsWrittenLoopHeadSendsNil | lib/output/retry.go:273-322 | If `running` reads 0 at the loop head after `k` failed, resubmitted attempts, the source as written may write a nil response: the run where the final select picks the write case delivers nil exactly once. The corrected worker writes nothing. |
| RetryProperties.NilResponseRejected | lib/output/retry.go:318-322 | The nil write of the source as written is outside the worker's protocol: for every `k`, the monitor rejects the as-written run that reads `running == 0` at the loop head after `k` failed and resubmitted attempts. |
| RetryOutput.CheckNewRetry | lib/output/retry.go:163-176 | Construction fails with "no child" exactly when no child is configured. It succeeds exactly when the child builds and the backoff constructor is available. Otherwise it reports the first failing check. |
| RetryOutput.NewRetry | lib/output/retry.go:157-190 | An error is returned, with the source's message, as `CheckNewRetry` decides; without a child it is "cannot create retry output without a child". Otherwise the result is a fresh running object with no source installed and `errLooped` at 0. |
| RetryOutput.Retry.constructor | lib/output/retry.go:177-189 | A new object has `running == 1`, an open `closeChan` and no source. |
| RetryOutput.Retry.Consume | lib/output/retry.go:330-340 | With a source installed, the call returns `ErrAlreadyStarted` and changes nothing. Otherwise it hands `transactionsOut` to the child. The source is installed and the loop started only if the child accepts. |
| RetryOutput.ConsumeOnce | lib/output/retry.go:330-340 | A second `Consume` after a successful one is refused. The first source stays, and one loop runs. |
| RetryOutput.Retry.CloseAsync | lib/output/retry.go:349-353 | After any call, `running` is 0 and `closeChan` has been closed exactly once. A call on a closed object changes nothing. |
| RetryOutput.CloseTwice | lib/output/retry.go:349-353 | Two calls close `closeChan` once. |
| RetryOutput.Retry.AwaitGate | lib/output/retry.go:223-231 | The coordinator pulls only at the first reading of `errLooped` that is not positive. It returns when `closeChan` fires during an earlier sleep, and keeps sleeping while every reading is positive. |
| RetryOutput.Retry.LeaveErrLoop | lib/output/retry.go:258-270 | The deferred function lowers `errLooped` exactly when the worker is in its error loop. The caller's share must already be counted, so the counter never goes below 0. |
| RetryOutput.Retry.RecordError | lib/output/retry.go:281-293 | An error response raises `errLooped` only the first time, creates the backoff instance only once, and draws one value. |
| RetryOutput.Retry.RetryLoop | lib/output/retry.go:253-323 | The loop produces exactly the run `Work` gives. `errLooped` ends as it started, plus one while the worker is still waiting after an error. |
| RetryOutput.Retry.RunWorker | lib/output/retry.go:253-323 | Keeps `Valid()`. The loop produces exactly the run `Work` gives. A worker that has ended leaves `errLooped` as it found it. A worker still waiting holds one unit of it exactly when it has seen an error. |
| RetryOutput.Retry.Attempt | lib/output/retry.go:274-315 | One iteration after the `running` check either returns on shutdown during the response wait, stays blocked, or continues as `Worker` does. |
| RetryOutput.Retry.HandleResponse | lib/output/retry.go:281-315 | The rest of an iteration resubmits, decides an outcome or returns, as `Worker` does. It changes `errLooped` by the first-error increment and by the decrement on return. |
| RetryOutput.Retry.LoopHeadExit | lib/output/retry.go:273-322 | When `running` reads 0 at the loop head, the run goes on as `Worker` says, and is never blocked. The corrected worker returns. The source as written goes on to the final select with `resOut` still nil. `errLooped` is lowered exactly when the worker is in its error loop. |
| RetryOutput.Retry.FinalSelect | lib/output/retry.go:318-322 | The outcome is written unless shutdown wins the select. The deferred decrement follows in both cases. |

## Left out

- Goroutines and interleavings are not modelled. Each worker is modelled alone, against an environment that fixes the child's responses, the backoff values and the single point where it observes shutdown. Only `errLooped` is shared.
- When both cases of a `select` are ready, Go picks one at random. The environment chooses instead. `Shutdown.At` names either the `running` check at the loop head that reads 0, or the select that `closeChan` wins.
- Sends that never complete are not modelled. With no shutdown, the worker can block forever on the resubmission (line 306) or on the final write (line 319) when nobody receives. The only run that stays blocked in the model is the one waiting for the child's response. The per-point lemmas still cover such runs up to the blocked send.
- `AsWrittenLoopHeadSendsNil`: after `running` reads 0 at the loop head, `closeChan` can still win the final select (lines 318-321), and the worker then returns without writing. The environment has a single shutdown point, so the as-written loop-head exit is modelled only with the write case winning. The lemma exhibits that run; the run where `closeChan` wins is not modelled.
- The outer `for running == 1` of the coordinator (line 220) is not modelled. `AwaitGate` covers the inner gate, lines 223-231.
- `errInterruptChan`, the 100ms fallback poll and `time.After` are not modelled. `AwaitGate` takes the sequence of `errLooped` readings and the sleep in which `closeChan` fires.
- The coordinator's source read, dispatch send, `mCount`, `wg` and its deferred shutdown of the child (lines 205-250, 326) are not modelled beyond `Dispatch`.
- A resubmission after the coordinator has returned is not modelled. `loop()` can return without waiting for its workers: at line 229 (`closeChan` fires in the gate), at line 238 (upstream closed `transactionsIn`), and at lines 242 and 249. Its deferred function then closes `transactionsOut` (line 206). After that, the send case of the resubmission select (lines 305-309) panics when the select picks it. This happens even with `running` still 1 and `closeChan` open. The model's resubmission only completes or loses to `closeChan`, so it always sends on a channel that is open.
- `NoShutdownFrom`: assumes `transactionsOut` is still open at every resubmission. Once `loop()` has returned and closed it (line 206), a worker with no shutdown panics at line 306 instead of answering or waiting.
- `NoShutdownNoAbandon`: assumes the same. A panic at line 306 ends the run with neither an answer nor a return.
- `ShutdownCancels`: at the resubmission (`ResubmitSend`), it assumes `transactionsOut` is still open. After the coordinator has closed it (line 206), the select at lines 305-309 may panic instead of returning on `closeChan`.
- Metrics and logging: only the parts-success and end-of-retries metrics appear, as events (`PartsSuccess`, `EndOfRetries`). `mSuccess` (line 311) has no event of its own; the success branch is marked only by `Received(Success)`, which it always follows. `mError`, the error log line, the running gauge and the logger are not modelled.
- The backoff algorithm (exponential growth, maximum interval, maximum elapsed time, maximum retries) is not modelled. The worker sees its draws as an arbitrary sequence of intervals and `Stop`. `BudgetExhausted` covers any policy that draws `k` intervals and then `Stop`.
- `NewRetryConfig` is not modelled. It also discards the defaults it sets on `rConf` and returns `retries.NewConfig()` instead.
- JSON/YAML marshalling and the sanitised configuration are not modelled.
- `Connected` is not modelled: it only delegates to the child.
- `WaitForClose` is not modelled: it is a timed wait on `closedChan`.
- The child output's own behaviour is not modelled. `NewRetry` takes the child constructor's result, and `Consume` takes the child's `Consume` result, as parameters.
- `Retry.Consume`: a nil source does not trip the `transactionsIn != nil` guard, so a later call succeeds. A call refused by the child does not trip it either.
- `ErrLoopedNeverNegative`: proved for the corrected worker only, because the proof goes through the protocol monitor, which rejects the nil write of the source as written. The whole-run counts (`ErrLoopedBalanced`) hold for both builds.
- `BackoffAfterFailure`: proved for the corrected worker only, for the same reason. The whole-run count (`LazyBackoff`) holds for both builds.
- `ResubmitOnlyAfterFailure`: proved for the corrected worker only, for the same reason. `ShapeFrom`, `AtMostOneResponse`, `BudgetExhausted` and `RetriesUntilSuccess` hold for both builds.

## Findings

| source | as written | input that shows it | evidently intended | confidence | as-written member | corrected member |
|---|---|---|---|---|---|---|
| lib/output/retry.go:273-322 | The retry loop also ends when `running` reads 0 at its head. `resOut` is then still the zero `Response` (nil), and the final select may write that nil to the transaction's response channel. | `CloseAsync` swaps `running` to 0 before the worker's first loop check (or after `k` failed and resubmitted attempts), and the upstream receiver is ready when the final select runs. `closeChan` is not yet closed, or the select picks the write case. | The worker returns without writing, as it does when shutdown wins any other wait. Upstream only ever receives an acknowledgement or a negative acknowledgement. | not executed | RetryProperties.AsWrittenLoopHeadSendsNil | RetryProperties.ExactlyOneResponse |
