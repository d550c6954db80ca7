# pipeline-go in Dafny

A model of the concurrency demos of the pipeline-go repository, with proofs of
what they promise.

- **File-processing pipeline** (`04-fprocessor/main.go`):
  - a generator `Source` emits messages `{id, 0, "file-%03d"}`;
  - six stages each stamp a message with their own `State` (1 to 6), publish it to the event `FileReceived` and forward it;
  - a `Sink` drains the chain and republishes every message with `State` 0;
  - a `Pipe` broker fans every publish out to the channels subscribed to a topic;
  - `StateMonitor` picks a random entry from a fixed table.
- **Browser stores** (`storedash.js`, `storemon.js`): keep one row per message id. An update replaces the row with the same id or appends a new row.
- **Calculator** (`00-oop/main.go`): a mutex-protected `Calc` with element-wise `Multiply` and `Add`. The demo runs three calls sequentially and then concurrently.
- **`operatorSet`** (`00-oop/main.go`): a set with `add`, `remove` and a normalising `has`.
- **Generators** (`03-queuing/buf_test.go`): `repeat` and `take`, and the byte writes of `performWrite`.

How the model represents the Go program:

- **Goroutines, channels, sleeps and locks are gone.** A component is described by what it sends and what it publishes.
- **Cancellation.** A component that loops over `select { case <-done: return; case out <- v: }` is given a `Cancel` value:
  - `Never`: it is never cancelled;
  - `After(n)`: its select after `n` sends picks `done`.
  This is the only part of the timing that changes what the component sends (module `Streams`).
- **The broker** is an immutable state machine (module `Broker`):
  - each call is one atomic step, as the mutex makes it;
  - a subscriber channel is named by its creation index;
  - each channel's pending deliveries are a bag. `Publish` sends from one goroutine per channel, so deliveries of different publishes reach a channel in no fixed order.

Behaviour of the code worth knowing, all of it kept by the model:

- **A cancelled stage may publish one message it never forwards.** Go evaluates a select's send operand before it chooses a case, so the stage's closure runs first: it sleeps, sets the state and publishes. Only then does the select pick `done`.
- **The pipeline publishes `7 * siz` events on `FileReceived`; a subscriber registered before the first publish receives all of them.** Each of the six stages publishes every message once, and the Sink republishes every message that leaves the chain with state 0. So `siz = 3` gives 21 events: 18 from the stages and 3 from the Sink. A subscriber that registers later, as a `Notify` client does when its WebSocket connects after `main` has started the pipeline (04-fprocessor/main.go:77-80, 103, 232), receives only what is published after it subscribed. Even the Sink's own `Subscribe` (04-fprocessor/main.go:419) runs inside a goroutine and need not precede the first publish.
- **Each subscriber receives its messages as a bag.** Every `Publish` delivers through one goroutine per channel, so deliveries of different publishes reach a channel in no fixed order.
- **The Sink's own subscriber loop only logs.** It publishes nothing back to the broker.

## Model

| member | source | states |
|---|---|---|
| Streams.Cut | 04-fprocessor/main.go:274-277 | a component emits a prefix of its uncancelled output: all of it when never cancelled, exactly `min(n, total)` items when its select after `n` sends picks `done` |
| Streams.EveryPrefixIsACut | 04-fprocessor/main.go:274-277 | every prefix of the uncancelled output is what some cancellation point produces, so "cancellation" and "stop after a prefix" coincide |
| Streams.LaterCutExtends | 04-fprocessor/main.go:274-277 | cancelling later never emits less: outputs grow with the cancellation point, up to the uncancelled output |
| Decimal.Digits | 04-fprocessor/main.go:272 | `%d` of a natural: a non-empty digit string without a leading zero whose decimal value is the number |
| Decimal.ValueIgnoresLeadingZeros | 04-fprocessor/main.go:272 | zero padding on the left keeps a digit string's value |
| Decimal.Pad3 | 04-fprocessor/main.go:272 | `%03d`: all digits, at least three long, denotes the number, and is longer than three only when the number itself has more digits (then no leading zero) |
| Decimal.Pad3Examples | 04-fprocessor/main.go:272 | 7 prints as "007", 42 as "042", 1234 as "1234": the width is a minimum, not a truncation |
| Messages.WithState | 04-fprocessor/main.go:294-300 | a stage's copy of a message differs only in `State`; id and description are kept |
| Messages.Description | 04-fprocessor/main.go:272 | a generator label starts with "file-" followed by at least three characters |
| Messages.DescriptionRoundTrip | 04-fprocessor/main.go:272 | reading the digits back from a label gives the id it was made from |
| Messages.DescriptionInjective | 04-fprocessor/main.go:272 | two different ids never get the same label |
| Messages.DescriptionExamples | 04-fprocessor/main.go:272 | id 7 is labelled "file-007" and id 1234 "file-1234" |
| Broker.NewPipe | 04-fprocessor/main.go:46-53 | a new broker is open, has no subscriber for any topic and no channel |
| Broker.Subscribe | 04-fprocessor/main.go:117-126 | a fresh channel (registered under no topic before) with nothing pending is appended to the topic's list; other topics, other channels' pending messages and the closed flag are unchanged; the registry invariant is kept |
| Broker.Deliver | 04-fprocessor/main.go:137-142 | one pending copy of the message per occurrence of a channel in the subscriber list, nothing for other channels |
| Broker.Publish | 04-fprocessor/main.go:129-143 | a closed broker or a topic without subscribers is left unchanged; otherwise each channel gets exactly one pending copy if it is subscribed to the topic and none if not; subscriptions are unchanged |
| Broker.Receive | 04-fprocessor/main.go:140 | a receive succeeds exactly when that message is pending on the channel, and removes one copy from that channel only |
| Broker.PublishAll | 04-fprocessor/main.go:129-143 | a run of publishes keeps the registry invariant, the subscriptions and the closed flag |
| Broker.PublishAllDelivers | 04-fprocessor/main.go:129-143 | after a run of publishes, every subscriber of the topic holds each message once more (as a bag, whatever the order); a non-subscriber or a closed broker gets nothing |
| Broker.PublishAllDeliversTo | 04-fprocessor/main.go:129-143 | the same fan-out property for one channel, by induction over the run |
| Broker.SubscriberSeesOnlyLaterPublishes | 04-fprocessor/main.go:117-143 | no replay: a channel subscribed after some publishes holds exactly the messages published after it subscribed |
| Broker.EachSubscriberGetsEveryPublish | 04-fprocessor/main.go:117-143 | two subscribers of one topic get distinct channels, and each holds every published message |
| Pipeline.SourceAll | 04-fprocessor/main.go:268-273 | the uncancelled generator emits `siz` messages (none when `siz <= 0`), the k-th being id k+1, state 0, label `file-%03d` of its id |
| Pipeline.Source | 04-fprocessor/main.go:263-283 | the generator's output is a prefix of that sequence; all `siz` messages when not cancelled; ids strictly increase |
| Pipeline.SourceLabelsParse | 04-fprocessor/main.go:268-273 | every emitted label reads back as its message's id |
| Pipeline.StateOf | 04-fprocessor/main.go:286-413 | each of the six stages assigns a fixed state in 1..6 (`m.State = 1` in `FileReceiver` up to `m.State = 6` in `FileSender`) |
| Pipeline.StatesIdentifyStages | 04-fprocessor/main.go:286-413 | no two stages assign the same state, so an event's state names the stage that published it |
| Pipeline.SetState | 04-fprocessor/main.go:294-300 | restamping keeps the length, order, ids and labels and sets every state |
| Pipeline.MainChainStates | 04-fprocessor/main.go:77-79 | the chain built by `main` assigns states 1, 2, ..., 6 in order, strictly increasing |
| Pipeline.Stage | 04-fprocessor/main.go:286-305 | a stage forwards a prefix of what it publishes, which is a prefix of its restamped input; it publishes at most one message more than it forwards; uncancelled it forwards and publishes every input message |
| Pipeline.SetStatePrefix | 04-fprocessor/main.go:286-305 | a stage fed a prefix of its input produces a prefix of its output |
| Pipeline.RunChain | 04-fprocessor/main.go:77-79 | a chain of stages records one log per stage and never emits more messages than it was fed |
| Pipeline.ChainWithoutCancel | 04-fprocessor/main.go:286-413 | uncancelled, every message leaves the chain in order with the last stage's state, and stage k publishes every message once with stage k's state |
| Pipeline.ChainCancelIsPrefix | 04-fprocessor/main.go:286-413 | cancellation anywhere only truncates: the chain's output and every stage's publications are prefixes of the uncancelled run's |
| Pipeline.ChainPrefixMonotone | 04-fprocessor/main.go:286-413 | a chain fed a prefix and cancelled anywhere stays below the uncancelled run on the full input, output and every log |
| Pipeline.MainChainResult | 04-fprocessor/main.go:77-79 | `main`'s chain outputs every message with state 6 and its id and label kept; stage k+1 logs every message with state k+1 |
| Pipeline.SinkRepublish | 04-fprocessor/main.go:424-431 | the Sink republishes every drained message, in order, with state 0 and its id and label kept |
| Pipeline.ProgressEvents | 04-fprocessor/main.go:286-431 | everything the stages and the Sink publish to `FileReceived` in one run: whatever is cancelled, at most seven events per generated message |
| Pipeline.EveryEventNamesAFile | 04-fprocessor/main.go:263-431 | whatever is cancelled, every event published to `FileReceived` carries the id (1..siz) and label of a generated file and a state in 0..6 |
| Pipeline.EndToEnd | 04-fprocessor/main.go:77-80 | `siz` messages leave the pipeline, the i-th as {i, 6, "file-%03d"}; the broker receives `7 * siz` events, one for each id and each state 0..6 |
| Pipeline.EndToEndOutput | 04-fprocessor/main.go:77-79 | the messages leaving `main`'s chain are exactly {i, 6, label of i} for i = 1..siz |
| Pipeline.EndToEndCount | 04-fprocessor/main.go:77-80 | the pipeline publishes `7 * siz` progress events |
| Pipeline.EndToEndEvent | 04-fprocessor/main.go:77-80 | for every id and every state 0..6 the corresponding event is published |
| Pipeline.ObserverSeesEveryProgressEvent | 04-fprocessor/main.go:418-423 | a subscriber to `FileReceived` registered before the run holds every progress event of the run, `7 * siz` deliveries, whatever order the publishes took |
| Pipeline.ThreeMessages | 04-fprocessor/main.go:77-80 | three messages: three leave with state 6, the stages publish 18 events and the broker sees 21 in all |
| Pipeline.StateMonitor | 04-fprocessor/main.go:158-199 | the result is table entry `pick` (id `pick + 1`), with state 0 and an id in 1..5; "File sender" is never returned |
| Pipeline.StateMonitorRange | 04-fprocessor/main.go:162-194 | the possible results are exactly the first five table entries |
| Calculator.Step | 00-oop/main.go:28-41 | the reference meaning of one call: same length, each element transformed by the call |
| Calculator.Init | 00-oop/main.go:22-26 | the contents become exactly the given values |
| Calculator.Multiply | 00-oop/main.go:28-34 | the length is kept and every element becomes k times its old value |
| Calculator.Add | 00-oop/main.go:35-41 | the length is kept and every element becomes k plus its old value |
| Calculator.Call | 00-oop/main.go:28-41 | the in-place loops compute exactly the reference `Step` |
| Calculator.Serial | 00-oop/main.go:84-88 | a run of calls keeps the length of the values |
| Calculator.SerialElementwise | 00-oop/main.go:84-88 | a run of calls acts on each element independently, as the composition of the calls |
| Calculator.SequentialDemo | 00-oop/main.go:84-89 | Init(1,2,3,4), Multiply(2), Add(1), Multiply(2) leaves [6, 10, 14, 18] |
| Calculator.SerialOrders | 00-oop/main.go:91-107 | each order the mutex can impose on the three concurrent calls yields 4x+4, 4x+2 or 4x+1 per element, according to where the addition runs |
| Calculator.EveryOutcomeReachable | 00-oop/main.go:91-107 | each of the three formulas is produced by some order |
| Calculator.ConcurrentOutcomes | 00-oop/main.go:91-107 | on [1, 2, 3, 4] the concurrent block leaves one of [8,12,16,20], [6,10,14,18], [5,9,13,17] |
| Calculator.ConcurrentDemo | 00-oop/main.go:91-108 | running the three calls one at a time in the scheduler's order leaves one of those three vectors |
| Operators.Lower | 00-oop/main.go:76 | `ToLower` keeps the length and lower-cases each ASCII letter, nothing else |
| Operators.Leading | 00-oop/main.go:76 | counts the white space before the first other character |
| Operators.Trailing | 00-oop/main.go:76 | counts the white space after the last other character |
| Operators.Trim | 00-oop/main.go:76 | `TrimSpace` returns a slice of its input with only white space cut on either side and no white space left at either end |
| Operators.TrimIgnoresSurroundingSpace | 00-oop/main.go:76 | white space added around a string does not change its trimmed form |
| Operators.NormalizeIdempotent | 00-oop/main.go:76 | lower-casing and trimming twice is the same as once |
| Operators.Has | 00-oop/main.go:75-78 | `has` looks up the lower-cased, trimmed key: for a key already in that form it is plain membership, and it never finds anything in an empty set |
| Operators.AddOp | 00-oop/main.go:65-67 | `add` makes the key itself a member and changes nothing else |
| Operators.RemoveOp | 00-oop/main.go:70-72 | `remove` drops the key itself and changes nothing else |
| Operators.AddIdempotent | 00-oop/main.go:65-67 | adding twice is adding once |
| Operators.RemoveAfterAdd | 00-oop/main.go:65-72 | removing right after adding undoes the add |
| Operators.HasIgnoresSurroundingSpace | 00-oop/main.go:75-78 | `has` gives the same answer with white space around its argument |
| Operators.HasIgnoresCase | 00-oop/main.go:75-78 | `has` gives the same answer for arguments equal up to ASCII case |
| Operators.HasInitialEq | 00-oop/main.go:110 | on the initial set, `has("EQ")` and `has("  Gt\t")` hold and `has("ne")` does not |
| Operators.AddThenHasCanFail | 00-oop/main.go:65-78 | after `add("GT")` on an empty set, "GT" is a member but `has("GT")` is false |
| Operators.RemoveThenHasCanHold | 00-oop/main.go:70-78 | after `remove("GT")` on the initial set, `has("GT")` is still true |
| Operators.AddNormalized | 00-oop/main.go:65-67 | the corrected `add` inserts the normalised key and changes nothing else |
| Operators.RemoveNormalized | 00-oop/main.go:70-72 | the corrected `remove` drops the normalised key and changes nothing else |
| Operators.NormalizedOpsAgreeWithHas | 00-oop/main.go:65-78 | with the corrected operations, `has` of any spelling normalising to the same key is true after `add` and false after `remove` |
| Store.FindIndex | 04-fprocessor/web/src/storedash.js:16 | `findIndex` gives -1 exactly when no row has the id, otherwise the first row with that id |
| Store.Upsert | 04-fprocessor/web/src/storedash.js:16-17 | a message with a new id is appended after the unchanged rows; otherwise it replaces the first row with its id and every other row is unchanged |
| Store.IdsAfterUpsert | 04-fprocessor/web/src/storedash.js:16-17 | an update keeps the id column when the id was present and appends the id otherwise |
| Store.UpsertKeepsDistinct | 04-fprocessor/web/src/storedash.js:16-17 | an update never creates a second row with the same id |
| Store.UpsertIdempotent | 04-fprocessor/web/src/storedash.js:16-17 | applying the same message twice is applying it once |
| Store.UpsertAll | 04-fprocessor/web/src/storedash.js:13-18 | the message handler applied to a run of messages: no row is lost, at most one row is added per message, and distinct ids stay distinct |
| Store.UpsertAllIds | 04-fprocessor/web/src/storedash.js:13-18 | after a run of messages an id is in the table exactly when it was there before or arrived |
| Store.FirstArrivals | 04-fprocessor/web/src/storedash.js:3-18 | the reference order of the dashboard: each id once, exactly the ids that arrived |
| Store.DashboardOrder | 04-fprocessor/web/src/storedash.js:3-18 | from the empty table, the dashboard has one row per id seen, ordered by each id's first arrival |
| Store.MonitorInitialShape | 04-fprocessor/web/src/storemon.js:3-34 | the monitor starts with the six ids 1..6 in order, all with state 100 |
| Store.MonitorUpsert | 04-fprocessor/web/src/storemon.js:45-50 | on the monitor table an event with id 1..6 replaces that row and keeps the six ids; any other id adds a seventh row |
| Store.MonitorKeepsShape | 04-fprocessor/web/src/storemon.js:45-50 | events with ids 1..5 keep the six rows in place and never touch the "File sender" row |
| Store.MonitorFedByStateMonitor | 04-fprocessor/web/src/storemon.js:45-50 | whatever `StateMonitor` picks, the monitor keeps its six ids and its "File sender" row keeps state 100 |
| Generators.RepeatPrefix | 03-queuing/buf_test.go:43-51 | after n sends `repeat` has sent the values cyclically (item i is value i mod count); with no values it sends nothing |
| Generators.RepeatPrefixGrows | 03-queuing/buf_test.go:43-51 | later cancellation only extends what `repeat` sent |
| Generators.RepeatStepCancelled | 03-queuing/buf_test.go:43-51 | one step of `repeat` after `done` is closed: it returns exactly when it reaches a select (a value is left in the current pass); at the end of `values` it starts the next pass; a returned goroutine stays returned |
| Generators.RepeatAfterCancel | 03-queuing/buf_test.go:43-51 | several such steps: once returned it stays returned; with values it returns at its next select and within two steps from anywhere; with no values it never returns |
| Generators.RepeatReturnsAfterCancel | 03-queuing/buf_test.go:43-51 | with at least one value, `repeat` returns within two steps once cancelled |
| Generators.RepeatWithoutValuesNeverReturns | 03-queuing/buf_test.go:43-51 | with no values, `repeat` never reaches a select and never returns after cancellation |
| Generators.RepeatCheckedReturns | 03-queuing/buf_test.go:41-52 | a `repeat` that also checks `done` once per pass returns at its first step after cancellation, with or without values |
| Generators.TakeFrom | 03-queuing/buf_test.go:63-69 | the loop from iteration i sends the items received at iterations i, i+1, ... up to the stopping point, and closes unless it waits forever on an upstream that blocks |
| Generators.Take | 03-queuing/buf_test.go:55-72 | `take` sends at most `num` items, the upstream's items in order and then zero values once it has closed; nothing for `num <= 0`; it closes unless it waits on a blocked upstream |
| Generators.TakeChecked | 03-queuing/buf_test.go:55-72 | the corrected `take` sends a prefix of what the upstream delivered, at most `num` items; when not cancelled it sends `min(num, delivered)` items, all available ones, and closes when the upstream closes or has delivered `num` |
| Generators.TakePadsWithZeroValues | 03-queuing/buf_test.go:67 | over a channel that delivered one item and closed, `take(3)` sends the item and two zero values; the corrected version sends the item alone |
| Generators.TakeAgreesWhileUpstreamOpen | 03-queuing/buf_test.go:63-69 | while the upstream never closes, the as-written and the corrected `take` send the same |
| Generators.RepeatOutput | 03-queuing/buf_test.go:36-54 | what `repeat` delivers is a prefix of its cyclic output; uncancelled (or with no values) it never closes |
| Generators.TakeOfRepeat | 03-queuing/buf_test.go:80 | the checked `take` over `repeat`, each with its own cancellation: at most `num` items, a prefix of the cyclic repetition of the values |
| Generators.TakeOfRepeatSendsCycle | 03-queuing/buf_test.go:80 | with the checked `take`, `take` of `repeat` sends the first `num` items of the cyclic repetition and closes; cancelling either stage only shortens it; with no values a positive `take` waits forever |
| Generators.AsWrittenTakeOfRepeat | 03-queuing/buf_test.go:55-80 | the call as written: while `repeat` is not cancelled the as-written `take` sends exactly what the checked one sends, a prefix of the cyclic repetition whatever `take`'s own cancellation, and uncancelled with values the first `num` items followed by the close |
| Generators.RepeatClosingFirstLeaksZeroValues | 03-queuing/buf_test.go:67 | if `repeat` is cancelled first, the as-written `take` sends `5, nil, nil`, not a prefix of `5, 5, 5`; the corrected one sends `5` |
| Generators.PerformWrite | 03-queuing/buf_test.go:74-82 | `performWrite` writes `b.N` one-byte buffers (none when `b.N <= 0`), each holding the byte 0 |
| Generators.PerformWriteTerminates | 03-queuing/buf_test.go:74-82 | the range loop ends, the as-written `take` sends the same as the corrected one there, and `repeat` returns once `done` is closed |

## Left out

- HTTP and WebSocket handlers (`UpdateState`, `Monitor`, `Notify`, `getRandomLaw`), the `Law` and `Job` types, the embedded front end and `upgrader`. These are I/O around the core. A `Notify` client that connects mid-run is covered by `Broker.SubscriberSeesOnlyLaterPublishes`: it holds exactly the events published after it subscribed.
- Logging, `time.Sleep` intervals, `rand.Seed` and clocks. The random index of `StateMonitor` is the parameter `pick`.
- Goroutine interleavings. Only the cancellation point of each component (`Cancel`) and the order of the mutex-protected calls (`Calculator.IsSchedule`) are kept.
- Channel capacities (8 for `Source`, 1 per subscriber) and sender blocking. A `Publish` goroutine that waits forever on a subscriber that stopped receiving is a liveness property, not modelled.
- `Pipe.closed`: no code in the repository sets it to true. The flag is modelled, and `Publish` respects it.
- `Display`: it only prints.
- `BenchmarkUnbufferedWrite`, `BenchmarkBufferedWrite` and `tmpFileOrFatal`: file I/O. `PerformWrite` models the sequence of writes, not the writer.
- Pipeline.SourceAll: Go's `int` is 64 bits wide; at `siz == math.MaxInt` the loop bound `siz+1` wraps to `math.MinInt` and `Source` emits nothing, while the model, on unbounded integers, emits `siz` messages.
- Pipeline.Source: the same `math.MaxInt` edge as `SourceAll`; the promise "all `siz` messages when not cancelled" holds for every `siz` below it.
- Calculator.Init: `c.values = values` keeps the caller's slice, so a caller that passes a slice as `Init(s...)` sees later `Multiply` and `Add` calls change that slice. The model copies the values. The program itself calls `Init` only with literal arguments, which Go packs into a fresh slice.
- Calculator.Multiply: Go's `int` wraps around on overflow; the model uses unbounded integers.
- Calculator.Add: same as Multiply.
- Operators.Lower: only ASCII letters are mapped. `strings.ToLower` also maps non-ASCII letters.
- Operators.Trim: only ASCII white space is trimmed. `strings.TrimSpace` also trims U+0085, U+00A0 and other Unicode spaces.
- Store.Upsert: JSON parsing is left out, and ids compare as integers (`===` on numbers).
- Generators.RepeatOutput: how long an uncancelled `repeat` keeps sending is cut to what a `take` of `num` items can receive.

## Findings

| source | as written | input that shows it | evidently intended | confidence | as-written member | corrected member |
|---|---|---|---|---|---|---|
| 00-oop/main.go:65-78 | `add` and `remove` store and delete the key exactly as given, while `has` lower-cases and trims it | `add("GT")` on an empty set, then `has("GT")` is false; `remove("GT")` on the initial set leaves `has("GT")` true | `add` and `remove` normalise their key as `has` does | high (not executed) | Operators.AddThenHasCanFail | Operators.NormalizedOpsAgreeWithHas |
| 03-queuing/buf_test.go:67 | `takeStream <- <-valueStream` receives before the select, and a closed upstream yields the zero value, which is then sent | `repeat` cancelled after one send of `5`, then `take(3)` sends `5, nil, nil`. The defect is latent in the `take` helper: `performWrite` cannot reach it, because its single `done` is closed only by the `defer` after the range loop, so `repeat` never closes first there (`Generators.AsWrittenTakeOfRepeat`) | stop when the upstream is closed (`v, ok := <-valueStream; if !ok { return }`) | high (not executed) | Generators.RepeatClosingFirstLeaksZeroValues | Generators.TakeChecked |
| 03-queuing/buf_test.go:43-51 | with no values the inner `range` is empty and the outer `for` spins without reaching a select | `repeat(done)` with no values, then close `done`: the goroutine never returns | `repeat` returns once `done` is closed | medium (not executed) | Generators.RepeatWithoutValuesNeverReturns | Generators.RepeatCheckedReturns |
