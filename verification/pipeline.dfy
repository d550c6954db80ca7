/** The message pipeline of 04-fprocessor/main.go: the generator `Source`, the
    six stages that `main` chains, the republishing loop of `Sink`, and the
    random pick of `StateMonitor`. Delays, goroutines and channels are gone; a
    run is described by what each component forwards and what it publishes to
    the broker under `RxEvent`. */
module Pipeline {
  import opened Streams
  import opened Messages
  import Broker

  const RxEvent: string := "FileReceived"

  // ---------------------------------------------------------------- Source

  /** Everything `Source(_, siz, done)` emits when `done` never fires. */
  function SourceAll(siz: int): (r: seq<Message>)
    ensures |r| == if siz <= 0 then 0 else siz
    ensures forall k :: 0 <= k < |r| ==> r[k] == Message(k + 1, 0, Description(k + 1))
    decreases siz
  {
    if siz <= 0 then []
    else SourceAll(siz - 1) + [Message(siz, 0, Description(siz))]
  }

  /** Each label `Source` produces reads back as its message's id. */
  lemma SourceLabelsParse(siz: int, done: Cancel)
    ensures forall k :: 0 <= k < |Source(siz, done)| ==>
      ParseDescription(Source(siz, done)[k].description) == Some(Source(siz, done)[k].id)
  {
    var r := Source(siz, done);
    forall k | 0 <= k < |r| ensures ParseDescription(r[k].description) == Some(r[k].id) {
      DescriptionRoundTrip(k + 1);
    }
  }

  /** `Source`: messages with ids 1, 2, ... in increasing order, all in state 0,
      each labelled with its own id; `siz` of them, or a prefix on cancellation. */
  function Source(siz: int, done: Cancel): (r: seq<Message>)
    ensures r <= SourceAll(siz)
    ensures |r| <= if siz <= 0 then 0 else siz
    ensures done.Never? ==> |r| == if siz <= 0 then 0 else siz
    ensures forall k :: 0 <= k < |r| ==>
      r[k].id == k + 1 && r[k].state == 0 && r[k].description == Description(k + 1)
    ensures forall j, k :: 0 <= j < k < |r| ==> r[j].id < r[k].id
  {
    var r := Cut(SourceAll(siz), done);
    PrefixOfSourceAll(siz, r);
    r
  }

  /** What every prefix of the generator's full output looks like. */
  lemma PrefixOfSourceAll(siz: int, r: seq<Message>)
    requires r <= SourceAll(siz)
    ensures |r| <= if siz <= 0 then 0 else siz
    ensures forall k :: 0 <= k < |r| ==>
      r[k].id == k + 1 && r[k].state == 0 && r[k].description == Description(k + 1)
    ensures forall j, k :: 0 <= j < k < |r| ==> r[j].id < r[k].id
  {
    var all := SourceAll(siz);
    forall k | 0 <= k < |r|
      ensures r[k].id == k + 1 && r[k].state == 0 && r[k].description == Description(k + 1)
    {
      assert r[k] == all[k];
    }
  }

  // ---------------------------------------------------------------- Stages

  /** A copy of every message with `State` set to `s`, in order. */
  function SetState(ms: seq<Message>, s: int): (r: seq<Message>)
    ensures |r| == |ms|
    ensures forall k :: 0 <= k < |r| ==>
      r[k].state == s && r[k].id == ms[k].id && r[k].description == ms[k].description
    decreases |ms|
  {
    if |ms| == 0 then [] else [WithState(ms[0], s)] + SetState(ms[1..], s)
  }

  /** The six stages, in the order `main` nests them. */
  datatype StageKind = FileReceiver | DataIntegrity | DataDispatcher | FileMaker | DataArchiver | FileSender

  /** The fixed `State` each stage assigns: one of 1..6, a different one
      for each stage (see `StatesIdentifyStages`). */
  function StateOf(k: StageKind): (r: int)
    ensures 1 <= r <= 6
  {
    match k
    case FileReceiver => 1
    case DataIntegrity => 2
    case DataDispatcher => 3
    case FileMaker => 4
    case DataArchiver => 5
    case FileSender => 6
  }

  /** A state names its stage: two stages assign the same state only when
      they are the same stage. */
  lemma StatesIdentifyStages(a: StageKind, b: StageKind)
    ensures StateOf(a) == StateOf(b) <==> a == b
  {
  }

  /** `FileSender(DataArchiver(FileMaker(DataDispatcher(DataIntegrity(FileReceiver(src))))))`. */
  const MainChain: seq<StageKind> :=
    [FileReceiver, DataIntegrity, DataDispatcher, FileMaker, DataArchiver, FileSender]

  /** Along the chain built by `main` the assigned states are 1, 2, ..., 6:
      each stage's value is its position, so they strictly increase. */
  lemma MainChainStates()
    ensures |MainChain| == 6
    ensures forall k :: 0 <= k < |MainChain| ==> StateOf(MainChain[k]) == k + 1
    ensures forall j, k :: 0 <= j < k < |MainChain| ==> StateOf(MainChain[j]) < StateOf(MainChain[k])
  {
  }

  /** What one stage forwards downstream and what it publishes to `RxEvent`. */
  datatype StageRun = StageRun(forwarded: seq<Message>, published: seq<Message>)

  /** A stage run over the messages its upstream delivered before closing.
      Go evaluates the send operand of a `select` before choosing a case, so
      the delay, the state change and the `Publish` happen for a message even
      when the select then picks `done`: on cancellation the stage may have
      published one message more than it forwarded. */
  function Stage(value: int, input: seq<Message>, done: Cancel): (r: StageRun)
    ensures r.forwarded <= r.published <= SetState(input, value)
    ensures |r.published| <= |r.forwarded| + 1
    ensures done.Never? ==> r.forwarded == r.published && |r.forwarded| == |input|
  {
    var out := SetState(input, value);
    match done
    case Never => StageRun(out, out)
    case After(n) => StageRun(out[..Min(n, |out|)], out[..Min(n + 1, |out|)])
  }

  /** A stage's output on a shorter input (its upstream was cancelled) is a
      prefix of its uncancelled output on the full input. */
  lemma {:induction false} SetStatePrefix(a: seq<Message>, b: seq<Message>, s: int)
    requires a <= b
    ensures SetState(a, s) <= SetState(b, s)
  {
    var x, y := SetState(a, s), SetState(b, s);
    forall k | 0 <= k < |x| ensures x[k] == y[k] {
      assert a[k] == b[k];
    }
  }

  /** Every stage's output and publications over a run of the chain. */
  datatype ChainRun = ChainRun(output: seq<Message>, logs: seq<seq<Message>>)

  /** Runs `kinds` in order over `input`; stage `k` observes cancellation at `dones[k]`. */
  function RunChain(kinds: seq<StageKind>, input: seq<Message>, dones: seq<Cancel>): (r: ChainRun)
    requires |dones| == |kinds|
    ensures |r.logs| == |kinds|
    ensures |r.output| <= |input|
    decreases |kinds|
  {
    if |kinds| == 0 then ChainRun(input, [])
    else
      var first := Stage(StateOf(kinds[0]), input, dones[0]);
      var rest := RunChain(kinds[1..], first.forwarded, dones[1..]);
      ChainRun(rest.output, [first.published] + rest.logs)
  }

  function Nevers(n: nat): (r: seq<Cancel>)
    ensures |r| == n && forall k :: 0 <= k < n ==> r[k] == Never
  {
    seq(n, _ => Never)
  }

  /** Without cancellation: every message leaves the chain, in order, with the
      last stage's state and its id and label untouched; stage `k` publishes
      each message once, with stage `k`'s state. */
  lemma {:induction false} ChainWithoutCancel(kinds: seq<StageKind>, input: seq<Message>)
    requires |kinds| > 0
    ensures var r := RunChain(kinds, input, Nevers(|kinds|));
      && |r.output| == |input|
      && (forall j :: 0 <= j < |input| ==>
            r.output[j] == WithState(input[j], StateOf(kinds[|kinds| - 1])))
      && (forall k :: 0 <= k < |kinds| ==> |r.logs[k]| == |input|)
      && (forall k, j :: 0 <= k < |kinds| && 0 <= j < |input| ==>
            r.logs[k][j] == WithState(input[j], StateOf(kinds[k])))
    decreases |kinds|
  {
    var r := RunChain(kinds, input, Nevers(|kinds|));
    var first := Stage(StateOf(kinds[0]), input, Never);
    NeversTail(|kinds|);
    var rest := RunChain(kinds[1..], first.forwarded, Nevers(|kinds| - 1));
    RunChainUnfold(kinds, input, Nevers(|kinds|));
    assert r.logs[0] == first.published;
    if |kinds| == 1 {
      assert r.output == first.forwarded;
    } else {
      ChainWithoutCancel(kinds[1..], first.forwarded);
      assert r.output == rest.output;
      assert forall k :: 1 <= k < |kinds| ==> r.logs[k] == rest.logs[k - 1];
    }
  }

  /** One step of `RunChain`: the first stage, then the rest of the chain. */
  lemma RunChainUnfold(kinds: seq<StageKind>, input: seq<Message>, dones: seq<Cancel>)
    requires |dones| == |kinds| > 0
    ensures var first := Stage(StateOf(kinds[0]), input, dones[0]);
            var rest := RunChain(kinds[1..], first.forwarded, dones[1..]);
            RunChain(kinds, input, dones) == ChainRun(rest.output, [first.published] + rest.logs)
  {
  }

  lemma NeversTail(n: nat)
    requires n > 0
    ensures Nevers(n)[1..] == Nevers(n - 1)
  {
  }

  /** Cancellation anywhere only truncates: the chain's output and every
      stage's publications are prefixes of those of the uncancelled run. */
  lemma {:induction false} ChainCancelIsPrefix(kinds: seq<StageKind>, input: seq<Message>, dones: seq<Cancel>)
    requires |dones| == |kinds|
    ensures var r := RunChain(kinds, input, dones);
            var full := RunChain(kinds, input, Nevers(|kinds|));
            && r.output <= full.output
            && forall k :: 0 <= k < |kinds| ==> r.logs[k] <= full.logs[k]
  {
    ChainPrefixMonotone(kinds, input, input, dones);
  }

  lemma {:induction false} ChainPrefixMonotone(kinds: seq<StageKind>, a: seq<Message>, b: seq<Message>, dones: seq<Cancel>)
    requires |dones| == |kinds| && a <= b
    ensures var r := RunChain(kinds, a, dones);
            var full := RunChain(kinds, b, Nevers(|kinds|));
            && r.output <= full.output
            && forall k :: 0 <= k < |kinds| ==> r.logs[k] <= full.logs[k]
    decreases |kinds|
  {
    if |kinds| > 0 {
      var v := StateOf(kinds[0]);
      var s1 := Stage(v, a, dones[0]);
      var f1 := Stage(v, b, Never);
      SetStatePrefix(a, b, v);
      NeversTail(|kinds|);
      var restR := RunChain(kinds[1..], s1.forwarded, dones[1..]);
      var restF := RunChain(kinds[1..], f1.forwarded, Nevers(|kinds| - 1));
      RunChainUnfold(kinds, a, dones);
      RunChainUnfold(kinds, b, Nevers(|kinds|));
      ChainPrefixMonotone(kinds[1..], s1.forwarded, f1.forwarded, dones[1..]);
      LogsPrefix(s1.published, f1.published, restR.logs, restF.logs);
    }
  }

  /** Prepending one prefix pair to two pointwise-prefix log lists. */
  lemma LogsPrefix(a: seq<Message>, b: seq<Message>, xs: seq<seq<Message>>, ys: seq<seq<Message>>)
    requires a <= b && |xs| == |ys|
    requires forall k :: 0 <= k < |xs| ==> xs[k] <= ys[k]
    ensures forall k :: 0 <= k < |xs| + 1 ==> ([a] + xs)[k] <= ([b] + ys)[k]
  {
    forall k | 0 <= k < |xs| + 1 ensures ([a] + xs)[k] <= ([b] + ys)[k] {
      if k > 0 {
        assert ([a] + xs)[k] == xs[k - 1] && ([b] + ys)[k] == ys[k - 1];
      }
    }
  }

  /** The chain built by `main`: every message leaving it has state 6, keeps
      its id and label, and the six progress events published for it carry
      the states 1, 2, ..., 6 in stage order. */
  lemma MainChainResult(input: seq<Message>)
    ensures var r := RunChain(MainChain, input, Nevers(6));
      && |r.output| == |input|
      && (forall j :: 0 <= j < |input| ==>
            r.output[j].state == 6 && r.output[j].id == input[j].id
            && r.output[j].description == input[j].description)
      && |r.logs| == 6
      && (forall k :: 0 <= k < 6 ==> |r.logs[k]| == |input|)
      && (forall k, j :: 0 <= k < 6 && 0 <= j < |input| ==>
            r.logs[k][j] == WithState(input[j], k + 1))
  {
    var r := RunChain(MainChain, input, Nevers(6));
    MainChainStates();
    ChainWithoutCancel(MainChain, input);
    forall k, j | 0 <= k < 6 && 0 <= j < |input| ensures r.logs[k][j] == WithState(input[j], k + 1) {
      assert StateOf(MainChain[k]) == k + 1;
    }
    forall j | 0 <= j < |input|
      ensures r.output[j].state == 6 && r.output[j].id == input[j].id
              && r.output[j].description == input[j].description
    {
      assert r.output[j] == WithState(input[j], StateOf(MainChain[5]));
    }
  }

  // ---------------------------------------------------------------- Sink

  /** The second loop of `Sink`: every message drained from the chain is
      republished to `RxEvent` with state 0. It has no `done` case, so it
      drains everything. */
  function SinkRepublish(input: seq<Message>): (published: seq<Message>)
    ensures |published| == |input|
    ensures forall k :: 0 <= k < |input| ==>
      published[k].state == 0 && published[k].id == input[k].id
      && published[k].description == input[k].description
  {
    SetState(input, 0)
  }

  // ---------------------------------------------------------------- End to end

  function Concat(logs: seq<seq<Message>>): (r: seq<Message>)
    decreases |logs|
  {
    if |logs| == 0 then [] else logs[0] + Concat(logs[1..])
  }

  /** Everything published to `RxEvent` by one run of `main`'s pipeline: the
      six stage logs and the Sink's republications. Cancellation anywhere
      never adds events: at most seven per generated message. */
  function ProgressEvents(siz: int, sourceDone: Cancel, dones: seq<Cancel>): (r: seq<Message>)
    requires |dones| == 6
    ensures |r| <= 7 * (if siz <= 0 then 0 else siz)
  {
    var input := Source(siz, sourceDone);
    var run := RunChain(MainChain, input, dones);
    ChainLogsBounded(input, dones);
    ConcatBound(run.logs, |input|);
    Concat(run.logs) + SinkRepublish(run.output)
  }

  /** Each stage of `main`'s chain, cancelled anywhere, publishes at most one
      event per input message. */
  lemma ChainLogsBounded(input: seq<Message>, dones: seq<Cancel>)
    requires |dones| == 6
    ensures var r := RunChain(MainChain, input, dones);
            |r.logs| == 6 && forall k :: 0 <= k < 6 ==> |r.logs[k]| <= |input|
  {
    ChainCancelIsPrefix(MainChain, input, dones);
    MainChainResult(input);
  }

  lemma {:induction false} ConcatBound(logs: seq<seq<Message>>, n: nat)
    requires forall k :: 0 <= k < |logs| ==> |logs[k]| <= n
    ensures |Concat(logs)| <= |logs| * n
    decreases |logs|
  {
    if |logs| > 0 {
      ConcatBound(logs[1..], n);
    }
  }

  /** Every event an observer of `RxEvent` can receive, whatever was
      cancelled, names a generated file (id 1..siz with its own label) and a
      state in 0..6: a stage's state or the Sink's 0. */
  lemma EveryEventNamesAFile(siz: int, sourceDone: Cancel, dones: seq<Cancel>, e: Message)
    requires |dones| == 6 && e in ProgressEvents(siz, sourceDone, dones)
    ensures 1 <= e.id <= siz && 0 <= e.state <= 6 && e.description == Description(e.id)
  {
    var input := Source(siz, sourceDone);
    var j := EventFromInput(input, dones, e);
  }

  /** An event of `main`'s chain and Sink, cancelled anywhere, carries the id
      and label of some input message and a state in 0..6. */
  lemma EventFromInput(input: seq<Message>, dones: seq<Cancel>, e: Message) returns (j: int)
    requires |dones| == 6
    requires var r := RunChain(MainChain, input, dones);
             e in Concat(r.logs) + SinkRepublish(r.output)
    ensures 0 <= j < |input| && e.id == input[j].id && e.description == input[j].description
    ensures 0 <= e.state <= 6
  {
    var r := RunChain(MainChain, input, dones);
    if e in Concat(r.logs) {
      var k, j' := ConcatFind(r.logs, e);
      LoggedEvent(input, dones, k, j');
      j := j';
    } else {
      j :| 0 <= j < |r.output| && SinkRepublish(r.output)[j] == e;
      DrainedEvent(input, dones, j);
    }
  }

  /** Entry `j` of stage `k`'s log in `main`'s chain, cancelled anywhere. */
  lemma LoggedEvent(input: seq<Message>, dones: seq<Cancel>, k: int, j: int)
    requires |dones| == 6
    requires var r := RunChain(MainChain, input, dones); 0 <= k < |r.logs| && 0 <= j < |r.logs[k]|
    ensures j < |input| && RunChain(MainChain, input, dones).logs[k][j] == WithState(input[j], k + 1)
  {
    ChainLogsBounded(input, dones);
    ChainCancelIsPrefix(MainChain, input, dones);
    MainLog(input, k, j);
  }

  /** Message `j` leaving `main`'s chain, cancelled anywhere, is input `j`
      with its id and label. */
  lemma DrainedEvent(input: seq<Message>, dones: seq<Cancel>, j: int)
    requires |dones| == 6 && 0 <= j < |RunChain(MainChain, input, dones).output|
    ensures var out := RunChain(MainChain, input, dones).output;
            j < |input| && out[j].id == input[j].id && out[j].description == input[j].description
  {
    ChainCancelIsPrefix(MainChain, input, dones);
    MainChainResult(input);
  }

  /** Where an element of `Concat(logs)` comes from. */
  lemma {:induction false} ConcatFind(logs: seq<seq<Message>>, e: Message) returns (k: int, j: int)
    requires e in Concat(logs)
    ensures 0 <= k < |logs| && 0 <= j < |logs[k]| && logs[k][j] == e
    decreases |logs|
  {
    if e in logs[0] {
      k := 0;
      j :| 0 <= j < |logs[0]| && logs[0][j] == e;
    } else {
      var k', j' := ConcatFind(logs[1..], e);
      k, j := k' + 1, j';
    }
  }

  /** `Concat` of logs that all have length `n` has `|logs| * n` entries. */
  lemma {:induction false} ConcatUniform(logs: seq<seq<Message>>, n: nat)
    requires forall k :: 0 <= k < |logs| ==> |logs[k]| == n
    ensures |Concat(logs)| == |logs| * n
    decreases |logs|
  {
    if |logs| > 0 {
      ConcatUniform(logs[1..], n);
    }
  }

  /** The uncancelled run of `main`'s pipeline on `siz` messages: `siz`
      messages leave the chain, message `i` as {i, 6, "file-%03d"}; the
      broker receives 7 * siz progress events, namely for every id the six
      stage events with states 1..6 and the Sink's republication with state 0. */
  lemma EndToEnd(siz: nat)
    ensures var out := RunChain(MainChain, Source(siz, Never), Nevers(6)).output;
            |out| == siz && forall j :: 0 <= j < siz ==> out[j] == Message(j + 1, 6, Description(j + 1))
    ensures |ProgressEvents(siz, Never, Nevers(6))| == 7 * siz
    ensures forall i, s :: 1 <= i <= siz && 0 <= s <= 6 ==>
      Message(i, s, Description(i)) in ProgressEvents(siz, Never, Nevers(6))
  {
    EndToEndOutput(siz);
    EndToEndCount(siz);
    forall i, s | 1 <= i <= siz && 0 <= s <= 6 {
      EndToEndEvent(siz, i, s);
    }
  }

  lemma EndToEndOutput(siz: nat)
    ensures var out := RunChain(MainChain, Source(siz, Never), Nevers(6)).output;
            |out| == siz && forall j :: 0 <= j < siz ==> out[j] == Message(j + 1, 6, Description(j + 1))
  {
    var input := Source(siz, Never);
    MainChainResult(input);
  }

  lemma EndToEndCount(siz: nat)
    ensures |ProgressEvents(siz, Never, Nevers(6))| == 7 * siz
  {
    var input := Source(siz, Never);
    var r := RunChain(MainChain, input, Nevers(6));
    MainChainResult(input);
    assert |r.logs| == 6;
    ConcatUniform(r.logs, siz);
    assert |Concat(r.logs)| == 6 * siz;
  }

  lemma EndToEndEvent(siz: nat, i: int, s: int)
    requires 1 <= i <= siz && 0 <= s <= 6
    ensures Message(i, s, Description(i)) in ProgressEvents(siz, Never, Nevers(6))
  {
    SourceAt(siz, i);
    if s == 0 {
      EndToEndSinkEvent(siz, i);
    } else {
      EndToEndStageEvent(siz, i, s);
    }
  }

  lemma EndToEndSinkEvent(siz: nat, i: int)
    requires 1 <= i <= siz
    requires |Source(siz, Never)| == siz && Source(siz, Never)[i - 1] == Message(i, 0, Description(i))
    ensures Message(i, 0, Description(i)) in ProgressEvents(siz, Never, Nevers(6))
  {
    var input, x := Source(siz, Never), Message(i, 0, Description(i));
    assert x == WithState(input[i - 1], 0) by {
      assert input[i - 1] == Message(i, 0, Description(i));
    }
    SinkEventPublished(input, i - 1, x);
    ProgressEventsOfRun(siz, Never, Nevers(6));
  }

  /** The Sink's republication of input message `i` is among the main
      chain's progress events. */
  lemma SinkEventPublished(input: seq<Message>, i: int, x: Message)
    requires 0 <= i < |input| && x == WithState(input[i], 0)
    ensures var r := RunChain(MainChain, input, Nevers(6));
            x in Concat(r.logs) + SinkRepublish(r.output)
  {
    var r := RunChain(MainChain, input, Nevers(6));
    SinkEvent(input, i);
    InEither(x, Concat(r.logs), SinkRepublish(r.output));
  }

  lemma EndToEndStageEvent(siz: nat, i: int, s: int)
    requires 1 <= i <= siz && 1 <= s <= 6
    requires |Source(siz, Never)| == siz && Source(siz, Never)[i - 1] == Message(i, 0, Description(i))
    ensures Message(i, s, Description(i)) in ProgressEvents(siz, Never, Nevers(6))
  {
    var input, x := Source(siz, Never), Message(i, s, Description(i));
    assert x == WithState(input[i - 1], s) by {
      assert input[i - 1] == Message(i, 0, Description(i));
    }
    StageEventPublished(input, i - 1, s, x);
    ProgressEventsOfRun(siz, Never, Nevers(6));
  }

  /** Stage `s`'s publication of input message `i` is among the main chain's
      progress events. */
  lemma StageEventPublished(input: seq<Message>, i: int, s: int, x: Message)
    requires 0 <= i < |input| && 1 <= s <= 6 && x == WithState(input[i], s)
    ensures var r := RunChain(MainChain, input, Nevers(6));
            x in Concat(r.logs) + SinkRepublish(r.output)
  {
    var r := RunChain(MainChain, input, Nevers(6));
    StageEvent(input, i, s);
    InEither(x, Concat(r.logs), SinkRepublish(r.output));
  }

  /** The progress events are the stages' logs followed by the Sink's
      republications. */
  lemma ProgressEventsOfRun(siz: int, sourceDone: Cancel, dones: seq<Cancel>)
    requires |dones| == 6
    ensures var r := RunChain(MainChain, Source(siz, sourceDone), dones);
            ProgressEvents(siz, sourceDone, dones) == Concat(r.logs) + SinkRepublish(r.output)
  {
  }


  lemma InEither(x: Message, a: seq<Message>, b: seq<Message>)
    requires x in a || x in b
    ensures x in a + b
  {
  }

  /** Message `i` of an uncancelled `Source`. */
  lemma SourceAt(siz: nat, i: int)
    requires 1 <= i <= siz
    ensures |Source(siz, Never)| == siz && Source(siz, Never)[i - 1] == Message(i, 0, Description(i))
  {
  }

  /** The Sink republishes every input message with state 0. */
  lemma SinkEvent(input: seq<Message>, i: int)
    requires 0 <= i < |input|
    ensures WithState(input[i], 0) in SinkRepublish(RunChain(MainChain, input, Nevers(6)).output)
  {
    var r := RunChain(MainChain, input, Nevers(6));
    MainChainResult(input);
    assert SinkRepublish(r.output)[i] == WithState(input[i], 0);
  }

  /** Stage `s` publishes every input message with state `s`. */
  lemma StageEvent(input: seq<Message>, i: int, s: int)
    requires 0 <= i < |input| && 1 <= s <= 6
    ensures WithState(input[i], s) in Concat(RunChain(MainChain, input, Nevers(6)).logs)
  {
    var r := RunChain(MainChain, input, Nevers(6));
    MainLog(input, s - 1, i);
    ConcatMember(r.logs, s - 1, i);
  }

  /** Entry `j` of stage `k`'s log in the uncancelled main chain. */
  lemma MainLog(input: seq<Message>, k: int, j: int)
    requires 0 <= k < 6 && 0 <= j < |input|
    ensures var r := RunChain(MainChain, input, Nevers(6));
            |r.logs| == 6 && |r.logs[k]| == |input| && r.logs[k][j] == WithState(input[j], k + 1)
  {
    MainChainResult(input);
  }

  lemma {:induction false} ConcatMember(logs: seq<seq<Message>>, k: int, j: int)
    requires 0 <= k < |logs| && 0 <= j < |logs[k]|
    ensures logs[k][j] in Concat(logs)
    decreases |logs|
  {
    if k == 0 {
      assert Concat(logs)[j] == logs[0][j];
    } else {
      ConcatMember(logs[1..], k - 1, j);
      assert logs[1..][k - 1] == logs[k];
    }
  }

  /** An observer that subscribed to `RxEvent` before the pipeline started
      holds every progress event of the run, in whatever order the stages'
      publishes reached the broker: 7 * siz deliveries. */
  lemma ObserverSeesEveryProgressEvent(siz: nat, order: seq<Message>)
    requires multiset(order) == multiset(ProgressEvents(siz, Never, Nevers(6)))
    ensures var (p, ch) := Broker.Subscribe(Broker.NewPipe(), RxEvent);
            var bag := Broker.PublishAll(p, RxEvent, order).pending[ch];
            bag == multiset(ProgressEvents(siz, Never, Nevers(6))) && |bag| == 7 * siz
  {
    var (p, ch) := Broker.Subscribe(Broker.NewPipe(), RxEvent);
    assert ch in Broker.SubsOf(p, RxEvent);
    Broker.PublishAllDeliversTo(p, RxEvent, order, ch);
    EndToEnd(siz);
  }

  /** Three messages through the six stages: three messages leave with state 6,
      and the broker sees 21 events, 18 from the stages and 3 from the Sink. */
  lemma ThreeMessages()
    ensures |RunChain(MainChain, Source(3, Never), Nevers(6)).output| == 3
    ensures |Concat(RunChain(MainChain, Source(3, Never), Nevers(6)).logs)| == 18
    ensures |ProgressEvents(3, Never, Nevers(6))| == 21
  {
    EndToEndOutput(3);
    EndToEndCount(3);
    var r := RunChain(MainChain, Source(3, Never), Nevers(6));
    assert |r.logs| == 6;
    MainChainResult(Source(3, Never));
    ConcatUniform(r.logs, 3);
  }

  // ---------------------------------------------------------------- StateMonitor

  /** The six-entry table `StateMonitor` picks from. */
  const MonitorTable: seq<Message> := [
    Message(1, 0, "File receiver"),
    Message(2, 0, "Data integrity"),
    Message(3, 0, "Data dispatcher"),
    Message(4, 0, "File maker"),
    Message(5, 0, "Data archiving"),
    Message(6, 0, "File sender")]

  /** `StateMonitor`: `rand.Intn(5)` is the choice `pick`, in 0..4, so the
      last entry is never returned. */
  function StateMonitor(pick: int): (r: Message)
    requires 0 <= pick < 5
    ensures r in MonitorTable && r.id == pick + 1
    ensures 1 <= r.id <= 5 && r.state == 0 && r.description != "File sender"
  {
    MonitorTable[pick]
  }

  /** Every one of the first five entries is a possible result, and no other. */
  lemma StateMonitorRange(m: Message)
    ensures (exists pick :: 0 <= pick < 5 && StateMonitor(pick) == m) <==> m in MonitorTable[..5]
  {
    if m in MonitorTable[..5] {
      var k :| 0 <= k < 5 && MonitorTable[k] == m;
      assert StateMonitor(k) == m;
    }
  }
}
