/** The `repeat` and `take` generators of 03-queuing/buf_test.go and the byte
    count of `performWrite`. A channel the generator reads from is described
    by the items it delivers and by what a further receive does after them
    (`Tail`); a generator run by what it sends and whether its goroutine
    closes its output and exits. */
module Generators {
  import opened Streams

  /** After the listed items a receive either gets the zero value at once
      (the channel was closed) or never completes. */
  datatype Tail = Closes | Blocks

  datatype Run<T> = Run(emitted: seq<T>, closes: bool)

  // ---------------------------------------------------------------- repeat

  /** `k` passes of the inner `range values` loop. */
  function Cycles<T>(vs: seq<T>, k: nat): (r: seq<T>)
    ensures |r| == k * |vs|
    decreases k
  {
    if k == 0 then [] else Cycles(vs, k - 1) + vs
  }

  lemma {:induction false} CyclesIndex<T>(vs: seq<T>, k: nat, i: int)
    requires |vs| > 0 && 0 <= i < k * |vs|
    ensures Cycles(vs, k)[i] == vs[i % |vs|]
    decreases k
  {
    var L := |vs|;
    var prev := Cycles(vs, k - 1);
    assert |prev| == (k - 1) * L;
    if i < (k - 1) * L {
      CyclesIndex(vs, k - 1, i);
    } else {
      var j := i - (k - 1) * L;
      assert 0 <= j < L;
      ModOfShift(j, k - 1, L);
    }
  }

  lemma ModOfShift(j: int, q: nat, L: int)
    requires 0 <= j < L
    ensures (j + q * L) % L == j
  {
    var x := j + q * L;
    var d, r := x / L, x % L;
    assert x == d * L + r && 0 <= r < L;
    assert (d - q) * L == j - r by {
      assert d * L - q * L == (d - q) * L;
    }
    if d - q >= 1 {
      MulAtLeast(d - q, L);
    } else if d - q <= -1 {
      MulAtLeast(q - d, L);
    }
  }

  lemma MulAtLeast(a: int, L: int)
    requires a >= 1 && L > 0
    ensures a * L >= L
  {
  }

  /** What `repeat(done, vs...)` has sent after `n` sends: the values in
      order, restarting at the first after the last. With no values the
      inner loop is empty, so nothing is ever sent. */
  function RepeatPrefix<T>(vs: seq<T>, n: nat): (r: seq<T>)
    ensures |vs| == 0 ==> r == []
    ensures |vs| > 0 ==> |r| == n
    ensures forall i :: 0 <= i < |r| ==> r[i] == vs[i % |vs|]
  {
    if |vs| == 0 then []
    else
      var k := n / |vs| + 1;
      var c := Cycles(vs, k);
      assert n <= k * |vs|;
      forall i | 0 <= i < n ensures c[i] == vs[i % |vs|] {
        CyclesIndex(vs, k, i);
      }
      c[..n]
  }

  /** Later cancellation only extends what `repeat` has sent. */
  lemma RepeatPrefixGrows<T>(vs: seq<T>, a: nat, b: nat)
    requires a <= b
    ensures RepeatPrefix(vs, a) <= RepeatPrefix(vs, b)
  {
  }

  /** Where `repeat`'s goroutine is: at `values[pos]`'s select, or returned. */
  datatype RepeatState = At(pos: nat) | Returned

  /** One step of `repeat` once `done` is closed and nobody receives any more:
      a select picks `done`; the end of `values` starts the next pass of the
      outer `for` without any select. */
  function RepeatStepCancelled<T>(vs: seq<T>, s: RepeatState): (r: RepeatState)
    ensures s.Returned? ==> r.Returned?
    ensures r.Returned? <==> s.Returned? || s.pos < |vs|
    ensures r.At? ==> r.pos == 0
  {
    match s
    case Returned => Returned
    case At(pos) => if pos < |vs| then Returned else At(0)
  }

  /** `steps` steps of `repeat` after cancellation: once returned it stays
      returned; with values it has returned after its next select, and two
      steps always reach one; with no values it never returns. */
  function RepeatAfterCancel<T>(vs: seq<T>, s: RepeatState, steps: nat): (r: RepeatState)
    ensures s.Returned? ==> r.Returned?
    ensures |vs| > 0 && s.At? && s.pos < |vs| && steps >= 1 ==> r.Returned?
    ensures |vs| > 0 && steps >= 2 ==> r.Returned?
    ensures |vs| == 0 && s.At? ==> r.At?
    decreases steps
  {
    if steps == 0 then s else RepeatAfterCancel(vs, RepeatStepCancelled(vs, s), steps - 1)
  }

  /** With at least one value `repeat` returns within two steps of cancellation. */
  lemma RepeatReturnsAfterCancel<T>(vs: seq<T>, pos: nat)
    requires |vs| > 0 && pos <= |vs|
    ensures RepeatAfterCancel(vs, At(pos), 2) == Returned
  {
  }

  /** With no values `repeat` spins in `for {}` and never returns, however
      long it runs after cancellation: its goroutine leaks. */
  lemma {:induction false} RepeatWithoutValuesNeverReturns<T>(vs: seq<T>, steps: nat)
    requires |vs| == 0
    ensures RepeatAfterCancel(vs, At(0), steps) == At(0)
    decreases steps
  {
    if steps > 0 {
      RepeatWithoutValuesNeverReturns(vs, steps - 1);
    }
  }

  /** `repeat` checking `done` at the top of every pass as well. */
  function RepeatCheckedStepCancelled<T>(vs: seq<T>, s: RepeatState): RepeatState
  {
    match s
    case Returned => Returned
    case At(pos) => Returned
  }

  function RepeatCheckedAfterCancel<T>(vs: seq<T>, s: RepeatState, steps: nat): RepeatState
    decreases steps
  {
    if steps == 0 then s else RepeatCheckedAfterCancel(vs, RepeatCheckedStepCancelled(vs, s), steps - 1)
  }

  /** The checked `repeat` returns at its first step after cancellation,
      with or without values. */
  lemma {:induction false} RepeatCheckedReturns<T>(vs: seq<T>, pos: nat, steps: nat)
    requires steps >= 1
    ensures RepeatCheckedAfterCancel(vs, At(pos), steps) == Returned
    decreases steps
  {
    if steps > 1 {
      StaysReturned(vs, steps - 1);
    }
  }

  lemma {:induction false} StaysReturned<T>(vs: seq<T>, steps: nat)
    ensures RepeatCheckedAfterCancel(vs, Returned, steps) == Returned
    decreases steps
  {
    if steps > 0 {
      StaysReturned(vs, steps - 1);
    }
  }

  // ---------------------------------------------------------------- take

  /** The item `take` gets at its `i`-th receive when its upstream has
      delivered `up` and then closed: a closed channel yields the zero value. */
  function Received<T>(up: seq<T>, zero: T, i: nat): T
  {
    if i < |up| then up[i] else zero
  }

  function MaxZero(n: int): nat
  {
    if n < 0 then 0 else n
  }

  /** How many items `take` sends: it stops at `num`, at its cancellation
      point, and (if the upstream then blocks) when the upstream runs dry. */
  function TakeCount<T>(num: int, up: seq<T>, tail: Tail, done: Cancel): nat
  {
    var n := MaxZero(num);
    var a := if done.After? then Min(n, done.sends) else n;
    if tail == Blocks then Min(a, |up|) else a
  }

  /** `take`'s loop from iteration `i` on. Each iteration first receives
      (`<-valueStream` is evaluated on entering the select), then the select
      either picks `done` or sends what was received. */
  function TakeFrom<T>(i: nat, num: int, up: seq<T>, tail: Tail, zero: T, done: Cancel): (r: Run<T>)
    requires i <= TakeCount(num, up, tail, done)
    ensures |r.emitted| == TakeCount(num, up, tail, done) - i
    ensures forall j :: 0 <= j < |r.emitted| ==> r.emitted[j] == Received(up, zero, i + j)
    ensures !r.closes <==> tail == Blocks && |up| < num && (done.Never? || done.sends >= |up|)
    decreases MaxZero(num) - i
  {
    if i >= num then Run([], true)
    else if i >= |up| && tail == Blocks then Run([], false)
    else if done.After? && done.sends <= i then Run([], true)
    else
      var rest := TakeFrom(i + 1, num, up, tail, zero, done);
      Run([Received(up, zero, i)] + rest.emitted, rest.closes)
  }

  /** `take(done, valueStream, num)` as written: at most `num` items; while
      the upstream delivers, they are its items in order; once it has closed,
      every further receive yields the zero value and is sent on. With
      `num <= 0` nothing is sent and the output is closed. */
  function Take<T>(num: int, up: seq<T>, tail: Tail, zero: T, done: Cancel): (r: Run<T>)
    ensures |r.emitted| <= MaxZero(num)
    ensures forall j :: 0 <= j < |r.emitted| ==> r.emitted[j] == Received(up, zero, j)
    ensures num <= 0 ==> r.emitted == [] && r.closes
    ensures done.Never? && (tail == Closes || |up| >= num) ==> |r.emitted| == MaxZero(num) && r.closes
    ensures !r.closes <==> tail == Blocks && |up| < num && (done.Never? || done.sends >= |up|)
  {
    TakeFrom(0, num, up, tail, zero, done)
  }

  /** `take` that stops when its upstream closes
      (`v, ok := <-valueStream; if !ok { return }`), from iteration `i` on. */
  function TakeCheckedFrom<T>(i: nat, num: int, up: seq<T>, tail: Tail, done: Cancel): (r: Run<T>)
    requires i <= TakeCount(num, up, Blocks, done)
    ensures r.emitted == up[i..TakeCount(num, up, Blocks, done)]
    ensures !r.closes <==> tail == Blocks && |up| < num && (done.Never? || done.sends >= |up|)
    decreases MaxZero(num) - i
  {
    if i >= num then Run([], true)
    else if i >= |up| then Run([], tail == Closes)
    else if done.After? && done.sends <= i then Run([], true)
    else
      var rest := TakeCheckedFrom(i + 1, num, up, tail, done);
      Run([up[i]] + rest.emitted, rest.closes)
  }

  /** The checked `take` sends a prefix of what its upstream delivered, at
      most `num` items, all of them when nothing cancels it early. */
  function TakeChecked<T>(num: int, up: seq<T>, tail: Tail, done: Cancel): (r: Run<T>)
    ensures r.emitted <= up
    ensures |r.emitted| <= MaxZero(num)
    ensures num <= 0 ==> r.emitted == [] && r.closes
    ensures done.Never? ==> |r.emitted| == Min(MaxZero(num), |up|)
    ensures done.Never? && (tail == Closes || |up| >= num) ==> r.closes
    ensures !r.closes <==> tail == Blocks && |up| < num && (done.Never? || done.sends >= |up|)
  {
    TakeCheckedFrom(0, num, up, tail, done)
  }

  /** Once the upstream has closed, the as-written `take` keeps sending:
      `take(done, ch, 3)` over a channel that delivered `v` and closed sends
      `v` and then two zero values (`nil` for `interface{}`), where the
      checked version sends `v` alone. */
  lemma TakePadsWithZeroValues<T>(v: T, zero: T)
    ensures Take(3, [v], Closes, zero, Never).emitted == [v, zero, zero]
    ensures TakeChecked(3, [v], Closes, Never).emitted == [v]
  {
    var r := Take(3, [v], Closes, zero, Never);
    assert |r.emitted| == 3;
    assert r.emitted[0] == v && r.emitted[1] == zero && r.emitted[2] == zero;
  }

  /** While the upstream stays open the two versions send the same items. */
  lemma {:induction false} TakeAgreesWhileUpstreamOpen<T>(num: int, up: seq<T>, zero: T, done: Cancel)
    ensures Take(num, up, Blocks, zero, done) == TakeChecked(num, up, Blocks, done)
  {
    var a := Take(num, up, Blocks, zero, done);
    var b := TakeChecked(num, up, Blocks, done);
    assert |a.emitted| == TakeCount(num, up, Blocks, done) == |b.emitted|;
    assert |a.emitted| <= |up|;
    forall j | 0 <= j < |a.emitted| ensures a.emitted[j] == b.emitted[j] {
      assert a.emitted[j] == Received(up, zero, j) == up[j];
    }
  }

  // ---------------------------------------------------------------- composition

  datatype Upstream<T> = Upstream(items: seq<T>, tail: Tail)

  /** What `repeat(done, vs...)` delivers to a `take` of `num` items. Not
      cancelled, it always has a next value (or, with no values, never sends
      and never closes); cancelled after `a` sends it closes its channel. */
  function RepeatOutput<T>(vs: seq<T>, num: int, done: Cancel): (u: Upstream<T>)
    ensures u.items <= RepeatPrefix(vs, MaxZero(num))
    ensures done.Never? || |vs| == 0 ==> u.tail == Blocks
    ensures done.Never? ==> u.items == RepeatPrefix(vs, MaxZero(num))
  {
    if |vs| == 0 then Upstream([], Blocks)
    else match done
      case Never => Upstream(RepeatPrefix(vs, MaxZero(num)), Blocks)
      case After(a) =>
        var n := Min(a, MaxZero(num));
        RepeatPrefixGrows(vs, n, MaxZero(num));
        Upstream(RepeatPrefix(vs, n), Closes)
  }

  /** `take(takeDone, repeat(repeatDone, vs...), num)` with the checked `take`:
      whatever either stage's cancellation, at most `num` items, a prefix of
      the cyclic repetition of `vs`. */
  function TakeOfRepeat<T>(vs: seq<T>, num: int, repeatDone: Cancel, takeDone: Cancel): (r: Run<T>)
    ensures r.emitted <= RepeatPrefix(vs, MaxZero(num))
    ensures |r.emitted| <= MaxZero(num)
  {
    var u := RepeatOutput(vs, num, repeatDone);
    TakeChecked(num, u.items, u.tail, takeDone)
  }

  /** The checked `take` of `repeat` sends the first `num` items of the
      endless repetition of `vs` and closes; cancelling either stage early
      only cuts that sequence short; with no values a positive `take` waits
      forever. */
  lemma TakeOfRepeatSendsCycle<T>(vs: seq<T>, num: int, repeatDone: Cancel, takeDone: Cancel)
    ensures TakeOfRepeat(vs, num, repeatDone, takeDone).emitted <= RepeatPrefix(vs, MaxZero(num))
    ensures |vs| > 0 ==> TakeOfRepeat(vs, num, Never, Never) == Run(RepeatPrefix(vs, MaxZero(num)), true)
    ensures |vs| == 0 && num > 0 ==> TakeOfRepeat(vs, num, repeatDone, takeDone) == Run([], false)
  {
  }

  /** The call of buf_test.go, with the as-written `take`: while `repeat` is
      not cancelled (its upstream never closes) it sends exactly what the
      checked `take` sends, so it too sends a prefix of the cyclic
      repetition, and with values and no cancellation the first `num` items
      followed by the close. */
  lemma AsWrittenTakeOfRepeat<T>(vs: seq<T>, num: int, zero: T, takeDone: Cancel)
    ensures var u := RepeatOutput(vs, num, Never);
            Take(num, u.items, u.tail, zero, takeDone) == TakeOfRepeat(vs, num, Never, takeDone)
    ensures var u := RepeatOutput(vs, num, Never);
            Take(num, u.items, u.tail, zero, takeDone).emitted <= RepeatPrefix(vs, MaxZero(num))
    ensures var u := RepeatOutput(vs, num, Never);
            |vs| > 0 ==> Take(num, u.items, u.tail, zero, Never) == Run(RepeatPrefix(vs, MaxZero(num)), true)
  {
    var u := RepeatOutput(vs, num, Never);
    TakeAgreesWhileUpstreamOpen(num, u.items, zero, takeDone);
    TakeAgreesWhileUpstreamOpen(num, u.items, zero, Never);
    TakeOfRepeatSendsCycle(vs, num, Never, Never);
  }

  /** With the as-written `take`, cancelling `repeat` first breaks the
      prefix property: `take(never, repeat(after one send, 5), 3)` sends `5`
      and two zero values, which is not a prefix of `5, 5, 5`. */
  lemma RepeatClosingFirstLeaksZeroValues()
    ensures var u := RepeatOutput([5], 3, After(1));
            Take(3, u.items, u.tail, 0, Never).emitted == [5, 0, 0]
    ensures !([5, 0, 0] <= RepeatPrefix([5], 3))
    ensures TakeOfRepeat([5], 3, After(1), Never).emitted == [5]
  {
    RepeatCutAfterOne();
    TakePadsWithZeroValues(5, 0);
    assert RepeatPrefix([5], 3)[1] == 5;
  }

  lemma RepeatCutAfterOne()
    ensures RepeatOutput([5], 3, After(1)) == Upstream([5], Closes)
  {
    assert RepeatPrefix([5], 1) == [5];
  }

  // ---------------------------------------------------------------- performWrite

  /** The writes of `performWrite` when the benchmark runs `n` iterations:
      `done` is closed only after the loop, so neither generator is cancelled
      while the loop runs. */
  function PerformWrite(n: int): (writes: seq<seq<bv8>>)
    ensures |writes| == MaxZero(n)
    ensures forall k :: 0 <= k < |writes| ==> writes[k] == [0]
  {
    var r := TakeOfRepeat([0 as bv8], n, Never, Never);
    TakeOfRepeatSendsCycle([0 as bv8], n, Never, Never);
    seq(|r.emitted|, k requires 0 <= k < |r.emitted| => [r.emitted[k]])
  }

  /** The `range` loop of `performWrite` ends (`take` closes its channel),
      the as-written `take` sends exactly what the checked one does, and
      `repeat` returns once `done` is closed afterwards. */
  lemma PerformWriteTerminates(n: int)
    ensures TakeOfRepeat([0 as bv8], n, Never, Never).closes
    ensures var u := RepeatOutput([0 as bv8], n, Never);
            Take(n, u.items, u.tail, 0, Never) == TakeOfRepeat([0 as bv8], n, Never, Never)
    ensures RepeatAfterCancel([0 as bv8], At(0), 2) == Returned
  {
    TakeOfRepeatSendsCycle([0 as bv8], n, Never, Never);
    var u := RepeatOutput([0 as bv8], n, Never);
    TakeAgreesWhileUpstreamOpen(n, u.items, 0, Never);
  }
}
