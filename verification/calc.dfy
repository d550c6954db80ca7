/** `Calc` of 00-oop/main.go: a slice of ints with element-wise `Multiply` and
    `Add`, each of which holds the mutex for its whole loop. Go's fixed-width
    `int` is modelled by unbounded integers. */
module Calculator {

  datatype Calc = Calc(values: seq<int>)

  /** One call of the calculator, as a value (the reference the methods are checked against). */
  datatype Op = Mul(k: int) | Plus(k: int)

  function ApplyOne(op: Op, x: int): int
  {
    match op
    case Mul(k) => k * x
    case Plus(k) => k + x
  }

  /** The reference meaning of one call on the whole slice. */
  function Step(op: Op, vs: seq<int>): (r: seq<int>)
    ensures |r| == |vs|
    ensures forall i :: 0 <= i < |vs| ==> r[i] == ApplyOne(op, vs[i])
    decreases |vs|
  {
    if |vs| == 0 then [] else [ApplyOne(op, vs[0])] + Step(op, vs[1..])
  }

  /** `Init(values...)`: the contents become exactly `vs`, whatever they were. */
  method Init(c: Calc, vs: seq<int>) returns (r: Calc)
    ensures r.values == vs
  {
    r := Calc(vs);
  }

  /** Copies the slice into a fresh array, as the loops below work in place. */
  method ToArray(vs: seq<int>) returns (a: array<int>)
    ensures fresh(a) && a[..] == vs
  {
    a := new int[|vs|](i requires 0 <= i < |vs| => vs[i]);
  }

  /** `Multiply(k)`: the length is kept and every element becomes k times itself. */
  method Multiply(c: Calc, k: int) returns (r: Calc)
    ensures |r.values| == |c.values|
    ensures forall i :: 0 <= i < |c.values| ==> r.values[i] == k * c.values[i]
  {
    var a := ToArray(c.values);
    var i := 0;
    while i < a.Length
      invariant 0 <= i <= a.Length
      invariant forall j :: 0 <= j < i ==> a[j] == k * c.values[j]
      invariant forall j :: i <= j < a.Length ==> a[j] == c.values[j]
    {
      a[i] := k * a[i];
      i := i + 1;
    }
    r := Calc(a[..]);
  }

  /** `Add(k)`: the length is kept and every element becomes k plus itself. */
  method Add(c: Calc, k: int) returns (r: Calc)
    ensures |r.values| == |c.values|
    ensures forall i :: 0 <= i < |c.values| ==> r.values[i] == k + c.values[i]
  {
    var a := ToArray(c.values);
    var i := 0;
    while i < a.Length
      invariant 0 <= i <= a.Length
      invariant forall j :: 0 <= j < i ==> a[j] == k + c.values[j]
      invariant forall j :: i <= j < a.Length ==> a[j] == c.values[j]
    {
      a[i] := k + a[i];
      i := i + 1;
    }
    r := Calc(a[..]);
  }

  /** Performs one call; agrees with the reference `Step`. */
  method Call(c: Calc, op: Op) returns (r: Calc)
    ensures r.values == Step(op, c.values)
  {
    match op
    case Mul(k) => r := Multiply(c, k);
    case Plus(k) => r := Add(c, k);
  }

  /** The calls applied one after the other, last call last. */
  function Serial(ops: seq<Op>, vs: seq<int>): (r: seq<int>)
    ensures |r| == |vs|
    decreases |ops|
  {
    if |ops| == 0 then vs else Step(ops[|ops| - 1], Serial(ops[..|ops| - 1], vs))
  }

  function SerialOne(ops: seq<Op>, x: int): int
    decreases |ops|
  {
    if |ops| == 0 then x else ApplyOne(ops[|ops| - 1], SerialOne(ops[..|ops| - 1], x))
  }

  /** A serial run acts on each element independently. */
  lemma {:induction false} SerialElementwise(ops: seq<Op>, vs: seq<int>)
    ensures |Serial(ops, vs)| == |vs|
    ensures forall i :: 0 <= i < |vs| ==> Serial(ops, vs)[i] == SerialOne(ops, vs[i])
    decreases |ops|
  {
    if |ops| > 0 {
      SerialElementwise(ops[..|ops| - 1], vs);
    }
  }

  /** The sequential part of `main`: Init(1, 2, 3, 4), Multiply(2), Add(1), Multiply(2). */
  method SequentialDemo() returns (r: Calc)
    ensures r.values == [6, 10, 14, 18]
  {
    var c := Init(Calc([]), [1, 2, 3, 4]);
    c := Multiply(c, 2);
    c := Add(c, 1);
    c := Multiply(c, 2);
    r := c;
  }

  /** The three goroutines of the concurrent block: 0 multiplies by 2, 1 adds 1, 2 multiplies by 2. */
  const ConcurrentCalls: seq<Op> := [Mul(2), Plus(1), Mul(2)]

  /** An order in which the mutex lets the three calls run: a permutation of 0, 1, 2. */
  predicate IsSchedule(order: seq<nat>)
  {
    && |order| == 3
    && (forall i :: 0 <= i < 3 ==> order[i] < 3)
    && order[0] != order[1] && order[0] != order[2] && order[1] != order[2]
  }

  function Scheduled(order: seq<nat>): (ops: seq<Op>)
    requires IsSchedule(order)
    ensures |ops| == 3 && forall i :: 0 <= i < 3 ==> ops[i] == ConcurrentCalls[order[i]]
  {
    [ConcurrentCalls[order[0]], ConcurrentCalls[order[1]], ConcurrentCalls[order[2]]]
  }

  /** Position of the `Add(1)` call in a schedule. */
  function AddPosition(order: seq<nat>): (p: nat)
    requires IsSchedule(order)
    ensures p < 3 && order[p] == 1
  {
    if order[0] == 1 then 0 else if order[1] == 1 then 1 else 2
  }

  /** Every serial order of the concurrent block applies one formula to all
      elements: 4x+4 when the addition runs first, 4x+2 when it runs second,
      4x+1 when it runs last. */
  lemma SerialOrders(order: seq<nat>, vs: seq<int>)
    requires IsSchedule(order)
    ensures var r := Serial(Scheduled(order), vs);
      && |r| == |vs|
      && forall i :: 0 <= i < |vs| ==>
           r[i] == 4 * vs[i] + (if AddPosition(order) == 0 then 4 else if AddPosition(order) == 1 then 2 else 1)
  {
    var ops := Scheduled(order);
    SerialElementwise(ops, vs);
    forall i | 0 <= i < |vs|
      ensures SerialOne(ops, vs[i]) ==
        4 * vs[i] + (if AddPosition(order) == 0 then 4 else if AddPosition(order) == 1 then 2 else 1)
    {
      var x := vs[i];
      assert ops[..2][..1] == [ops[0]];
      assert SerialOne([ops[0]], x) == ApplyOne(ops[0], x);
      assert SerialOne(ops[..2], x) == ApplyOne(ops[1], ApplyOne(ops[0], x));
    }
  }

  /** Each of the three outcomes happens for some schedule. */
  lemma EveryOutcomeReachable(vs: seq<int>, b: int)
    requires b == 1 || b == 2 || b == 4
    ensures exists order ::
      && IsSchedule(order)
      && forall i :: 0 <= i < |vs| ==> Serial(Scheduled(order), vs)[i] == 4 * vs[i] + b
  {
    var order: seq<nat>;
    if b == 4 {
      order := [1, 0, 2];
    } else if b == 2 {
      order := [0, 1, 2];
    } else {
      order := [0, 2, 1];
    }
    OutcomeOf(order, vs, b);
  }

  lemma OutcomeOf(order: seq<nat>, vs: seq<int>, b: int)
    requires IsSchedule(order)
    requires b == (if AddPosition(order) == 0 then 4 else if AddPosition(order) == 1 then 2 else 1)
    ensures forall i :: 0 <= i < |vs| ==> Serial(Scheduled(order), vs)[i] == 4 * vs[i] + b
  {
    SerialOrders(order, vs);
  }

  /** The concurrent part of `main`: the three calls run one at a time in the
      order the scheduler picks, so the result is one of three vectors. */
  method ConcurrentDemo(order: seq<nat>) returns (r: Calc)
    requires IsSchedule(order)
    ensures r.values == [5, 9, 13, 17] || r.values == [6, 10, 14, 18] || r.values == [8, 12, 16, 20]
  {
    var init := [1, 2, 3, 4];
    var c := Init(Calc([]), init);
    var ops := Scheduled(order);
    var i := 0;
    while i < 3
      invariant 0 <= i <= 3
      invariant c.values == Serial(ops[..i], init)
    {
      assert ops[..i + 1][..i] == ops[..i];
      c := Call(c, ops[i]);
      i := i + 1;
    }
    assert ops[..3] == ops;
    ConcurrentOutcomes(order);
    r := c;
  }

  /** The three vectors the concurrent block can leave behind. */
  lemma ConcurrentOutcomes(order: seq<nat>)
    requires IsSchedule(order)
    ensures var r := Serial(Scheduled(order), [1, 2, 3, 4]);
            r == [5, 9, 13, 17] || r == [6, 10, 14, 18] || r == [8, 12, 16, 20]
  {
    var init := [1, 2, 3, 4];
    var r := Serial(Scheduled(order), init);
    SerialOrders(order, init);
    var b := if AddPosition(order) == 0 then 4 else if AddPosition(order) == 1 then 2 else 1;
    assert r[0] == 4 + b && r[1] == 8 + b && r[2] == 12 + b && r[3] == 16 + b;
    assert r == [4 + b, 8 + b, 12 + b, 16 + b];
  }
}
