/** 16-bit circular sequence numbers and the total order built over them.

    Every protocol function of the project takes an `Arith`: with `Circular` it
    computes what the program computes on 16-bit numbers, with `Unbounded` it is
    the same code on integers that never wrap.  The unbounded run is the shadow
    against which the circular one is proved. */
module SequenceNumbers {

  const MODULUS: int := 0x1_0000
  const HALF: int := 0x8000

  type U16 = x: int | 0 <= x < MODULUS

  datatype Arith = Circular | Unbounded

  function Wrap(x: int): U16 {
    x % MODULUS
  }

  function Norm(ar: Arith, x: int): int {
    if ar.Circular? then Wrap(x) else x
  }

  function Signed16(x: int): int {
    if x % MODULUS < HALF then x % MODULUS else x % MODULUS - MODULUS
  }

  function Distance(ar: Arith, from: int, to: int): int {
    if ar.Circular? then Signed16(to - from) else to - from
  }

  predicate Lt(ar: Arith, a: int, b: int) { Distance(ar, a, b) > 0 }
  predicate Le(ar: Arith, a: int, b: int) { Distance(ar, a, b) >= 0 }
  predicate Eq(ar: Arith, a: int, b: int) { Distance(ar, a, b) == 0 }
  predicate Ge(ar: Arith, a: int, b: int) { Distance(ar, a, b) <= 0 }
  predicate Gt(ar: Arith, a: int, b: int) { Distance(ar, a, b) < 0 }

  /** x and y are less than half the sequence space apart. */
  predicate Near(x: int, y: int) {
    -HALF < x - y < HALF
  }

  /** On numbers less than half the space apart the circular comparisons of the
      16-bit images are the comparisons of the integers. */
  lemma CircularOrder(x: int, y: int)
    requires Near(x, y)
    ensures Distance(Circular, Wrap(x), Wrap(y)) == y - x
    ensures Lt(Circular, Wrap(x), Wrap(y)) <==> x < y
    ensures Le(Circular, Wrap(x), Wrap(y)) <==> x <= y
    ensures Eq(Circular, Wrap(x), Wrap(y)) <==> x == y
    ensures Ge(Circular, Wrap(x), Wrap(y)) <==> x >= y
    ensures Gt(Circular, Wrap(x), Wrap(y)) <==> x > y
    ensures Wrap(x) == Wrap(y) <==> x == y
  {
    WrapDifference(x, y);
  }

  lemma WrapDifference(x: int, y: int)
    ensures (Wrap(y) - Wrap(x)) % MODULUS == (y - x) % MODULUS
  {
    var k := y / MODULUS - x / MODULUS;
    assert y - x == Wrap(y) - Wrap(x) + k * MODULUS;
    ModShift(Wrap(y) - Wrap(x), k);
  }

  lemma {:induction false} ModShift(z: int, k: int)
    ensures (z + k * MODULUS) % MODULUS == z % MODULUS
    decreases if k < 0 then -k else k
  {
    if k > 0 {
      ModShift(z, k - 1);
      assert z + k * MODULUS == z + (k - 1) * MODULUS + MODULUS;
    } else if k < 0 {
      ModShift(z, k + 1);
      assert z + k * MODULUS == z + (k + 1) * MODULUS - MODULUS;
    }
  }

  /** Wrapping before an addition does not show after it. */
  lemma WrapPlus(x: int, v: int)
    ensures Wrap(Wrap(x) + v) == Wrap(x + v)
  {
    assert x + v == Wrap(x) + v + (x / MODULUS) * MODULUS;
    ModShift(Wrap(x) + v, x / MODULUS);
  }

  /** Comparing with a number is comparing with its 16-bit image. */
  lemma WrapCompared(a: int, b: int)
    ensures Lt(Circular, a, Wrap(b)) == Lt(Circular, a, b)
  {
    assert Wrap(b) - a == (b - a) - b / MODULUS * MODULUS;
    ModShift(b - a, 0 - b / MODULUS);
  }

  /** The bound is sharp: exactly half the space apart, both numbers claim to be
      the larger one. */
  lemma HalfwayIsAmbiguous(x: int)
    ensures Gt(Circular, Wrap(x), Wrap(x + HALF)) && Gt(Circular, Wrap(x + HALF), Wrap(x))
  {
    WrapDifference(x, x + HALF);
    WrapDifference(x + HALF, x);
    assert (-HALF) % MODULUS == HALF;
  }

  // ------------------------------------------------------------------ ordering

  /** A 16-bit number together with the base that makes it a total order. */
  datatype Ordinal = Ordinal(curr: U16, base: int) {
    function Total(): int {
      base + curr
    }

    function Order(s: U16): int {
      Total() + Distance(Circular, curr, s)
    }

    function Monotonic(s: U16): int {
      if Order(s) < Total() then Order(s) + MODULUS else Order(s)
    }

    function Assigned(s: U16): Ordinal {
      Ordinal(s, if Order(s) < Total() || s < curr then base + MODULUS else base)
    }

    function Incremented(): Ordinal {
      var next := Wrap(curr + 1);
      Ordinal(next, if next == 0 then base + MODULUS else base)
    }

    predicate Aligned() {
      base % MODULUS == 0
    }
  }

  datatype OrderingOp = Assign(s: U16) | Increment

  function ApplyOp(o: Ordinal, op: OrderingOp): Ordinal {
    match op
    case Assign(s) => o.Assigned(s)
    case Increment => o.Incremented()
  }

  function ApplyOps(o: Ordinal, ops: seq<OrderingOp>): Ordinal
    decreases |ops|
  {
    if ops == [] then o else ApplyOps(ApplyOp(o, ops[0]), ops[1..])
  }

  lemma OpNeverDecreases(o: Ordinal, op: OrderingOp)
    ensures ApplyOp(o, op).Total() >= o.Total()
    ensures o.Aligned() ==> ApplyOp(o, op).Aligned()
  {
  }

  lemma AlignedIsCongruent(o: Ordinal)
    requires o.Aligned()
    ensures Wrap(o.Total()) == o.curr
  {
    ModShift(o.curr, o.base / MODULUS);
  }

  /** Along every run of assignments and increments the total order never
      decreases and stays congruent to the sequence number. */
  lemma {:induction false} TotalOrderNeverDecreases(o: Ordinal, ops: seq<OrderingOp>)
    ensures ApplyOps(o, ops).Total() >= o.Total()
    ensures o.Aligned() ==> ApplyOps(o, ops).Aligned()
    ensures o.Aligned() ==> Wrap(ApplyOps(o, ops).Total()) == ApplyOps(o, ops).curr
    decreases |ops|
  {
    if ops == [] {
      if o.Aligned() { AlignedIsCongruent(o); }
    } else {
      OpNeverDecreases(o, ops[0]);
      TotalOrderNeverDecreases(ApplyOp(o, ops[0]), ops[1..]);
    }
  }

  /** `Order` is the one number near the total order that has the given 16-bit image, and
      `Monotonic` the first such number that is not behind it. */
  lemma OrderIsNearest(o: Ordinal, s: U16)
    requires o.Aligned()
    ensures Wrap(o.Order(s)) == s && -HALF <= o.Order(s) - o.Total() < HALF
    ensures Wrap(o.Monotonic(s)) == s && o.Total() <= o.Monotonic(s) < o.Total() + MODULUS
  {
    var d := Distance(Circular, o.curr, s);
    assert (s - o.curr) % MODULUS == if s >= o.curr then s - o.curr else s - o.curr + MODULUS;
    assert d == s - o.curr || d == s - o.curr + MODULUS || d == s - o.curr - MODULUS;
    var k := o.base / MODULUS + (d - (s - o.curr)) / MODULUS;
    assert o.Order(s) == s + k * MODULUS;
    ModShift(s, k);
    ModShift(s, k + 1);
  }

  /** A number 0 to 2^15 - 1 ahead moves the total order by exactly its distance. */
  lemma ForwardAssignMovesByDistance(o: Ordinal, s: U16)
    requires Distance(Circular, o.curr, s) >= 0
    ensures o.Assigned(s).Total() == o.Total() + Distance(Circular, o.curr, s)
    ensures o.Assigned(s).Total() == o.Monotonic(s)
  {
    assert (s - o.curr) % MODULUS == if s >= o.curr then s - o.curr else s - o.curr + MODULUS;
  }

  /** For a number behind, assignment agrees with `Monotonic` exactly when the new
      number is also numerically smaller; otherwise it skips one whole wrap. */
  lemma AssignVersusMonotonic(o: Ordinal, s: U16)
    ensures (o.Assigned(s).Total() == o.Monotonic(s)) == (Distance(Circular, o.curr, s) >= 0 || s < o.curr)
    ensures Distance(Circular, o.curr, s) < 0 && s >= o.curr ==>
              o.Assigned(s).Total() == o.Monotonic(s) + MODULUS
  {
    assert (s - o.curr) % MODULUS == if s >= o.curr then s - o.curr else s - o.curr + MODULUS;
  }

  /** `sequence::ordering`: the object whose assignment and increment keep the order. */
  class Ordering {
    var curr: U16
    var base: int

    ghost function View(): Ordinal
      reads this
    {
      Ordinal(curr, base)
    }

    constructor (s: U16, off: int)
      ensures View() == Ordinal(s, off)
    {
      curr, base := s, off;
    }

    method Assign(s: U16)
      modifies this
      ensures View() == old(View()).Assigned(s)
      ensures View().Total() >= old(View()).Total()
    {
      var curOrd := base + curr;
      var seqOrd := base + curr + Distance(Circular, curr, s);
      if seqOrd < curOrd || s < curr {
        base := base + MODULUS;
      }
      curr := s;
    }

    method Increment()
      modifies this
      ensures View() == old(View()).Incremented()
      ensures View().Total() == old(View()).Total() + 1
    {
      curr := Wrap(curr + 1);
      if curr == 0 {
        base := base + MODULUS;
      }
    }
  }
}
