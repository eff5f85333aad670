/** The streams values are packed to and unpacked from: one that only counts, one over a
    fixed buffer, one that reads. */
module RpcStreams {
  import opened Common
  import opened RpcValues

  /** How a call ends: in order, with an exception, or with undefined behaviour. */
  datatype Status = Done | Thrown | Wild

  // lengths are compared as signed 32-bit numbers
  function Signed32(n: nat): int
    requires n < LIMIT
  {
    if n < HALF then n else n - LIMIT
  }

  lemma {:induction false} ModSum(a: nat, x: nat, y: nat)
    ensures ((a + x) % LIMIT + y) % LIMIT == (a + x + y) % LIMIT
  {
  }

  // a list's packed form, from item i on
  lemma PackFrom(less: Order, u: Type, items: seq<Value>, i: nat)
    requires AllFit(less, u, items) && i < |items|
    ensures AllFit(less, u, items[i..]) && AllFit(less, u, items[i + 1..])
    ensures PackAll(less, u, items[i..]) == Pack(less, u, items[i]) + PackAll(less, u, items[i + 1..])
  {
    assert items[i..][1..] == items[i + 1..] && items[i..][0] == items[i];
  }

  /** datastream<size_t>: the dry run, counting in 32 bits. */
  class SizeStream {
    var size: nat

    constructor ()
      ensures size == 0
    {
      size := 0;
    }

    method Put(b: Byte)
      modifies this
      ensures size == (old(size) + 1) % LIMIT
    {
      size := (size + 1) % LIMIT;
    }

    method Write(d: seq<Byte>)
      modifies this
      ensures size == (old(size) + |d|) % LIMIT
    {
      size := (size + |d|) % LIMIT;
    }

    method PutVarint(n: nat)
      requires size < LIMIT
      modifies this
      ensures size == (old(size) + |PackVarint(n)|) % LIMIT
    {
      var val, going := n, true;
      ghost var done: nat := 0;
      while going
        invariant size == (old(size) + done) % LIMIT
        invariant done + (if going then |PackVarint(val)| else 0) == |PackVarint(n)|
        decreases going, val
      {
        var b := val % 128;
        going := val >= 128;
        val := val / 128;
        Put(if going then b + 128 else b);
        ModSum(old(size), done, 1);
        done := done + 1;
      }
    }

    method PackBytes(d: seq<Byte>)
      requires size < LIMIT
      modifies this
      ensures size == (old(size) + |PackVarint(|d|) + d|) % LIMIT
    {
      PutVarint(|d|);
      ModSum(old(size), |PackVarint(|d|)|, |d|);
      Write(d);
    }

    /** pack on the counting stream. */
    method PackValue(less: Order, t: Type, v: Value)
      requires Fits(less, t, v) && size < LIMIT
      modifies this
      ensures size == (old(size) + |Pack(less, t, v)|) % LIMIT
      decreases Size(t), 0
    {
      match t {
        case Varint => PutVarint(v.n);
        case Fixed(w) => Write(PackFixed(v.n, w));
        case Bool => Put(if v.b then 1 else 0);
        case Bytes => PackBytes(v.bytes);
        case Optional(u) =>
          Put(if v.Present? then 1 else 0);
          if v.Present? {
            ModSum(old(size), 1, |Pack(less, u, v.v)|);
            PackValue(less, u, v.v);
          }
        case Container(u) => PackItems(less, u, v.items);
        case SetOf(u) => PackItems(less, u, v.items);
        case PairOf(a, b) =>
          PackValue(less, a, v.first);
          ModSum(old(size), |Pack(less, a, v.first)|, |Pack(less, b, v.second)|);
          PackValue(less, b, v.second);
        case MapOf(a, b) => PackItems(less, PairOf(a, b), v.items);
      }
    }

    method PackItems(less: Order, u: Type, items: seq<Value>)
      requires AllFit(less, u, items) && size < LIMIT
      modifies this
      ensures size == (old(size) + |PackVarint(|items|) + PackAll(less, u, items)|) % LIMIT
      decreases Size(u), 1
    {
      PutVarint(|items|);
      ghost var done: nat := |PackVarint(|items|)|;
      var i := 0;
      assert items[0..] == items;
      while i < |items|
        invariant 0 <= i <= |items| && size == (old(size) + done) % LIMIT && AllFit(less, u, items[i..])
        invariant done + |PackAll(less, u, items[i..])| == |PackVarint(|items|) + PackAll(less, u, items)|
      {
        PackFrom(less, u, items, i);
        PackValue(less, u, items[i]);
        ModSum(old(size), done, |Pack(less, u, items[i])|);
        done := done + |Pack(less, u, items[i])|;
        i := i + 1;
      }
    }
  }

  /** datastream<char*> used for writing. */
  class OutStream {
    const buf: array<Byte>
    var pos: nat

    ghost predicate Valid()
      reads this
    {
      pos <= buf.Length
    }

    ghost function Written(): (s: seq<Byte>)
      requires Valid()
      reads this, buf
      ensures |s| == pos
    {
      buf[..pos]
    }

    constructor (buf: array<Byte>)
      ensures Valid() && this.buf == buf && pos == 0
    {
      this.buf := buf;
      pos := 0;
    }

    method Put(b: Byte) returns (st: Status)
      requires Valid()
      modifies this, buf
      ensures Valid() && st == if old(pos) + 1 <= buf.Length then Done else Thrown
      ensures st.Done? ==> Written() == old(Written()) + [b] && buf[pos..] == old(buf[..])[pos..]
      ensures !st.Done? ==> pos == old(pos) && buf[..] == old(buf[..])
    {
      if pos < buf.Length {
        buf[pos] := b;
        pos := pos + 1;
        return Done;
      }
      return Thrown;
    }

    /** write: a length of 2^31 or more is negative to the check, which lets it through whether
        the bytes fit or not. */
    method Write(d: seq<Byte>) returns (st: Status)
      requires Valid() && |d| < LIMIT
      modifies this, buf
      ensures Valid() && st == if old(pos) + |d| <= buf.Length then Done else if |d| < HALF then Thrown else Wild
      ensures st.Done? ==> Written() == old(Written()) + d && buf[pos..] == old(buf[..])[pos..]
      ensures st.Thrown? ==> pos == old(pos) && buf[..] == old(buf[..])
    {
      if buf.Length - pos < Signed32(|d|) {
        return Thrown;
      }
      if buf.Length - pos < |d| {
        return Wild;
      }
      var i := 0;
      while i < |d|
        invariant 0 <= i <= |d| && pos == old(pos)
        invariant buf[..pos + i] == old(buf[..pos]) + d[..i]
        invariant buf[pos + i..] == old(buf[..])[pos + i..]
      {
        buf[pos + i] := d[i];
        i := i + 1;
      }
      pos := pos + |d|;
      return Done;
    }

    method PutVarint(n: nat) returns (st: Status)
      requires Valid()
      modifies this, buf
      ensures Valid() && st == if old(pos) + |PackVarint(n)| <= buf.Length then Done else Thrown
      ensures st.Done? ==> Written() == old(Written()) + PackVarint(n)
    {
      var val, going := n, true;
      ghost var all := Written() + PackVarint(n);
      while going
        invariant Valid()
        invariant going ==> Written() + PackVarint(val) == all
        invariant !going ==> Written() == all
        decreases going, val
      {
        VarintSplit(Written(), val);
        var b := val % 128;
        going := val >= 128;
        val := val / 128;
        st := Put(if going then b + 128 else b);
        if !st.Done? {
          return;
        }
      }
      st := Done;
    }

    method PackBytes(d: seq<Byte>) returns (st: Status)
      requires Valid() && |d| < LIMIT
      modifies this, buf
      ensures Valid() && Fate(st, buf.Length - old(pos), |PackVarint(|d|) + d|)
      ensures st.Done? ==> Written() == old(Written()) + (PackVarint(|d|) + d)
    {
      Regroup(Written(), PackVarint(|d|), d);
      st := PutVarint(|d|);
      if st.Done? {
        st := Write(d);
      }
    }

    /** pack on a buffer: succeeds exactly when the packed form fits. */
    method PackValue(less: Order, t: Type, v: Value) returns (st: Status)
      requires Valid() && Fits(less, t, v)
      modifies this, buf
      ensures Valid() && Fate(st, buf.Length - old(pos), |Pack(less, t, v)|)
      ensures st.Done? ==> Written() == old(Written()) + Pack(less, t, v)
      decreases Size(t), 0
    {
      match t {
        case Varint => st := PutVarint(v.n);
        case Fixed(w) => st := Write(PackFixed(v.n, w));
        case Bool => st := Put(if v.b then 1 else 0);
        case Bytes => st := PackBytes(v.bytes);
        case Optional(u) =>
          if v.Present? {
            Regroup(Written(), [1], Pack(less, u, v.v));
          }
          st := Put(if v.Present? then 1 else 0);
          if st.Done? && v.Present? {
            st := PackValue(less, u, v.v);
          }
        case Container(u) => st := PackItems(less, u, v.items);
        case SetOf(u) => st := PackItems(less, u, v.items);
        case PairOf(a, b) =>
          Regroup(Written(), Pack(less, a, v.first), Pack(less, b, v.second));
          st := PackValue(less, a, v.first);
          if st.Done? {
            st := PackValue(less, b, v.second);
          }
        case MapOf(a, b) => st := PackItems(less, PairOf(a, b), v.items);
      }
    }

    method PackItems(less: Order, u: Type, items: seq<Value>) returns (st: Status)
      requires Valid() && AllFit(less, u, items)
      modifies this, buf
      ensures Valid() && Fate(st, buf.Length - old(pos), |PackVarint(|items|) + PackAll(less, u, items)|)
      ensures st.Done? ==> Written() == old(Written()) + (PackVarint(|items|) + PackAll(less, u, items))
      decreases Size(u), 1
    {
      ghost var all := Written() + (PackVarint(|items|) + PackAll(less, u, items));
      Regroup(Written(), PackVarint(|items|), PackAll(less, u, items));
      st := PutVarint(|items|);
      if !st.Done? {
        return;
      }
      var i := 0;
      assert items[0..] == items;
      while i < |items|
        invariant 0 <= i <= |items| && Valid() && AllFit(less, u, items[i..])
        invariant Written() + PackAll(less, u, items[i..]) == all
        invariant st.Done? && |PackAll(less, u, items[i..])| <= |PackAll(less, u, items)|
      {
        PackFrom(less, u, items, i);
        Regroup(Written(), Pack(less, u, items[i]), PackAll(less, u, items[i + 1..]));
        st := PackValue(less, u, items[i]);
        if !st.Done? {
          return;
        }
        i := i + 1;
      }
      assert items[i..] == [] && Written() + [] == Written();
    }
  }

  /** Writing `length` bytes where `room` is left: done exactly when they fit; undefined only if
      there are 2^31 or more of them. */
  predicate Fate(st: Status, room: int, length: nat) {
    (st.Done? <==> length <= room) && (st.Wild? ==> length >= HALF)
  }

  /** datastream<const char*>. */
  class InStream {
    const buf: seq<Byte>
    var pos: nat

    ghost predicate Valid()
      reads this
    {
      pos <= |buf|
    }

    ghost function Left(): seq<Byte>
      requires Valid()
      reads this
    {
      buf[pos..]
    }

    constructor (buf: seq<Byte>)
      ensures Valid() && this.buf == buf && Left() == buf
    {
      this.buf := buf;
      pos := 0;
    }

    method Get() returns (st: Status, b: Byte)
      requires Valid()
      modifies this
      ensures Valid() && st == if old(Left()) != [] then Done else Thrown
      ensures st.Done? ==> b == old(Left())[0] && Left() == old(Left())[1..]
    {
      if pos < |buf| {
        b := buf[pos];
        pos := pos + 1;
        return Done, b;
      }
      return Thrown, 0;
    }

    method Read(n: nat) returns (st: Status, d: seq<Byte>)
      requires Valid() && n < LIMIT
      modifies this
      ensures Valid() && Returns(st, d, Left(), ReadBytes(old(Left()), n))
    {
      if |buf| - pos < Signed32(n) {
        return Thrown, [];
      }
      if |buf| - pos < n {
        return Wild, [];
      }
      d := buf[pos..pos + n];
      assert d == Left()[..n] && buf[pos + n..] == Left()[n..];
      pos := pos + n;
      return Done, d;
    }

    /** The group loop: bits already read plus what the rest of the groups add. */
    method GetVarint() returns (st: Status, v: nat)
      requires Valid()
      modifies this
      ensures Valid() && Returns(st, v, Left(), UnpackVarint(old(Left()), 0)) && (st.Done? ==> v < LIMIT)
    {
      v := 0;
      var k, more := 0, true;
      ghost var goal := UnpackVarint(Left(), 0);
      if goal.Ok? {
        VarintBound(Left(), 0);
      }
      while more
        invariant Valid() && 0 <= k <= 5
        invariant more ==> goal == Plus(v, UnpackVarint(Left(), k))
        invariant !more ==> goal == Ok(v, Left())
        decreases more, 5 - k
      {
        ghost var left := Left();
        var b;
        st, b := Get();
        if !st.Done? {
          return Thrown, 0;
        }
        if k > 4 {
          return Wild, 0;
        }
        PlusGroup(v, left, k);
        v := v + b % 128 * Shift(k) % LIMIT;
        k := k + 1;
        more := b >= 128;
      }
      st := Done;
    }

    method UnpackCountedBytes() returns (st: Status, d: seq<Byte>)
      requires Valid()
      modifies this
      ensures Valid() && Returns(st, d, Left(), UnpackBytes(old(Left())))
    {
      var n;
      st, n := GetVarint();
      if !st.Done? {
        return st, [];
      }
      st, d := Read(n);
    }

    /** unpack: the value at the front, or the way in which there is none. */
    method UnpackValue(less: Order, t: Type) returns (st: Status, v: Value)
      requires Valid() && Widths(t)
      modifies this
      ensures Valid() && Returns(st, v, Left(), Unpack(less, t, old(Left())))
      decreases Size(t), 0
    {
      v := Absent;
      match t {
        case Varint =>
          var n;
          st, n := GetVarint();
          v := Number(n);
        case Fixed(w) =>
          var d;
          st, d := Read(w);
          v := Number(FromBytes(d));
        case Bool =>
          var b;
          st, b := Get();
          v := Flag(b != 0);
        case Bytes =>
          var d;
          st, d := UnpackCountedBytes();
          v := Blob(d);
        case Optional(u) =>
          var b;
          st, b := Get();
          if st.Done? && b != 0 {
            st, v := UnpackValue(less, u);
            v := Present(v);
          }
        case Container(u) =>
          var items;
          st, items := UnpackItems(less, u);
          v := List(items);
        case SetOf(u) =>
          var items;
          st, items := UnpackItems(less, u);
          items := InsertAll(less, items);
          v := List(items);
        case PairOf(a, b) =>
          st, v := UnpackPair(less, a, b);
        case MapOf(a, b) =>
          var items;
          st, items := UnpackItems(less, PairOf(a, b));
          items := AssignAll(less, items);
          v := List(items);
      }
    }

    method UnpackPair(less: Order, a: Type, b: Type) returns (st: Status, v: Value)
      requires Valid() && Widths(a) && Widths(b)
      modifies this
      ensures Valid() && Returns(st, v, Left(), Unpack(less, PairOf(a, b), old(Left())))
      decreases Size(a) + Size(b), 3
    {
      v := Absent;
      var x, y;
      st, x := UnpackValue(less, a);
      if st.Done? {
        st, y := UnpackValue(less, b);
        v := Pair(x, y);
      }
    }

    method UnpackItems(less: Order, u: Type) returns (st: Status, items: seq<Value>)
      requires Valid() && Widths(u)
      modifies this
      ensures Valid() && Returns(st, items, Left(), UnpackCounted(less, u, old(Left())))
      decreases Size(u), 2
    {
      var n;
      st, n := GetVarint();
      if !st.Done? {
        return st, [];
      }
      items := [];
      ghost var goal := UnpackMany(less, u, n, Left());
      var i := 0;
      PrependNone(goal);
      while i < n
        invariant 0 <= i <= n && Valid()
        invariant goal == Prepend(items, UnpackMany(less, u, n - i, Left()))
      {
        ManyStep(less, u, n - i, Left(), items);
        var x;
        st, x := UnpackValue(less, u);
        if !st.Done? {
          return st, [];
        }
        items := items + [x];
        i := i + 1;
      }
      assert items + [] == items;
      st := Done;
    }
  }

  // the size of a type in memory is a 32-bit number
  predicate Widths(t: Type) {
    match t
    case Fixed(w) => w < LIMIT
    case Optional(u) => Widths(u)
    case Container(u) => Widths(u)
    case SetOf(u) => Widths(u)
    case PairOf(a, b) => Widths(a) && Widths(b)
    case MapOf(a, b) => Widths(a) && Widths(b)
    case _ => true
  }

  /** The method's result is the specification's. */
  ghost predicate Returns<T(!new)>(st: Status, v: T, left: seq<Byte>, r: Result<T>) {
    match st
    case Done => r == Ok(v, left)
    case Thrown => r.Err?
    case Wild => r.Undefined?
  }

  function Plus(v: nat, r: Result<nat>): Result<nat> {
    if r.Ok? then Ok(v + r.value, r.rest) else r
  }

  lemma PlusGroup(v: nat, s: seq<Byte>, k: nat)
    requires s != [] && k <= 4
    ensures var part := s[0] % 128 * Shift(k) % LIMIT;
            Plus(v, UnpackVarint(s, k)) ==
              if s[0] < 128 then Ok(v + part, s[1..]) else Plus(v + part, UnpackVarint(s[1..], k + 1))
  {
  }

  function Prepend(items: seq<Value>, r: Result<seq<Value>>): Result<seq<Value>> {
    if r.Ok? then Ok(items + r.value, r.rest) else r
  }

  lemma PrependNone(r: Result<seq<Value>>)
    ensures Prepend([], r) == r
  {
    if r.Ok? {
      assert [] + r.value == r.value;
    }
  }

  lemma ManyStep(less: Order, u: Type, n: nat, s: seq<Byte>, items: seq<Value>)
    requires n > 0
    ensures var x := Unpack(less, u, s);
            Prepend(items, UnpackMany(less, u, n, s)) ==
              if !x.Ok? then Failed(x) else Prepend(items + [x.value], UnpackMany(less, u, n - 1, x.rest))
  {
    var x := Unpack(less, u, s);
    if x.Ok? {
      var more := UnpackMany(less, u, n - 1, x.rest);
      if more.Ok? {
        assert items + ([x.value] + more.value) == items + [x.value] + more.value;
      }
    }
  }

  method InsertAll(less: Order, items: seq<Value>) returns (held: seq<Value>)
    ensures held == Inserted(less, [], items)
  {
    held := [];
    var i := 0;
    assert items[0..] == items;
    while i < |items|
      invariant 0 <= i <= |items| && Inserted(less, held, items[i..]) == Inserted(less, [], items)
    {
      assert items[i..][1..] == items[i + 1..];
      held := Insert(less, held, items[i]);
      i := i + 1;
    }
  }

  method AssignAll(less: Order, items: seq<Value>) returns (held: seq<Value>)
    ensures held == Assigned(less, [], items)
  {
    held := [];
    var i := 0;
    assert items[0..] == items;
    while i < |items|
      invariant 0 <= i <= |items| && Assigned(less, held, items[i..]) == Assigned(less, [], items)
    {
      assert items[i..][1..] == items[i + 1..];
      held := Assign(less, held, items[i]);
      i := i + 1;
    }
  }

  // ------------------------------------------------------------ two passes

  /** pack_vec: the dry run sizes the buffer and the second pass fills it to the last byte, for
      every value whose packed form is shorter than 2^32 bytes.  From there on the size has
      wrapped around: the second pass cannot succeed, unless the size has become 0 and there is
      none. */
  method PackVec(less: Order, t: Type, v: Value) returns (st: Status, s: array<Byte>)
    requires Fits(less, t, v)
    ensures fresh(s) && s.Length == |Pack(less, t, v)| % LIMIT
    ensures |Pack(less, t, v)| < LIMIT ==> st.Done? && s[..] == Pack(less, t, v)
    ensures |Pack(less, t, v)| >= LIMIT ==> (st.Done? <==> s.Length == 0)
  {
    var ps := new SizeStream();
    ps.PackValue(less, t, v);
    s := new Byte[ps.size](_ => 0);
    if s.Length > 0 {
      var ds := new OutStream(s);
      st := ds.PackValue(less, t, v);
    } else {
      st := Done;
    }
  }

  /** unpack_vec: an empty buffer leaves the target as it was. */
  method UnpackVec(less: Order, t: Type, s: seq<Byte>, v0: Value) returns (st: Status, v: Value)
    requires Widths(t)
    ensures s == [] ==> st.Done? && v == v0
    ensures s != [] ==> match Unpack(less, t, s)
                        case Ok(x, _) => st.Done? && v == x
                        case Err => st.Thrown?
                        case Undefined => st.Wild?
  {
    if |s| == 0 {
      return Done, v0;
    }
    var ds := new InStream(s);
    st, v := ds.UnpackValue(less, t);
  }

  /** What pack_vec wrote, unpack_vec reads, using all of it. */
  lemma VecRoundTrip(less: Order, t: Type, v: Value)
    requires Fits(less, t, v)
    ensures Unpack(less, t, Pack(less, t, v)) == Ok(v, [])
  {
    RoundTrip(less, t, v, []);
    assert Pack(less, t, v) + [] == Pack(less, t, v);
  }

  lemma VarintSplit(w: seq<Byte>, val: nat)
    ensures val < 128 ==> w + PackVarint(val) == w + [val]
    ensures val >= 128 ==> w + PackVarint(val) == w + [val % 128 + 128] + PackVarint(val / 128)
  {
    if val >= 128 {
      Regroup(w, [val % 128 + 128], PackVarint(val / 128));
    }
  }
}
