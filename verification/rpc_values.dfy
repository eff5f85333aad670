/** The RPC wire form of nested values. */
module RpcValues {
  import opened Common

  type Byte = b: nat | b < 256

  datatype Type =
    | Varint
    | Fixed(width: nat)
    | Bool
    | Bytes
    | Optional(inner: Type)
    | Container(inner: Type)
    | SetOf(inner: Type)
    | PairOf(left: Type, right: Type)
    | MapOf(left: Type, right: Type)

  /** Sets and maps are listed in iteration order, maps as pairs. */
  datatype Value =
    | Number(n: nat)
    | Flag(b: bool)
    | Blob(bytes: seq<Byte>)
    | Absent
    | Present(v: Value)
    | List(items: seq<Value>)
    | Pair(first: Value, second: Value)

  // the order that sets and maps keep their keys in
  type Order = (Value, Value) -> bool

  const LIMIT: nat := 0x1_0000_0000
  const HALF: nat := 0x8000_0000

  function Pow256(w: nat): nat {
    if w == 0 then 1 else 256 * Pow256(w - 1)
  }

  predicate Ascending(less: Order, keys: seq<Value>) {
    forall i, j :: 0 <= i < j < |keys| ==> less(keys[i], keys[j])
  }

  function Keys(items: seq<Value>): seq<Value>
    requires AllPairs(items)
  {
    seq(|items|, i requires 0 <= i < |items| => items[i].first)
  }

  predicate AllPairs(items: seq<Value>) {
    forall i :: 0 <= i < |items| ==> items[i].Pair?
  }

  function Size(t: Type): nat {
    match t
    case Optional(u) => 1 + Size(u)
    case Container(u) => 1 + Size(u)
    case SetOf(u) => 1 + Size(u)
    case PairOf(a, b) => 1 + Size(a) + Size(b)
    case MapOf(a, b) => 2 + Size(a) + Size(b)
    case _ => 1
  }

  /** The value is one of the type. */
  predicate Fits(less: Order, t: Type, v: Value)
    decreases Size(t), 0
  {
    match t
    case Varint => v.Number? && v.n < LIMIT
    case Fixed(w) => w < LIMIT && v.Number? && v.n < Pow256(w)
    case Bool => v.Flag?
    case Bytes => v.Blob? && |v.bytes| < LIMIT
    case Optional(u) => v.Absent? || (v.Present? && Fits(less, u, v.v))
    case Container(u) => v.List? && |v.items| < LIMIT && AllFit(less, u, v.items)
    case SetOf(u) => v.List? && |v.items| < LIMIT && AllFit(less, u, v.items) && Ascending(less, v.items)
    case PairOf(a, b) => v.Pair? && Fits(less, a, v.first) && Fits(less, b, v.second)
    case MapOf(a, b) =>
      && v.List? && |v.items| < LIMIT && AllFit(less, PairOf(a, b), v.items)
      && AllPairs(v.items) && Ascending(less, Keys(v.items))
  }

  predicate AllFit(less: Order, u: Type, items: seq<Value>)
    decreases Size(u), 1
  {
    forall i :: 0 <= i < |items| ==> Fits(less, u, items[i])
  }

  // ------------------------------------------------------------ packing

  /** Seven bits a byte, the lowest first; the top bit says that more follow. */
  function PackVarint(n: nat): (s: seq<Byte>)
    ensures |s| >= 1
  {
    if n < 128 then [n] else [n % 128 + 128] + PackVarint(n / 128)
  }

  // the bytes of an integer in memory, the lowest first
  function PackFixed(n: nat, w: nat): (s: seq<Byte>)
    ensures |s| == w
  {
    if w == 0 then [] else [n % 256] + PackFixed(n / 256, w - 1)
  }

  function Pack(less: Order, t: Type, v: Value): seq<Byte>
    requires Fits(less, t, v)
    decreases Size(t), 0, 0
  {
    match t
    case Varint => PackVarint(v.n)
    case Fixed(w) => PackFixed(v.n, w)
    case Bool => [if v.b then 1 else 0]
    case Bytes => PackVarint(|v.bytes|) + v.bytes
    case Optional(u) => if v.Absent? then [0] else [1] + Pack(less, u, v.v)
    case Container(u) => PackVarint(|v.items|) + PackAll(less, u, v.items)
    case SetOf(u) => PackVarint(|v.items|) + PackAll(less, u, v.items)
    case PairOf(a, b) => Pack(less, a, v.first) + Pack(less, b, v.second)
    case MapOf(a, b) => PackVarint(|v.items|) + PackAll(less, PairOf(a, b), v.items)
  }

  function PackAll(less: Order, u: Type, items: seq<Value>): seq<Byte>
    requires AllFit(less, u, items)
    decreases Size(u), 1, |items|
  {
    if items == [] then [] else Pack(less, u, items[0]) + PackAll(less, u, items[1..])
  }

  // ------------------------------------------------------------ unpacking

  /** A value and what follows it, an exception, or bytes on which the source's behaviour is
      undefined. */
  datatype Result<T> = Ok(value: T, rest: seq<Byte>) | Err | Undefined

  function Failed<S, T>(r: Result<S>): Result<T>
    requires !r.Ok?
  {
    if r.Err? then Err else Undefined
  }

  // what the k-th group of seven bits counts for
  function Shift(k: nat): nat {
    match k case 0 => 1 case 1 => 128 case 2 => 16384 case 3 => 2097152 case _ => 268435456
  }

  /** Group k onwards.  The groups are added up in 32 bits; a sixth group would be shifted by
      more than the width of a word. */
  function UnpackVarint(s: seq<Byte>, k: nat): Result<nat>
    decreases |s|
  {
    if s == [] then Err else if k > 4 then Undefined else
      var part := s[0] % 128 * Shift(k) % LIMIT;
      if s[0] < 128 then Ok(part, s[1..]) else
        var more := UnpackVarint(s[1..], k + 1);
        if more.Ok? then Ok(part + more.value, more.rest) else Failed(more)
  }

  /** Reading n bytes.  The length is compared as a signed 32-bit number, so that a length of
      2^31 or more passes the check of a buffer that does not have as many. */
  function ReadBytes(s: seq<Byte>, n: nat): Result<seq<Byte>> {
    if n <= |s| then Ok(s[..n], s[n..]) else if n < HALF then Err else Undefined
  }

  function FromBytes(d: seq<Byte>): nat {
    if d == [] then 0 else d[0] + 256 * FromBytes(d[1..])
  }

  function UnpackFixed(s: seq<Byte>, w: nat): Result<nat> {
    var d := ReadBytes(s, w);
    if d.Ok? then Ok(FromBytes(d.value), d.rest) else Failed(d)
  }

  function UnpackBytes(s: seq<Byte>): Result<seq<Byte>> {
    var n := UnpackVarint(s, 0);
    if n.Ok? then ReadBytes(n.rest, n.value) else Failed(n)
  }

  function Unpack(less: Order, t: Type, s: seq<Byte>): Result<Value>
    decreases Size(t), 0
  {
    match t
    case Varint => var r := UnpackVarint(s, 0); if r.Ok? then Ok(Number(r.value), r.rest) else Failed(r)
    case Fixed(w) => var r := UnpackFixed(s, w); if r.Ok? then Ok(Number(r.value), r.rest) else Failed(r)
    case Bool => if s == [] then Err else Ok(Flag(s[0] != 0), s[1..])
    case Bytes => var r := UnpackBytes(s); if r.Ok? then Ok(Blob(r.value), r.rest) else Failed(r)
    case Optional(u) =>
      if s == [] then Err else if s[0] == 0 then Ok(Absent, s[1..]) else
        var r := Unpack(less, u, s[1..]);
        if r.Ok? then Ok(Present(r.value), r.rest) else Failed(r)
    case Container(u) =>
      var r := UnpackCounted(less, u, s);
      if r.Ok? then Ok(List(r.value), r.rest) else Failed(r)
    case SetOf(u) =>
      var r := UnpackCounted(less, u, s);
      if r.Ok? then Ok(List(Inserted(less, [], r.value)), r.rest) else Failed(r)
    case PairOf(a, b) =>
      var x := Unpack(less, a, s);
      if !x.Ok? then Failed(x) else
        var y := Unpack(less, b, x.rest);
        if y.Ok? then Ok(Pair(x.value, y.value), y.rest) else Failed(y)
    case MapOf(a, b) =>
      var r := UnpackCounted(less, PairOf(a, b), s);
      if r.Ok? then Ok(List(Assigned(less, [], r.value)), r.rest) else Failed(r)
  }

  function UnpackCounted(less: Order, u: Type, s: seq<Byte>): Result<seq<Value>>
    decreases Size(u), 2
  {
    var n := UnpackVarint(s, 0);
    if n.Ok? then UnpackMany(less, u, n.value, n.rest) else Failed(n)
  }

  function UnpackMany(less: Order, u: Type, n: nat, s: seq<Byte>): Result<seq<Value>>
    decreases Size(u), 1, n
  {
    if n == 0 then Ok([], s) else
      var x := Unpack(less, u, s);
      if !x.Ok? then Failed(x) else
        var more := UnpackMany(less, u, n - 1, x.rest);
        if more.Ok? then Ok([x.value] + more.value, more.rest) else Failed(more)
  }

  /** std::set::insert: before the first element that is not less, unless it is there. */
  function Insert(less: Order, held: seq<Value>, v: Value): seq<Value> {
    if held == [] then [v]
    else if less(held[0], v) then [held[0]] + Insert(less, held[1..], v)
    else if less(v, held[0]) then [v] + held
    else held
  }

  function Inserted(less: Order, held: seq<Value>, items: seq<Value>): seq<Value>
    decreases |items|
  {
    if items == [] then held else Inserted(less, Insert(less, held, items[0]), items[1..])
  }

  // assignment to value[k], for the pair (k, value)
  function Assign(less: Order, held: seq<Value>, p: Value): seq<Value> {
    if held == [] then [p]
    else if held[0].Pair? && p.Pair? && less(held[0].first, p.first) then [held[0]] + Assign(less, held[1..], p)
    else if held[0].Pair? && p.Pair? && less(p.first, held[0].first) then [p] + held
    else [p] + held[1..]
  }

  function Assigned(less: Order, held: seq<Value>, items: seq<Value>): seq<Value>
    decreases |items|
  {
    if items == [] then held else Assigned(less, Assign(less, held, items[0]), items[1..])
  }

  // ------------------------------------------------------------ round trip

  lemma GroupSplit(n: nat, k: nat)
    requires k <= 4 && 128 <= n && n * Shift(k) < LIMIT
    ensures k < 4 && n / 128 * Shift(k + 1) < LIMIT
    ensures n * Shift(k) == n % 128 * Shift(k) + n / 128 * Shift(k + 1)
    ensures n % 128 * Shift(k) < LIMIT
  {
  }

  lemma UnpackGroup(low: nat, k: nat, s: seq<Byte>, more: nat, rest: seq<Byte>)
    requires low < 128 && k <= 4 && low * Shift(k) < LIMIT
    ensures UnpackVarint([low] + s, k) == Ok(low * Shift(k), s)
    ensures UnpackVarint(s, k + 1) == Ok(more, rest) ==>
              UnpackVarint([low + 128] + s, k) == Ok(low * Shift(k) + more, rest)
  {
    assert ([low] + s)[1..] == s && ([low + 128] + s)[1..] == s;
  }

  lemma {:induction false} VarintRoundTrip(n: nat, k: nat, suffix: seq<Byte>)
    requires k <= 4 && n * Shift(k) < LIMIT
    ensures UnpackVarint(PackVarint(n) + suffix, k) == Ok(n * Shift(k), suffix)
    decreases n
  {
    if n < 128 {
      UnpackGroup(n, k, suffix, 0, suffix);
    } else {
      GroupSplit(n, k);
      VarintRoundTrip(n / 128, k + 1, suffix);
      UnpackGroup(n % 128, k, PackVarint(n / 128) + suffix, n / 128 * Shift(k + 1), suffix);
      Regroup([n % 128 + 128], PackVarint(n / 128), suffix);
    }
  }

  lemma GroupBound(low: nat, k: nat)
    requires low < 128 && k <= 4
    ensures low * Shift(k) % LIMIT <= if k < 4 then Shift(k + 1) - Shift(k) else LIMIT - Shift(k)
  {
  }

  /** A varint that reads at all fits in 32 bits. */
  lemma {:induction false} VarintBound(s: seq<Byte>, k: nat)
    requires k <= 4 && UnpackVarint(s, k).Ok?
    ensures UnpackVarint(s, k).value <= LIMIT - Shift(k)
    decreases |s|
  {
    GroupBound(s[0] % 128, k);
    if s[0] >= 128 && k < 4 {
      VarintBound(s[1..], k + 1);
    }
  }

  lemma {:induction false} FixedBytes(n: nat, w: nat)
    requires n < Pow256(w)
    ensures FromBytes(PackFixed(n, w)) == n
    decreases w
  {
    if w > 0 {
      FixedBytes(n / 256, w - 1);
      assert PackFixed(n, w)[1..] == PackFixed(n / 256, w - 1);
    }
  }

  lemma FixedRoundTrip(n: nat, w: nat, suffix: seq<Byte>)
    requires n < Pow256(w)
    ensures UnpackFixed(PackFixed(n, w) + suffix, w) == Ok(n, suffix)
  {
    FixedBytes(n, w);
  }

  lemma {:induction false} InsertLast(less: Order, held: seq<Value>, v: Value)
    requires forall i :: 0 <= i < |held| ==> less(held[i], v)
    ensures Insert(less, held, v) == held + [v]
  {
    if held != [] {
      InsertLast(less, held[1..], v);
      assert held == [held[0]] + held[1..];
    }
  }

  lemma {:induction false} InsertAscending(less: Order, held: seq<Value>, items: seq<Value>)
    requires Ascending(less, held + items)
    ensures Inserted(less, held, items) == held + items
    decreases |items|
  {
    if items != [] {
      var all := held + items;
      forall i | 0 <= i < |held|
        ensures less(held[i], items[0])
      {
        assert all[i] == held[i] && all[|held|] == items[0];
      }
      InsertLast(less, held, items[0]);
      assert (held + [items[0]]) + items[1..] == all;
      InsertAscending(less, held + [items[0]], items[1..]);
    }
  }

  lemma {:induction false} AssignLast(less: Order, held: seq<Value>, p: Value)
    requires AllPairs(held) && p.Pair? && forall i :: 0 <= i < |held| ==> less(held[i].first, p.first)
    ensures Assign(less, held, p) == held + [p]
  {
    if held != [] {
      AssignLast(less, held[1..], p);
      assert held == [held[0]] + held[1..];
    }
  }

  lemma {:induction false} AssignAscending(less: Order, held: seq<Value>, items: seq<Value>)
    requires AllPairs(held + items) && Ascending(less, Keys(held + items))
    ensures Assigned(less, held, items) == held + items
    decreases |items|
  {
    if items != [] {
      var all := held + items;
      assert all[|held|] == items[0];
      forall i | 0 <= i < |held|
        ensures held[i].Pair? && less(held[i].first, items[0].first)
      {
        assert all[i] == held[i];
        assert Keys(all)[i] == held[i].first && Keys(all)[|held|] == items[0].first;
      }
      AssignLast(less, held, items[0]);
      assert (held + [items[0]]) + items[1..] == all;
      AssignAscending(less, held + [items[0]], items[1..]);
    }
  }

  /** Unpacking what was packed, followed by anything, gives the value back and leaves that. */
  lemma {:induction false} RoundTrip(less: Order, t: Type, v: Value, suffix: seq<Byte>)
    requires Fits(less, t, v)
    ensures Unpack(less, t, Pack(less, t, v) + suffix) == Ok(v, suffix)
    decreases Size(t), 0, 0
  {
    match t {
      case Varint => VarintRoundTrip(v.n, 0, suffix);
      case Fixed(w) => FixedRoundTrip(v.n, w, suffix);
      case Bool => assert (Pack(less, t, v) + suffix)[1..] == suffix;
      case Bytes => BytesRoundTrip(v.bytes, suffix);
      case Optional(u) =>
        var s := Pack(less, t, v) + suffix;
        if v.Present? {
          RoundTrip(less, u, v.v, suffix);
          assert s[1..] == Pack(less, u, v.v) + suffix;
        } else {
          assert s[1..] == suffix;
        }
      case Container(u) => CountedRoundTrip(less, u, v.items, suffix);
      case SetOf(u) =>
        CountedRoundTrip(less, u, v.items, suffix);
        assert [] + v.items == v.items;
        InsertAscending(less, [], v.items);
      case PairOf(a, b) =>
        var x, y := Pack(less, a, v.first), Pack(less, b, v.second);
        Regroup(x, y, suffix);
        RoundTrip(less, a, v.first, y + suffix);
        RoundTrip(less, b, v.second, suffix);
      case MapOf(a, b) =>
        CountedRoundTrip(less, PairOf(a, b), v.items, suffix);
        assert [] + v.items == v.items;
        AssignAscending(less, [], v.items);
    }
  }

  lemma BytesRoundTrip(bytes: seq<Byte>, suffix: seq<Byte>)
    requires |bytes| < LIMIT
    ensures UnpackBytes(PackVarint(|bytes|) + bytes + suffix) == Ok(bytes, suffix)
  {
    Regroup(PackVarint(|bytes|), bytes, suffix);
    VarintRoundTrip(|bytes|, 0, bytes + suffix);
  }

  lemma {:induction false} CountedRoundTrip(less: Order, u: Type, items: seq<Value>, suffix: seq<Byte>)
    requires AllFit(less, u, items) && |items| < LIMIT
    ensures UnpackCounted(less, u, PackVarint(|items|) + PackAll(less, u, items) + suffix) == Ok(items, suffix)
    decreases Size(u), 2, 0
  {
    var packed := PackAll(less, u, items);
    Regroup(PackVarint(|items|), packed, suffix);
    VarintRoundTrip(|items|, 0, packed + suffix);
    ManyRoundTrip(less, u, items, suffix);
  }

  lemma {:induction false} ManyRoundTrip(less: Order, u: Type, items: seq<Value>, suffix: seq<Byte>)
    requires AllFit(less, u, items)
    ensures UnpackMany(less, u, |items|, PackAll(less, u, items) + suffix) == Ok(items, suffix)
    decreases Size(u), 1, |items|
  {
    if items != [] {
      var x, rest := Pack(less, u, items[0]), PackAll(less, u, items[1..]);
      Regroup(x, rest, suffix);
      RoundTrip(less, u, items[0], rest + suffix);
      ManyRoundTrip(less, u, items[1..], suffix);
      assert [items[0]] + items[1..] == items;
    } else {
      assert PackAll(less, u, items) + suffix == suffix;
    }
  }

  // ------------------------------------------------------------ what the bytes mean

  // seven bits a byte, the lowest first
  function Groups(s: seq<Byte>): nat {
    if s == [] then 0 else s[0] % 128 + 128 * Groups(s[1..])
  }

  /** A varint is its groups of seven bits, lowest first; every byte but the last has the top bit
      set, and the last group is not an idle zero. */
  lemma {:induction false} VarintMeaning(n: nat)
    ensures
      var s := PackVarint(n);
      && Groups(s) == n && s[|s| - 1] < 128 && (forall i :: 0 <= i < |s| - 1 ==> s[i] >= 128)
      && (|s| > 1 ==> s[|s| - 1] != 0)
  {
    if n >= 128 {
      VarintMeaning(n / 128);
      var s, tail := PackVarint(n), PackVarint(n / 128);
      assert s[1..] == tail && s[|s| - 1] == tail[|tail| - 1];
      forall i | 0 <= i < |s| - 1
        ensures s[i] >= 128
      {
        assert i > 0 ==> s[i] == tail[i - 1];
      }
    } else {
      assert PackVarint(n)[1..] == [];
    }
  }

  // n without its i lowest bytes
  function DropBytes(n: nat, i: nat): nat {
    if i == 0 then n else DropBytes(n / 256, i - 1)
  }

  /** Byte i of a fixed-width integer is its i-th lowest. */
  lemma {:induction false} FixedByteAt(n: nat, w: nat, i: nat)
    requires i < w
    ensures PackFixed(n, w)[i] == DropBytes(n, i) % 256
    decreases w
  {
    if i > 0 {
      FixedByteAt(n / 256, w - 1, i - 1);
    }
  }

  /** The bytes of a small example: two entries of a map from text to an optional 16-bit number,
      and the number 300. */
  lemma PackedExample(less: Order)
    requires less(Blob([97]), Blob([98]))
    ensures
      var t := MapOf(Bytes, Optional(Fixed(2)));
      var v := List([Pair(Blob([97]), Present(Number(0x1234))), Pair(Blob([98]), Absent)]);
      Fits(less, t, v) && Pack(less, t, v) == [2, 1, 97, 1, 0x34, 0x12, 1, 98, 0]
    ensures Pack(less, PairOf(Varint, Bool), Pair(Number(300), Flag(true))) == [172, 2, 1]
  {
    PackedEntries(less);
    var items := [Pair(Blob([97]), Present(Number(0x1234))), Pair(Blob([98]), Absent)];
    assert Keys(items) == [Blob([97]), Blob([98])];
    assert PackVarint(2) == [2];
    assert PackVarint(300) == [172, 2];
  }

  lemma PackedEntries(less: Order)
    ensures
      var pair := PairOf(Bytes, Optional(Fixed(2)));
      var items := [Pair(Blob([97]), Present(Number(0x1234))), Pair(Blob([98]), Absent)];
      AllFit(less, pair, items) && PackAll(less, pair, items) == [1, 97, 1, 0x34, 0x12, 1, 98, 0]
  {
    var one, two := Pair(Blob([97]), Present(Number(0x1234))), Pair(Blob([98]), Absent);
    var pair, items := PairOf(Bytes, Optional(Fixed(2))), [one, two];
    PackedEntry(less);
    assert items[1..] == [two] && items[1..][1..] == [];
    assert PackAll(less, pair, items[1..]) == Pack(less, pair, two) + [];
  }

  lemma PackedEntry(less: Order)
    ensures
      var pair := PairOf(Bytes, Optional(Fixed(2)));
      var one, two := Pair(Blob([97]), Present(Number(0x1234))), Pair(Blob([98]), Absent);
      && Fits(less, pair, one) && Pack(less, pair, one) == [1, 97, 1, 0x34, 0x12]
      && Fits(less, pair, two) && Pack(less, pair, two) == [1, 98, 0]
  {
    assert Pow256(2) == 256 * (256 * Pow256(0));
    assert PackFixed(0x1234, 2) == [0x34] + PackFixed(0x12, 1) && PackFixed(0x12, 1) == [0x12] + PackFixed(0, 0);
    assert Pack(less, Optional(Fixed(2)), Present(Number(0x1234))) == [1] + PackFixed(0x1234, 2);
    assert Pack(less, Bytes, Blob([97])) == [1] + [97] && Pack(less, Bytes, Blob([98])) == [1] + [98];
  }

  // ------------------------------------------------------------ other bytes

  /** Bytes that do not come from packing: any byte but zero is true, or says that a value
      follows. */
  lemma AnyFlagCounts(less: Order, u: Type, v: Value, flag: Byte, suffix: seq<Byte>)
    requires Fits(less, u, v) && flag != 0
    ensures Unpack(less, Bool, [flag] + suffix) == Ok(Flag(true), suffix)
    ensures Unpack(less, Optional(u), [flag] + Pack(less, u, v) + suffix) == Ok(Present(v), suffix)
  {
    var s := [flag] + Pack(less, u, v) + suffix;
    assert ([flag] + suffix)[1..] == suffix && s[1..] == Pack(less, u, v) + suffix;
    RoundTrip(less, u, v, suffix);
  }

  /** Of a length and the bytes that are there: enough of them are taken; too few are an exception
      below 2^31, and read past the end from there on. */
  lemma LengthDecides(less: Order, n: nat, s: seq<Byte>)
    requires n < 0x1_0000_0000
    ensures
      Unpack(less, Bytes, PackVarint(n) + s) ==
        if n <= |s| then Ok(Blob(s[..n]), s[n..]) else if n < 0x8000_0000 then Err else Undefined
  {
    VarintRoundTrip(n, 0, s);
  }

  lemma {:induction false} VarintExtends(s: seq<Byte>, k: nat, x: seq<Byte>)
    requires UnpackVarint(s, k).Ok?
    ensures UnpackVarint(s + x, k) == Ok(UnpackVarint(s, k).value, UnpackVarint(s, k).rest + x)
    decreases |s|
  {
    assert (s + x)[1..] == s[1..] + x;
    if s[0] >= 128 {
      VarintExtends(s[1..], k + 1, x);
    }
  }

  lemma ReadExtends(s: seq<Byte>, n: nat, x: seq<Byte>)
    requires ReadBytes(s, n).Ok?
    ensures ReadBytes(s + x, n) == Ok(ReadBytes(s, n).value, ReadBytes(s, n).rest + x)
  {
    assert (s + x)[..n] == s[..n] && (s + x)[n..] == s[n..] + x;
  }

  /** What reads as a value reads as the same value when more bytes follow. */
  lemma {:induction false} UnpackExtends(less: Order, t: Type, s: seq<Byte>, x: seq<Byte>)
    requires Unpack(less, t, s).Ok?
    ensures Unpack(less, t, s + x) == Ok(Unpack(less, t, s).value, Unpack(less, t, s).rest + x)
    decreases Size(t), 0
  {
    match t {
      case Varint => VarintExtends(s, 0, x);
      case Fixed(w) => ReadExtends(s, w, x);
      case Bool => assert (s + x)[1..] == s[1..] + x;
      case Bytes =>
        VarintExtends(s, 0, x);
        var n := UnpackVarint(s, 0);
        ReadExtends(n.rest, n.value, x);
      case Optional(u) =>
        assert (s + x)[1..] == s[1..] + x;
        if s[0] != 0 {
          UnpackExtends(less, u, s[1..], x);
        }
      case Container(u) => CountedExtends(less, u, s, x);
      case SetOf(u) => CountedExtends(less, u, s, x);
      case PairOf(a, b) =>
        UnpackExtends(less, a, s, x);
        UnpackExtends(less, b, Unpack(less, a, s).rest, x);
      case MapOf(a, b) => CountedExtends(less, PairOf(a, b), s, x);
    }
  }

  lemma {:induction false} CountedExtends(less: Order, u: Type, s: seq<Byte>, x: seq<Byte>)
    requires UnpackCounted(less, u, s).Ok?
    ensures UnpackCounted(less, u, s + x) == Ok(UnpackCounted(less, u, s).value, UnpackCounted(less, u, s).rest + x)
    decreases Size(u), 2
  {
    VarintExtends(s, 0, x);
    var n := UnpackVarint(s, 0);
    ManyExtends(less, u, n.value, n.rest, x);
  }

  lemma {:induction false} ManyExtends(less: Order, u: Type, n: nat, s: seq<Byte>, x: seq<Byte>)
    requires UnpackMany(less, u, n, s).Ok?
    ensures UnpackMany(less, u, n, s + x) == Ok(UnpackMany(less, u, n, s).value, UnpackMany(less, u, n, s).rest + x)
    decreases Size(u), 1, n
  {
    if n > 0 {
      UnpackExtends(less, u, s, x);
      ManyExtends(less, u, n - 1, Unpack(less, u, s).rest, x);
    }
  }

  /** Nothing that was packed reads as a value when its end is missing. */
  lemma TruncatedNeverReads(less: Order, t: Type, v: Value, k: nat)
    requires Fits(less, t, v) && k < |Pack(less, t, v)|
    ensures !Unpack(less, t, Pack(less, t, v)[..k]).Ok?
  {
    var p := Pack(less, t, v);
    if Unpack(less, t, p[..k]).Ok? {
      UnpackExtends(less, t, p[..k], p[k..]);
      assert p[..k] + p[k..] == p && p + [] == p;
      RoundTrip(less, t, v, []);
    }
  }

  /** Two values of a type never share their packed form, nor the start of it. */
  lemma PackedFormsAreApart(less: Order, t: Type, v: Value, w: Value)
    requires Fits(less, t, v) && Fits(less, t, w) && Pack(less, t, v) <= Pack(less, t, w)
    ensures v == w
  {
    var p, q := Pack(less, t, v), Pack(less, t, w);
    RoundTrip(less, t, v, q[|p|..]);
    RoundTrip(less, t, w, []);
    assert p + q[|p|..] == q && q + [] == q;
  }

  // ------------------------------------------------------------ sets and maps from any input

  ghost predicate Strict(less: Order) {
    && (forall a :: !less(a, a))
    && (forall a, b, c :: less(a, b) && less(b, c) ==> less(a, c))
    && (forall a, b :: !less(a, b) && !less(b, a) ==> a == b)
  }

  predicate AllAbove(less: Order, a: Value, held: seq<Value>) {
    forall i :: 0 <= i < |held| ==> less(a, held[i])
  }

  lemma AscendingCons(less: Order, a: Value, held: seq<Value>)
    ensures Ascending(less, [a] + held) <==> AllAbove(less, a, held) && Ascending(less, held)
  {
    var all := [a] + held;
    assert all[0] == a && forall i :: 0 <= i < |held| ==> all[i + 1] == held[i];
    if Ascending(less, all) {
      forall i | 0 <= i < |held|
        ensures less(a, held[i])
      {
        assert less(all[0], all[i + 1]);
      }
      forall i, j | 0 <= i < j < |held|
        ensures less(held[i], held[j])
      {
        assert less(all[i + 1], all[j + 1]);
      }
    }
  }

  lemma {:induction false} InsertMembers(less: Order, held: seq<Value>, v: Value, x: Value)
    requires Strict(less)
    ensures x in Insert(less, held, v) <==> x in held || x == v
  {
    if held != [] && less(held[0], v) {
      InsertMembers(less, held[1..], v, x);
      assert held == [held[0]] + held[1..];
    }
  }

  lemma InsertAbove(less: Order, a: Value, held: seq<Value>, v: Value)
    requires Strict(less) && AllAbove(less, a, held) && less(a, v)
    ensures AllAbove(less, a, Insert(less, held, v))
  {
    var s := Insert(less, held, v);
    forall i | 0 <= i < |s|
      ensures less(a, s[i])
    {
      InsertMembers(less, held, v, s[i]);
      assert s[i] in s;
    }
  }

  /** Inserting into a set in ascending order gives the set with the element, in order. */
  lemma {:induction false} InsertKeepsOrder(less: Order, held: seq<Value>, v: Value)
    requires Strict(less) && Ascending(less, held)
    ensures Ascending(less, Insert(less, held, v))
  {
    if held != [] {
      var h, tail := held[0], held[1..];
      assert held == [h] + tail;
      AscendingCons(less, h, tail);
      if less(h, v) {
        InsertKeepsOrder(less, tail, v);
        InsertAbove(less, h, tail, v);
        AscendingCons(less, h, Insert(less, tail, v));
      } else if less(v, h) {
        AscendingCons(less, v, held);
      }
    }
  }

  /** Whatever the order and the repetitions of the input, a set unpacks to its distinct elements
      in ascending order. */
  lemma {:induction false} InsertedIsSet(less: Order, held: seq<Value>, items: seq<Value>, x: Value)
    requires Strict(less) && Ascending(less, held)
    ensures Ascending(less, Inserted(less, held, items))
    ensures x in Inserted(less, held, items) <==> x in held || x in items
    decreases |items|
  {
    if items != [] {
      InsertKeepsOrder(less, held, items[0]);
      InsertMembers(less, held, items[0], x);
      InsertedIsSet(less, Insert(less, held, items[0]), items[1..], x);
      assert items == [items[0]] + items[1..];
    }
  }

  lemma KeysCons(p: Value, tail: seq<Value>)
    requires p.Pair? && AllPairs(tail)
    ensures AllPairs([p] + tail) && Keys([p] + tail) == [p.first] + Keys(tail)
  {
  }

  // x has a key above a when all keys are
  lemma KeyAbove(less: Order, a: Value, held: seq<Value>, x: Value)
    requires AllPairs(held) && AllAbove(less, a, Keys(held)) && x in held
    ensures x.Pair? && less(a, x.first)
  {
    var i :| 0 <= i < |held| && held[i] == x;
    assert Keys(held)[i] == x.first;
  }

  ghost predicate Mapping(less: Order, held: seq<Value>) {
    AllPairs(held) && Ascending(less, Keys(held))
  }

  lemma {:induction false} AssignMembers(less: Order, held: seq<Value>, p: Value, x: Value)
    requires Strict(less) && Mapping(less, held) && p.Pair?
    ensures AllPairs(Assign(less, held, p))
    ensures x in Assign(less, held, p) <==> x == p || (x in held && x.first != p.first)
  {
    if held != [] {
      var h, tail := held[0], held[1..];
      assert held == [h] + tail;
      KeysCons(h, tail);
      AscendingCons(less, h.first, Keys(tail));
      if x in tail { KeyAbove(less, h.first, tail, x); }
      if less(h.first, p.first) {
        AssignMembers(less, tail, p, x);
      }
    }
  }

  lemma AssignAbove(less: Order, a: Value, held: seq<Value>, p: Value)
    requires Strict(less) && Mapping(less, held) && p.Pair? && AllAbove(less, a, Keys(held)) && less(a, p.first)
    ensures AllPairs(Assign(less, held, p)) && AllAbove(less, a, Keys(Assign(less, held, p)))
  {
    AssignMembers(less, held, p, p);
    var s := Assign(less, held, p);
    forall i | 0 <= i < |s|
      ensures less(a, Keys(s)[i])
    {
      AssignMembers(less, held, p, s[i]);
      assert s[i] in s;
      if s[i] in held { KeyAbove(less, a, held, s[i]); }
    }
  }

  /** Assigning to a key of a map gives the map with that entry instead, in order. */
  lemma {:induction false} AssignKeepsOrder(less: Order, held: seq<Value>, p: Value)
    requires Strict(less) && Mapping(less, held) && p.Pair?
    ensures Mapping(less, Assign(less, held, p))
  {
    AssignMembers(less, held, p, p);
    if held != [] {
      var h, tail := held[0], held[1..];
      assert held == [h] + tail;
      KeysCons(h, tail);
      AscendingCons(less, h.first, Keys(tail));
      if less(h.first, p.first) {
        AssignKeepsOrder(less, tail, p);
        AssignAbove(less, h.first, tail, p);
        KeysCons(h, Assign(less, tail, p));
        AscendingCons(less, h.first, Keys(Assign(less, tail, p)));
      } else if less(p.first, h.first) {
        KeysCons(p, held);
        AscendingCons(less, p.first, Keys(held));
      } else {
        KeysCons(p, tail);
        AscendingCons(less, p.first, Keys(tail));
      }
    } else {
      KeysCons(p, []);
    }
  }

  /** Whatever the order and the repetitions of the input, a map unpacks to one entry per key, in
      ascending order, and the last assignment to a key counts. */
  lemma {:induction false} AssignedIsMap(less: Order, held: seq<Value>, items: seq<Value>, x: Value)
    requires Strict(less) && Mapping(less, held) && AllPairs(items)
    ensures Mapping(less, Assigned(less, held, items))
    ensures x in Assigned(less, held, items) <==>
            (exists i :: 0 <= i < |items| && LastFor(items, i) && items[i] == x)
            || (x in held && forall i :: 0 <= i < |items| ==> items[i].first != x.first)
    decreases |items|
  {
    if items != [] {
      var p, tail := items[0], items[1..];
      AssignKeepsOrder(less, held, p);
      AssignMembers(less, held, p, x);
      AssignedIsMap(less, Assign(less, held, p), tail, x);
      LastForTail(items, x);
    }
  }

  // no later pair has the key of pair i
  predicate LastFor(items: seq<Value>, i: nat)
    requires i < |items| && AllPairs(items)
  {
    forall j :: i < j < |items| ==> items[j].first != items[i].first
  }

  lemma LastForTail(items: seq<Value>, x: Value)
    requires AllPairs(items) && items != []
    ensures
      var p, tail := items[0], items[1..];
      (exists i :: 0 <= i < |items| && LastFor(items, i) && items[i] == x) <==>
      (exists i :: 0 <= i < |tail| && LastFor(tail, i) && tail[i] == x)
      || (x == p && forall i :: 0 <= i < |tail| ==> tail[i].first != p.first)
  {
    var p, tail := items[0], items[1..];
    if i :| 0 <= i < |items| && LastFor(items, i) && items[i] == x {
      if i > 0 {
        LastForShift(items, i - 1);
        assert tail[i - 1] == x;
      } else {
        assert forall j :: 0 <= j < |tail| ==> tail[j] == items[j + 1];
      }
    }
    if i :| 0 <= i < |tail| && LastFor(tail, i) && tail[i] == x {
      LastForShift(items, i);
      assert items[i + 1] == x;
    }
    if x == p && forall i :: 0 <= i < |tail| ==> tail[i].first != p.first {
      forall j | 0 < j < |items|
        ensures items[j].first != items[0].first
      {
        assert items[j] == tail[j - 1];
      }
      assert LastFor(items, 0);
    }
  }

  lemma LastForShift(items: seq<Value>, i: nat)
    requires AllPairs(items) && items != [] && i < |items| - 1
    ensures LastFor(items[1..], i) <==> LastFor(items, i + 1)
  {
    var tail := items[1..];
    assert forall j :: 0 <= j < |tail| ==> tail[j] == items[j + 1];
    if LastFor(tail, i) {
      forall j | i + 1 < j < |items|
        ensures items[j].first != items[i + 1].first
      {
        assert items[j] == tail[j - 1];
      }
    }
  }
}
