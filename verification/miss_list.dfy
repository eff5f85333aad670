/** The list of ranges of missing sequence numbers kept by both ends of a channel. */
module MissLists {
  import opened SequenceNumbers

  datatype Range = Range(first: int, last: int)

  // the wire form carries at most this many ranges
  const MAX_WIRE_RANGES: nat := 128

  // ------------------------------------------------- the operations, as values

  function Add(ar: Arith, rs: seq<Range>, start: int, end: int): seq<Range> {
    if rs == [] then [Range(start, end)]
    else if Lt(ar, Norm(ar, rs[0].last + 1), start) then [rs[0]] + Add(ar, rs[1..], start, end)
    else if Eq(ar, Norm(ar, rs[0].last + 1), start) then [Range(rs[0].first, end)] + rs[1..]
    else if |rs| == 1 then rs + [Range(start, end)]
    else if Eq(ar, Norm(ar, end + 1), rs[1].first) then [rs[0], Range(end, rs[1].last)] + rs[2..]
    else [rs[0], Range(start, end)] + rs[1..]
  }

  // what is left of one range when `s` leaves it
  function Cut(ar: Arith, r: Range, s: int): seq<Range> {
    if r.first == s && r.last == s then []
    else if r.first == s then [Range(Norm(ar, r.first + 1), r.last)]
    else if r.last == s then [Range(r.first, Norm(ar, r.last - 1))]
    else if Lt(ar, r.first, s) && Lt(ar, s, r.last) then
      [Range(r.first, Norm(ar, s - 1)), Range(Norm(ar, s + 1), r.last)]
    else [r]
  }

  predicate InRange(ar: Arith, r: Range, s: int) {
    Le(ar, r.first, s) && Le(ar, s, r.last)
  }

  function Remove(ar: Arith, rs: seq<Range>, s: int): seq<Range> {
    if rs == [] then []
    else if InRange(ar, rs[0], s) then Cut(ar, rs[0], s) + rs[1..]
    else if Gt(ar, rs[0].first, s) then rs
    else [rs[0]] + Remove(ar, rs[1..], s)
  }

  // `contains` asks the second half of the question from the other side, which
  // differs from InRange exactly half the space away
  predicate Holds(ar: Arith, r: Range, s: int) {
    Le(ar, r.first, s) && Ge(ar, r.last, s)
  }

  predicate Contains(ar: Arith, rs: seq<Range>, s: int) {
    rs != [] && (Holds(ar, rs[0], s) || Contains(ar, rs[1..], s))
  }

  // the list after its first number was taken off
  function Rest(ar: Arith, rs: seq<Range>): seq<Range>
    requires rs != []
  {
    if rs[0].first == rs[0].last then rs[1..]
    else [Range(Norm(ar, rs[0].first + 1), rs[0].last)] + rs[1..]
  }

  // how many numbers successive pops take off one range, and off the list
  function Length(ar: Arith, r: Range): nat {
    if ar.Circular? then Wrap(r.last - r.first) + 1
    else if r.first <= r.last then r.last - r.first + 1
    else 0
  }

  function PopCount(ar: Arith, rs: seq<Range>): nat {
    if rs == [] then 0 else Length(ar, rs[0]) + PopCount(ar, rs[1..])
  }

  // what size() computes: the subtraction of two sequence numbers is the distance
  // from the first operand to the second, so every range counts first - last + 1
  function ReportedSize(ar: Arith, rs: seq<Range>): int {
    if rs == [] then 0 else Distance(ar, rs[0].last, rs[0].first) + 1 + ReportedSize(ar, rs[1..])
  }

  function OnWire(rs: seq<Range>): (wire: seq<Range>)
    ensures wire <= rs && |wire| == if |rs| < 128 then |rs| else 128
  {
    if |rs| <= MAX_WIRE_RANGES then rs else rs[..MAX_WIRE_RANGES]
  }

  // ------------------------------------ sorted lists as sets, without wrapping

  /** Ranges in ascending order, disjoint, all within lo..hi. */
  predicate Spans(rs: seq<Range>, lo: int, hi: int) {
    rs == [] ||
    (lo <= rs[0].first <= rs[0].last <= hi && Spans(rs[1..], rs[0].last + 1, hi))
  }

  predicate Held(rs: seq<Range>, x: int) {
    Contains(Unbounded, rs, x)
  }

  lemma {:induction false} SpansBounds(rs: seq<Range>, lo: int, hi: int, x: int)
    requires Spans(rs, lo, hi) && Held(rs, x)
    ensures lo <= x <= hi
  {
    if !Holds(Unbounded, rs[0], x) {
      SpansBounds(rs[1..], rs[0].last + 1, hi, x);
    }
  }

  lemma {:induction false} SpansWiden(rs: seq<Range>, lo: int, hi: int, lo': int, hi': int)
    requires Spans(rs, lo, hi) && lo' <= lo && hi <= hi'
    ensures Spans(rs, lo', hi')
  {
    if rs != [] {
      SpansWiden(rs[1..], rs[0].last + 1, hi, rs[0].last + 1, hi');
    }
  }

  /** A sorted list that does not hold its lower bound lies above it. */
  lemma SpansTighten(rs: seq<Range>, lo: int, hi: int)
    requires Spans(rs, lo, hi) && !Held(rs, lo)
    ensures Spans(rs, lo + 1, hi)
  {
  }

  lemma {:induction false} HeldConcat(xs: seq<Range>, ys: seq<Range>, x: int)
    ensures Held(xs + ys, x) <==> Held(xs, x) || Held(ys, x)
  {
    if xs == [] {
      assert xs + ys == ys;
    } else {
      assert (xs + ys)[1..] == xs[1..] + ys;
      HeldConcat(xs[1..], ys, x);
    }
  }

  lemma {:induction false} SpansConcat(xs: seq<Range>, ys: seq<Range>, lo: int, mid: int, hi: int)
    requires Spans(xs, lo, mid - 1) && Spans(ys, mid, hi) && lo <= mid <= hi + 1
    ensures Spans(xs + ys, lo, hi)
  {
    if xs == [] {
      assert xs + ys == ys;
      SpansWiden(ys, mid, hi, lo, hi);
    } else {
      assert (xs + ys)[1..] == xs[1..] + ys;
      SpansConcat(xs[1..], ys, xs[0].last + 1, mid, hi);
    }
  }

  lemma ContainsOne(ar: Arith, r: Range, x: int)
    ensures Contains(ar, [r], x) == Holds(ar, r, x)
  {
    assert [r][1..] == [];
  }

  lemma CutExact(r: Range, s: int, x: int)
    requires r.first <= s <= r.last
    ensures Spans(Cut(Unbounded, r, s), r.first, r.last)
    ensures Held(Cut(Unbounded, r, s), x) <==> r.first <= x <= r.last && x != s
  {
    var c := Cut(Unbounded, r, s);
    if |c| == 1 {
      assert c == [c[0]];
      ContainsOne(Unbounded, c[0], x);
    } else if |c| == 2 {
      assert c == [c[0]] + [c[1]];
      HeldConcat([c[0]], [c[1]], x);
      ContainsOne(Unbounded, c[0], x);
      ContainsOne(Unbounded, c[1], x);
    }
  }

  /** Removing is set difference, splitting the range the number was in. */
  lemma {:induction false} RemoveExact(rs: seq<Range>, lo: int, hi: int, s: int, x: int)
    requires Spans(rs, lo, hi)
    ensures Spans(Remove(Unbounded, rs, s), lo, hi)
    ensures Held(Remove(Unbounded, rs, s), x) <==> Held(rs, x) && x != s
  {
    if rs == [] {
    } else if InRange(Unbounded, rs[0], s) {
      var c := Cut(Unbounded, rs[0], s);
      CutExact(rs[0], s, x);
      SpansWiden(c, rs[0].first, rs[0].last, lo, rs[0].last);
      SpansConcat(c, rs[1..], lo, rs[0].last + 1, hi);
      HeldConcat(c, rs[1..], x);
      if Held(rs[1..], x) { SpansBounds(rs[1..], rs[0].last + 1, hi, x); }
    } else if Gt(Unbounded, rs[0].first, s) {
      if Held(rs, x) { SpansBounds(rs, rs[0].first, hi, x); }
    } else {
      RemoveExact(rs[1..], rs[0].last + 1, hi, s, x);
      assert Remove(Unbounded, rs, s)[1..] == Remove(Unbounded, rs[1..], s);
    }
  }

  /** Adding a range past everything held is exact union. */
  lemma {:induction false} AppendExact(rs: seq<Range>, lo: int, start: int, end: int, x: int)
    requires Spans(rs, lo, start - 1) && lo <= start <= end
    ensures Spans(Add(Unbounded, rs, start, end), lo, end)
    ensures Held(Add(Unbounded, rs, start, end), x) <==> Held(rs, x) || start <= x <= end
  {
    if rs == [] {
    } else if rs[0].last + 1 < start {
      AppendExact(rs[1..], rs[0].last + 1, start, end, x);
      assert Add(Unbounded, rs, start, end)[1..] == Add(Unbounded, rs[1..], start, end);
    } else {
      assert rs[1..] == [];
      assert Add(Unbounded, rs, start, end) == [Range(rs[0].first, end)];
    }
  }

  /** The one case in which adding forgets: a range that reaches back into a held one and ends
      right before the next lowers the start of the next by one and is otherwise lost. */
  predicate Swallows(rs: seq<Range>, start: int, end: int) {
    |rs| >= 2 &&
    if rs[0].last + 1 < start then Swallows(rs[1..], start, end)
    else rs[0].last + 1 > start && rs[1].first == end + 1
  }

  predicate Forward(rs: seq<Range>) {
    forall i :: 0 <= i < |rs| ==> rs[i].first <= rs[i].last
  }

  /** Adding to any list keeps what is held and adds the whole range, or only its last number in
      the one case above. */
  lemma {:induction false} AddExact(rs: seq<Range>, start: int, end: int, x: int)
    requires start <= end && Forward(rs)
    ensures Held(Add(Unbounded, rs, start, end), x) <==>
            Held(rs, x) || x == end || (start <= x <= end && !Swallows(rs, start, end))
  {
    if rs == [] {
      ContainsOne(Unbounded, Range(start, end), x);
    } else {
      var a := Add(Unbounded, rs, start, end);
      if rs[0].last + 1 < start {
        AddExact(rs[1..], start, end, x);
        assert a[0] == rs[0] && a[1..] == Add(Unbounded, rs[1..], start, end);
      } else {
        AddFront(rs, start, end, x);
      }
    }
  }

  lemma AddFront(rs: seq<Range>, start: int, end: int, x: int)
    requires start <= end && Forward(rs) && rs != [] && rs[0].last + 1 >= start
    ensures Held(Add(Unbounded, rs, start, end), x) <==>
            Held(rs, x) || x == end || (start <= x <= end && !Swallows(rs, start, end))
  {
    var a, r := Add(Unbounded, rs, start, end), Range(start, end);
    assert Held(rs, x) <==> Holds(Unbounded, rs[0], x) || Held(rs[1..], x);
    if rs[0].last + 1 == start {
      assert rs[0].first <= rs[0].last;
      assert a[1..] == rs[1..] && a[0] == Range(rs[0].first, end) && !Swallows(rs, start, end);
    } else if |rs| == 1 {
      assert a[1..] == [r] && rs[1..] == [] && a[0] == rs[0];
      ContainsOne(Unbounded, r, x);
      assert !Swallows(rs, start, end);
    } else if end + 1 == rs[1].first {
      assert rs[1].first <= rs[1].last;
      var tail, tail' := rs[1..], a[1..];
      assert tail[0] == rs[1] && tail'[0] == Range(end, rs[1].last) && tail'[1..] == rs[2..] == tail[1..];
      assert Held(tail, x) <==> Holds(Unbounded, rs[1], x) || Held(rs[2..], x);
      assert Held(tail', x) <==> Holds(Unbounded, tail'[0], x) || Held(rs[2..], x);
      assert Swallows(rs, start, end);
    } else {
      var tail' := a[1..];
      assert tail'[0] == r && tail'[1..] == rs[1..];
      assert Held(tail', x) <==> Holds(Unbounded, r, x) || Held(rs[1..], x);
      assert !Swallows(rs, start, end);
    }
  }

  /** With 3..6 and 9 held, adding 5..8 forgets 7. */
  lemma AddCanSwallow()
    ensures var rs := [Range(3, 6), Range(9, 9)];
            Add(Unbounded, rs, 5, 8) == [Range(3, 6), Range(8, 9)] && !Held(Add(Unbounded, rs, 5, 8), 7)
  {
    var rs := [Range(3, 6), Range(9, 9)];
    assert rs[2..] == [];
    AddExact(rs, 5, 8, 7);
    assert Swallows(rs, 5, 8);
    assert rs[1..][1..] == [];
  }

  /** Past all held ranges nothing is forgotten. */
  lemma {:induction false} AppendSwallowsNothing(rs: seq<Range>, lo: int, start: int, end: int)
    requires Spans(rs, lo, start - 1)
    ensures !Swallows(rs, start, end)
  {
    if |rs| >= 2 && rs[0].last + 1 < start {
      AppendSwallowsNothing(rs[1..], rs[0].last + 1, start, end);
    }
  }

  /** Taking the first number off removes exactly the least one held. */
  lemma RestExact(rs: seq<Range>, lo: int, hi: int, x: int)
    requires rs != [] && Spans(rs, lo, hi)
    ensures Held(rs, rs[0].first) && (Held(rs, x) ==> rs[0].first <= x)
    ensures Spans(Rest(Unbounded, rs), lo, hi)
    ensures Held(Rest(Unbounded, rs), x) <==> Held(rs, x) && x != rs[0].first
  {
    if Held(rs, x) { SpansBounds(rs, rs[0].first, hi, x); }
    RemoveExact(rs, lo, hi, rs[0].first, x);
    assert Rest(Unbounded, rs) == Remove(Unbounded, rs, rs[0].first);
  }

  // -------------------------------------------------------------- wrap-around

  /** Every number in the list is a 16-bit one. */
  predicate SixteenBit(rs: seq<Range>) {
    forall i :: 0 <= i < |rs| ==> rs[i] == WrapRange(rs[i])
  }

  lemma {:induction false} AddStaysSixteenBit(rs: seq<Range>, start: U16, end: U16)
    requires SixteenBit(rs)
    ensures SixteenBit(Add(Circular, rs, start, end))
  {
    if rs != [] { AddStaysSixteenBit(rs[1..], start, end); }
  }

  lemma {:induction false} RemoveStaysSixteenBit(rs: seq<Range>, s: U16)
    requires SixteenBit(rs)
    ensures SixteenBit(Remove(Circular, rs, s))
  {
    if rs != [] {
      RemoveStaysSixteenBit(rs[1..], s);
      assert SixteenBit(Cut(Circular, rs[0], s));
    }
  }

  function WrapRange(r: Range): Range {
    Range(Wrap(r.first), Wrap(r.last))
  }

  function WrapRanges(rs: seq<Range>): seq<Range> {
    if rs == [] then [] else [WrapRange(rs[0])] + WrapRanges(rs[1..])
  }

  lemma {:induction false} WrapRangesConcat(xs: seq<Range>, ys: seq<Range>)
    ensures WrapRanges(xs + ys) == WrapRanges(xs) + WrapRanges(ys)
  {
    if xs == [] {
      assert xs + ys == ys;
    } else {
      assert (xs + ys)[1..] == xs[1..] + ys;
      WrapRangesConcat(xs[1..], ys);
    }
  }

  lemma {:induction false} WrapRangesIndex(rs: seq<Range>)
    ensures |WrapRanges(rs)| == |rs|
    ensures forall i :: 0 <= i < |rs| ==> WrapRanges(rs)[i] == WrapRange(rs[i])
  {
    if rs != [] {
      WrapRangesIndex(rs[1..]);
      forall i | 0 <= i < |rs| ensures WrapRanges(rs)[i] == WrapRange(rs[i]) {
        if i > 0 { assert WrapRanges(rs)[i] == WrapRanges(rs[1..])[i - 1]; }
      }
    }
  }

  lemma WrapOnWire(rs: seq<Range>)
    ensures WrapRanges(OnWire(rs)) == OnWire(WrapRanges(rs))
  {
    WrapRangesIndex(rs);
    WrapRangesIndex(OnWire(rs));
  }

  lemma {:induction false} SpansPrefix(rs: seq<Range>, lo: int, hi: int, n: nat)
    requires Spans(rs, lo, hi) && n <= |rs|
    ensures Spans(rs[..n], lo, hi)
  {
    if n > 0 {
      SpansPrefix(rs[1..], rs[0].last + 1, hi, n - 1);
      assert rs[..n][1..] == rs[1..][..n - 1];
    }
  }

  /** Every end of every range is less than half the space away from s. */
  predicate AllNear(rs: seq<Range>, s: int) {
    rs == [] || (Near(rs[0].first, s) && Near(rs[0].last, s) && Near(rs[0].last + 1, s) && AllNear(rs[1..], s))
  }

  lemma {:induction false} SpansNear(rs: seq<Range>, lo: int, hi: int, s: int)
    requires Spans(rs, lo, hi) && Near(lo, s) && Near(hi + 1, s)
    ensures AllNear(rs, s)
  {
    if rs != [] {
      SpansNear(rs[1..], rs[0].last + 1, hi, s);
    }
  }

  lemma WrapInRange(r: Range, s: int)
    requires Near(r.first, s) && Near(r.last, s)
    ensures InRange(Circular, WrapRange(r), Wrap(s)) <==> InRange(Unbounded, r, s)
    ensures Holds(Circular, WrapRange(r), Wrap(s)) <==> Holds(Unbounded, r, s)
  {
    CircularOrder(r.last, s);
    CircularOrder(r.first, s);
    CircularOrder(s, r.last);
  }

  lemma WrapCut(r: Range, s: int)
    requires Near(r.first, s) && Near(r.last, s)
    ensures Cut(Circular, WrapRange(r), Wrap(s)) == WrapRanges(Cut(Unbounded, r, s))
  {
    CircularOrder(r.first, s);
    CircularOrder(s, r.last);
    WrapPlus(r.first, 1);
    WrapPlus(r.last, -1);
    WrapPlus(s, 1);
    WrapPlus(s, -1);
    var c := Cut(Unbounded, r, s);
    WrapRangesIndex(c);
  }

  lemma {:induction false} WrapRemove(rs: seq<Range>, s: int)
    requires AllNear(rs, s)
    ensures Remove(Circular, WrapRanges(rs), Wrap(s)) == WrapRanges(Remove(Unbounded, rs, s))
  {
    if rs != [] {
      var w := WrapRanges(rs);
      assert w[0] == WrapRange(rs[0]) && w[1..] == WrapRanges(rs[1..]);
      WrapInRange(rs[0], s);
      CircularOrder(rs[0].first, s);
      WrapCut(rs[0], s);
      WrapRemove(rs[1..], s);
      if InRange(Unbounded, rs[0], s) {
        WrapRangesConcat(Cut(Unbounded, rs[0], s), rs[1..]);
      } else if rs[0].first <= s {
        WrapRangesConcat([rs[0]], Remove(Unbounded, rs[1..], s));
      }
    }
  }

  lemma {:induction false} WrapContains(rs: seq<Range>, s: int)
    requires AllNear(rs, s)
    ensures Contains(Circular, WrapRanges(rs), Wrap(s)) <==> Contains(Unbounded, rs, s)
  {
    if rs != [] {
      assert WrapRanges(rs)[1..] == WrapRanges(rs[1..]);
      WrapInRange(rs[0], s);
      WrapContains(rs[1..], s);
    }
  }

  lemma {:induction false} WrapAdd(rs: seq<Range>, start: int, end: int)
    requires AllNear(rs, start) && AllNear(rs, end + 1)
    ensures Add(Circular, WrapRanges(rs), Wrap(start), Wrap(end)) == WrapRanges(Add(Unbounded, rs, start, end))
  {
    var n := Range(start, end);
    assert WrapRanges([n]) == [WrapRange(n)];
    if rs != [] {
      var w := WrapRanges(rs);
      assert w[0] == WrapRange(rs[0]) && w[1..] == WrapRanges(rs[1..]);
      WrapPlus(rs[0].last, 1);
      CircularOrder(rs[0].last + 1, start);
      WrapRangesIndex(rs);
      if rs[0].last + 1 < start {
        WrapAdd(rs[1..], start, end);
        WrapRangesConcat([rs[0]], Add(Unbounded, rs[1..], start, end));
      } else if rs[0].last + 1 == start {
        WrapRangesConcat([Range(rs[0].first, end)], rs[1..]);
      } else if |rs| == 1 {
        WrapRangesConcat(rs, [n]);
      } else {
        WrapAddAfterFirst(rs, start, end);
      }
    }
  }

  lemma WrapAddAfterFirst(rs: seq<Range>, start: int, end: int)
    requires |rs| >= 2 && AllNear(rs, start) && AllNear(rs, end + 1)
    requires rs[0].last + 1 > start
    ensures Add(Circular, WrapRanges(rs), Wrap(start), Wrap(end)) == WrapRanges(Add(Unbounded, rs, start, end))
  {
    var w := WrapRanges(rs);
    WrapRangesIndex(rs);
    assert w[1..] == WrapRanges(rs[1..]);
    assert w[2..] == WrapRanges(rs[1..][1..]) && rs[1..][1..] == rs[2..];
    assert AllNear(rs[1..], end + 1);
    WrapPlus(rs[0].last, 1);
    CircularOrder(rs[0].last + 1, start);
    WrapPlus(end, 1);
    CircularOrder(end + 1, rs[1].first);
    var m := [rs[0], Range(end, rs[1].last)];
    var k := [rs[0], Range(start, end)];
    WrapRangesIndex(m);
    WrapRangesIndex(k);
    WrapRangesConcat(m, rs[2..]);
    WrapRangesConcat(k, rs[1..]);
  }

  lemma RestOf(ar: Arith, r: Range, tail: seq<Range>)
    ensures Rest(ar, [r] + tail) == if r.first == r.last then tail else [Range(Norm(ar, r.first + 1), r.last)] + tail
  {
    assert ([r] + tail)[1..] == tail;
  }

  lemma WrapCons(r: Range, tail: seq<Range>)
    ensures WrapRanges([r] + tail) == [WrapRange(r)] + WrapRanges(tail)
  {
    assert ([r] + tail)[1..] == tail;
  }

  lemma RestAgrees(r: Range, w: Range, tail: seq<Range>)
    requires w == WrapRange(r) && (w.first == w.last <==> r.first == r.last)
    requires Norm(Circular, w.first + 1) == Wrap(r.first + 1)
    ensures Rest(Circular, [w] + WrapRanges(tail)) == WrapRanges(Rest(Unbounded, [r] + tail))
  {
    RestOf(Unbounded, r, tail);
    RestOf(Circular, w, WrapRanges(tail));
    WrapCons(Range(r.first + 1, r.last), tail);
  }

  lemma WrapRest(rs: seq<Range>)
    requires rs != [] && (Wrap(rs[0].first) == Wrap(rs[0].last) <==> rs[0].first == rs[0].last)
    ensures Rest(Circular, WrapRanges(rs)) == WrapRanges(Rest(Unbounded, rs))
  {
    assert rs == [rs[0]] + rs[1..];
    WrapPlus(rs[0].first, 1);
    RestAgrees(rs[0], WrapRange(rs[0]), rs[1..]);
  }

  lemma {:induction false} WrapReportedSize(rs: seq<Range>, lo: int, hi: int)
    requires Spans(rs, lo, hi) && hi < lo + HALF
    ensures ReportedSize(Circular, WrapRanges(rs)) == ReportedSize(Unbounded, rs)
  {
    if rs != [] {
      CircularOrder(rs[0].last, rs[0].first);
      WrapReportedSize(rs[1..], rs[0].last + 1, hi);
      assert WrapRanges(rs)[1..] == WrapRanges(rs[1..]);
    }
  }

  /** size() counts what the list holds exactly when every range is a single number. */
  lemma {:induction false} ReportedSizeIsCount(rs: seq<Range>, lo: int, hi: int)
    requires Spans(rs, lo, hi)
    ensures ReportedSize(Unbounded, rs) <= PopCount(Unbounded, rs)
    ensures ReportedSize(Unbounded, rs) == PopCount(Unbounded, rs) <==>
            forall i :: 0 <= i < |rs| ==> rs[i].first == rs[i].last
  {
    if rs != [] {
      ReportedSizeIsCount(rs[1..], rs[0].last + 1, hi);
      if forall i :: 0 <= i < |rs[1..]| ==> rs[1..][i].first == rs[1..][i].last {
        assert forall i :: 0 < i < |rs| ==> rs[i] == rs[1..][i - 1];
      } else {
        var i :| 0 <= i < |rs[1..]| && rs[1..][i].first != rs[1..][i].last;
        assert rs[i + 1] == rs[1..][i];
      }
    }
  }

  lemma WrapInjective(x: int, y: int)
    requires -MODULUS < x - y < MODULUS
    ensures Wrap(x) == Wrap(y) <==> x == y
  {
  }

  lemma LengthRest(r: Range)
    requires r == WrapRange(r) && r.first != r.last
    ensures Length(Circular, Range(Wrap(r.first + 1), r.last)) == Length(Circular, r) - 1
  {
  }

  /** On 16-bit ranges every pop takes one number off. */
  lemma PopCountRest(rs: seq<Range>)
    requires rs != [] && rs[0] == WrapRange(rs[0])
    ensures PopCount(Circular, Rest(Circular, rs)) == PopCount(Circular, rs) - 1
  {
    if rs[0].first != rs[0].last {
      LengthRest(rs[0]);
      assert Rest(Circular, rs)[1..] == rs[1..];
    }
  }

  // ------------------------------------------- the 16-bit list refines a set

  lemma ContainsIsHeld(rs: seq<Range>, lo: int, hi: int, x: int)
    requires Spans(rs, lo, hi) && hi + 1 < lo + HALF && lo <= x <= hi
    ensures Contains(Circular, WrapRanges(rs), Wrap(x)) == Held(rs, x)
  {
    SpansNear(rs, lo, hi, x);
    WrapContains(rs, x);
  }

  /** On sorted, disjoint ranges inside half the sequence space, removing from the
      16-bit list is set difference on the numbers it stands for. */
  lemma RemoveRefinesDifference(rs: seq<Range>, lo: int, hi: int, s: int, x: int)
    requires Spans(rs, lo, hi) && hi + 1 < lo + HALF && lo <= s <= hi && lo <= x <= hi
    ensures Contains(Circular, Remove(Circular, WrapRanges(rs), Wrap(s)), Wrap(x))
         == (Contains(Circular, WrapRanges(rs), Wrap(x)) && x != s)
  {
    SpansNear(rs, lo, hi, s);
    WrapRemove(rs, s);
    RemoveExact(rs, lo, hi, s, x);
    ContainsIsHeld(rs, lo, hi, x);
    ContainsIsHeld(Remove(Unbounded, rs, s), lo, hi, x);
  }

  /** Adding past all held ranges is union on the numbers the 16-bit list stands for. */
  lemma AppendRefinesUnion(rs: seq<Range>, lo: int, start: int, end: int, x: int)
    requires Spans(rs, lo, start - 1) && lo <= start <= end && end + 1 < lo + HALF && lo <= x <= end
    ensures Contains(Circular, Add(Circular, WrapRanges(rs), Wrap(start), Wrap(end)), Wrap(x))
         == (Contains(Circular, WrapRanges(rs), Wrap(x)) || start <= x)
  {
    SpansNear(rs, lo, start - 1, start);
    SpansNear(rs, lo, start - 1, end + 1);
    WrapAdd(rs, start, end);
    AppendExact(rs, lo, start, end, x);
    SpansWiden(rs, lo, start - 1, lo, end);
    ContainsIsHeld(rs, lo, end, x);
    ContainsIsHeld(Add(Unbounded, rs, start, end), lo, end, x);
  }

  /** Popping takes off the least held number and nothing else. */
  lemma RestRefinesLeast(rs: seq<Range>, lo: int, hi: int, x: int)
    requires rs != [] && Spans(rs, lo, hi) && hi + 1 < lo + HALF && lo <= x <= hi
    ensures WrapRanges(rs)[0].first == Wrap(rs[0].first) && lo <= rs[0].first <= hi
    ensures Contains(Circular, WrapRanges(rs), Wrap(x)) ==> rs[0].first <= x
    ensures Contains(Circular, Rest(Circular, WrapRanges(rs)), Wrap(x))
         == (Contains(Circular, WrapRanges(rs), Wrap(x)) && x != rs[0].first)
  {
    RestExact(rs, lo, hi, x);
    CircularOrder(rs[0].first, rs[0].last);
    WrapRest(rs);
    ContainsIsHeld(rs, lo, hi, x);
    ContainsIsHeld(Rest(Unbounded, rs), lo, hi, x);
  }

  /** For any list whatever, adding never introduces a number that was neither held
      nor in the added range. */
  lemma {:induction false} AddIntroducesNothing(rs: seq<Range>, start: U16, end: U16, n: U16)
    requires SixteenBit(rs)
    requires Le(Circular, start, end)
    requires Contains(Circular, Add(Circular, rs, start, end), n)
    ensures Contains(Circular, rs, n) || Holds(Circular, Range(start, end), n)
  {
    if rs != [] {
      var a := Add(Circular, rs, start, end);
      var next := Norm(Circular, rs[0].last + 1);
      if Lt(Circular, next, start) {
        assert a[1..] == Add(Circular, rs[1..], start, end);
        if !Holds(Circular, rs[0], n) { AddIntroducesNothing(rs[1..], start, end, n); }
      } else if Eq(Circular, next, start) {
        assert a[1..] == rs[1..];
        if !Contains(Circular, rs, n) { ExtendedRange(rs[0].first, rs[0].last, end, n); }
      } else if |rs| == 1 {
        assert a[0] == rs[0] && a[1..] == [Range(start, end)];
        ContainsOne(Circular, Range(start, end), n);
      } else {
        AddAfterFirstIntroducesNothing(rs, start, end, n);
      }
    }
  }

  lemma AddAfterFirstIntroducesNothing(rs: seq<Range>, start: U16, end: U16, n: U16)
    requires |rs| >= 2 && rs[1] == WrapRange(rs[1]) && Le(Circular, start, end)
    requires !Lt(Circular, Wrap(rs[0].last + 1), start) && !Eq(Circular, Wrap(rs[0].last + 1), start)
    requires Contains(Circular, Add(Circular, rs, start, end), n)
    ensures Contains(Circular, rs, n) || Holds(Circular, Range(start, end), n)
  {
    var a := Add(Circular, rs, start, end);
    assert a[0] == rs[0];
    if !Holds(Circular, rs[0], n) {
      assert Contains(Circular, a[1..], n);
      if Eq(Circular, Wrap(end + 1), rs[1].first) {
        assert a[1..] == [Range(end, rs[1].last)] + rs[2..];
        assert a[1..][1..] == rs[1..][1..];
        if Holds(Circular, Range(end, rs[1].last), n) { LoweredRange(start, end, rs[1], n); }
      } else {
        assert a[1..] == [Range(start, end)] + rs[1..];
        assert a[1..][1..] == rs[1..];
      }
    }
  }

  lemma LoweredRange(start: U16, end: U16, r: Range, n: U16)
    requires Le(Circular, start, end) && r == WrapRange(r) && Eq(Circular, Wrap(end + 1), r.first)
    requires Holds(Circular, Range(end, r.last), n)
    ensures Holds(Circular, r, n) || Holds(Circular, Range(start, end), n)
  {
  }

  lemma ExtendedRange(first: U16, last: U16, end: U16, n: U16)
    requires Holds(Circular, Range(first, end), n) && !Holds(Circular, Range(first, last), n)
    ensures Holds(Circular, Range(Wrap(last + 1), end), n)
  {
  }

  // -------------------------------------------------------------- the object

  lemma AddSkips(rs: seq<Range>, i: nat, start: int, end: int)
    requires i < |rs| && Lt(Circular, Wrap(rs[i].last + 1), start)
    ensures rs[..i] + Add(Circular, rs[i..], start, end) == rs[..i + 1] + Add(Circular, rs[i + 1..], start, end)
  {
    assert rs[i..][1..] == rs[i + 1..];
  }

  // where the scan of add stops, in terms of positions
  lemma AddHere(rs: seq<Range>, i: nat, start: int, end: int)
    requires i <= |rs| && (i < |rs| ==> !Lt(Circular, Wrap(rs[i].last + 1), start))
    ensures rs[..i] + Add(Circular, rs[i..], start, end) ==
              if i == |rs| then rs + [Range(start, end)]
              else if Eq(Circular, Wrap(rs[i].last + 1), start) then rs[i := Range(rs[i].first, end)]
              else if i + 1 == |rs| then rs + [Range(start, end)]
              else if Eq(Circular, Wrap(end + 1), rs[i + 1].first) then rs[i + 1 := Range(end, rs[i + 1].last)]
              else rs[..i + 1] + [Range(start, end)] + rs[i + 1..]
  {
    var tail := rs[i..];
    if i < |rs| {
      assert tail[1..] == rs[i + 1..];
      if i + 1 < |rs| { assert tail[2..] == rs[i + 2..] && tail[1] == rs[i + 1]; }
    }
  }

  // what one turn of remove decides, in terms of positions
  lemma RemoveHere(rs: seq<Range>, i: nat, s: int)
    requires i < |rs|
    ensures InRange(Circular, rs[i], s) ==>
              rs[..i] + Remove(Circular, rs[i..], s) == rs[..i] + Cut(Circular, rs[i], s) + rs[i + 1..]
    ensures !InRange(Circular, rs[i], s) && Gt(Circular, rs[i].first, s) ==>
              rs[..i] + Remove(Circular, rs[i..], s) == rs
    ensures !InRange(Circular, rs[i], s) && !Gt(Circular, rs[i].first, s) ==>
              rs[..i] + Remove(Circular, rs[i..], s) == rs[..i + 1] + Remove(Circular, rs[i + 1..], s)
  {
    assert rs[i..][1..] == rs[i + 1..];
  }

  class MissList {
    var ranges: seq<Range>

    constructor ()
      ensures ranges == []
    {
      ranges := [];
    }

    method Clear()
      modifies this
      ensures ranges == []
    {
      ranges := [];
    }

    method AddRange(start: U16, end: U16)
      modifies this
      ensures ranges == Add(Circular, old(ranges), start, end)
    {
      var rs, i := ranges, 0;
      while i < |rs| && Lt(Circular, Wrap(rs[i].last + 1), start)
        invariant 0 <= i <= |rs|
        invariant Add(Circular, rs, start, end) == rs[..i] + Add(Circular, rs[i..], start, end)
      {
        AddSkips(rs, i, start, end);
        i := i + 1;
      }
      AddHere(rs, i, start, end);
      if i == |rs| {
        ranges := rs + [Range(start, end)];
        return;
      }
      if Eq(Circular, Wrap(rs[i].last + 1), start) {
        ranges := rs[i := Range(rs[i].first, end)];
        return;
      }
      i := i + 1;
      if i == |rs| {
        ranges := rs + [Range(start, end)];
      } else if Eq(Circular, Wrap(end + 1), rs[i].first) {
        ranges := rs[i := Range(end, rs[i].last)];
      } else {
        ranges := rs[..i] + [Range(start, end)] + rs[i..];
      }
    }

    method CutRange(i: nat, s: U16)
      requires i < |ranges|
      modifies this
      ensures ranges == old(ranges)[..i] + Cut(Circular, old(ranges)[i], s) + old(ranges)[i + 1..]
    {
      var rs, r := ranges, ranges[i];
      assert rs == rs[..i] + [r] + rs[i + 1..];
      if r.first == s && r.last == s {
        ranges := rs[..i] + rs[i + 1..];
      } else if r.first == s {
        ranges := rs[i := Range(Wrap(r.first + 1), r.last)];
      } else if r.last == s {
        ranges := rs[i := Range(r.first, Wrap(r.last - 1))];
      } else if Lt(Circular, r.first, s) && Lt(Circular, s, r.last) {
        ranges := rs[..i] + [Range(r.first, Wrap(s - 1)), Range(Wrap(s + 1), r.last)] + rs[i + 1..];
      }
    }

    method RemoveNumber(s: U16)
      modifies this
      ensures ranges == Remove(Circular, old(ranges), s)
    {
      var rs, i := ranges, 0;
      while i < |rs|
        invariant 0 <= i <= |rs| && ranges == rs
        invariant Remove(Circular, rs, s) == rs[..i] + Remove(Circular, rs[i..], s)
      {
        var r := rs[i];
        RemoveHere(rs, i, s);
        if Le(Circular, r.first, s) && Le(Circular, s, r.last) {
          CutRange(i, s);
          return;
        }
        if Gt(Circular, r.first, s) {
          return;
        }
        i := i + 1;
      }
    }

    method PopFront() returns (ok: bool, s: int)
      modifies this
      ensures ok == (old(ranges) != [])
      ensures ok ==> s == old(ranges)[0].first && ranges == Rest(Circular, old(ranges))
      ensures !ok ==> ranges == old(ranges)
    {
      if |ranges| == 0 {
        return false, 0;
      }
      s := ranges[0].first;
      if ranges[0].first == ranges[0].last {
        ranges := ranges[1..];
      } else {
        ranges := ranges[0 := Range(Wrap(ranges[0].first + 1), ranges[0].last)];
      }
      return true, s;
    }

    method ContainsNumber(s: U16) returns (found: bool)
      ensures found == Contains(Circular, ranges, s)
    {
      var i := 0;
      while i < |ranges|
        invariant 0 <= i <= |ranges|
        invariant Contains(Circular, ranges, s) == Contains(Circular, ranges[i..], s)
      {
        if Le(Circular, ranges[i].first, s) && Ge(Circular, ranges[i].last, s) {
          return true;
        }
        assert ranges[i..][1..] == ranges[i + 1..];
        i := i + 1;
      }
      return false;
    }
  }
}
