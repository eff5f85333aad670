/** What acks and nacks say, what the sender remembers of them, and what it sends again. */
module UdtReports {
  import opened Bytes
  import opened Common
  import opened MissLists
  import opened SequenceNumbers
  import opened UdtEndpoint
  import opened UdtWorld
  import opened UdtSafety
  import opened UdtWrapAround
  import opened UdtInOrder
  import opened UdtTheorems

  // ------------------------------------------------------------ the list, number by number

  function Span(first: int, last: int): seq<int>
    decreases last - first
  {
    if first > last then [] else [first] + Span(first + 1, last)
  }

  /** The numbers of a list in the order in which they are taken off it. */
  function Listed(rs: seq<Range>): seq<int> {
    if rs == [] then [] else Span(rs[0].first, rs[0].last) + Listed(rs[1..])
  }

  lemma {:induction false} InSpan(first: int, last: int, n: int)
    ensures n in Span(first, last) <==> first <= n <= last
    decreases last - first
  {
    if first <= last {
      InSpan(first + 1, last, n);
    }
  }

  lemma {:induction false} ListedIsHeld(rs: seq<Range>, n: int)
    ensures n in Listed(rs) <==> Held(rs, n)
  {
    if rs != [] {
      InSpan(rs[0].first, rs[0].last, n);
      ListedIsHeld(rs[1..], n);
    }
  }

  lemma ListedCons(r: Range, tail: seq<Range>)
    ensures Listed([r] + tail) == Span(r.first, r.last) + Listed(tail)
  {
    assert ([r] + tail)[1..] == tail;
  }

  lemma ListedRest(rs: seq<Range>, hi: int)
    requires rs != [] && Proper(rs, hi)
    ensures Listed(rs) == [rs[0].first] + Listed(Rest(Unbounded, rs))
  {
    var f, l, tail := rs[0].first, rs[0].last, rs[1..];
    assert Span(f, l) == [f] + Span(f + 1, l);
    if f == l {
      assert Span(f + 1, l) == [] && Span(f, l) == [f];
    } else {
      ListedCons(Range(f + 1, l), tail);
      Regroup([f], Span(f + 1, l), Listed(tail));
    }
  }

  // ------------------------------------------------------------ what is sent again

  /** The packet with number n of a window that starts at number base. */
  predicate InWindow(win: seq<DataPacket>, base: int, n: int) {
    base <= n < base + |win|
  }

  /** The frames of the listed numbers, in their order, up to the first one that is not in the
      window: each number once, and only if its packet is due. */
  function DueFrames(win: seq<DataPacket>, base: int, ns: seq<int>, ackSeq: int, done: set<int>): seq<Datagram> {
    if ns == [] || !InWindow(win, base, ns[0]) then []
    else
      var p := win[ns[0] - base];
      (if ns[0] in done || !DueAgain(p, ackSeq) then [] else [Data(p.rxWinStart, p.num, p.data)])
      + DueFrames(win, base, ns[1..], ackSeq, done + {ns[0]})
  }

  lemma DueFramesStep(win: seq<DataPacket>, base: int, n: int, ns: seq<int>, ackSeq: int, done: set<int>)
    requires InWindow(win, base, n)
    ensures DueFrames(win, base, [n] + ns, ackSeq, done) ==
            (if n in done then [] else Resend(win[n - base], ackSeq)) + DueFrames(win, base, ns, ackSeq, done + {n})
  {
    assert ([n] + ns)[1..] == ns;
  }

  lemma DueFramesStop(win: seq<DataPacket>, base: int, n: int, ns: seq<int>, ackSeq: int, done: set<int>)
    requires !InWindow(win, base, n)
    ensures DueFrames(win, base, [n] + ns, ackSeq, done) == []
  {
  }

  // the window as the retransmission has marked it: what is done is not due any more
  predicate Marked(win: seq<DataPacket>, orig: seq<DataPacket>, base: int, ackSeq: int, done: set<int>) {
    && |win| == |orig|
    && forall i :: 0 <= i < |win| ==>
         && win[i] == orig[i].(lastSentAck := win[i].lastSentAck)
         && (base + i in done ==> !DueAgain(win[i], ackSeq))
         && (base + i !in done ==> win[i] == orig[i])
  }

  lemma MarkedIsNotDue(p: DataPacket, ackSeq: int)
    ensures !DueAgain(p.(lastSentAck := ackSeq + 1), ackSeq)
  {
    CircularOrder(ackSeq + 3, ackSeq);
  }

  lemma {:induction false} FindInWindow(win: seq<DataPacket>, base: int, log: seq<seq<U8>>, n: int)
    requires TxWindow(win, base, log)
    ensures FindNum(win, n) == if InWindow(win, base, n) then n - base else |win|
  {
    if win != [] && win[0].num != n {
      FindInWindow(win[1..], base + 1, log, n);
    }
  }

  lemma RemarkMarks(win: seq<DataPacket>, orig: seq<DataPacket>, base: int, ackSeq: int, done: set<int>, i: nat)
    requires Marked(win, orig, base, ackSeq, done) && i < |win|
    ensures Marked(Remark(Unbounded, win, i, ackSeq), orig, base, ackSeq, done + {base + i})
  {
    MarkedIsNotDue(win[i], ackSeq);
  }

  // one number taken off the list: its packet goes out if it is due and has not gone out before
  lemma MarkedResends(win: seq<DataPacket>, orig: seq<DataPacket>, base: int, ackSeq: int, done: set<int>, i: nat)
    requires Marked(win, orig, base, ackSeq, done) && i < |win|
    ensures Resend(win[i], ackSeq) == if base + i in done then [] else Resend(orig[i], ackSeq)
  {
  }

  lemma SendsStep(out: seq<Datagram>, now: seq<Datagram>, rest: seq<Datagram>, win: seq<DataPacket>, base: int, n: int,
                  ns: seq<int>, ackSeq: int, done: set<int>)
    requires InWindow(win, base, n) && out == now + rest
    requires now == if n in done then [] else Resend(win[n - base], ackSeq)
    requires rest == DueFrames(win, base, ns, ackSeq, done + {n})
    ensures out == DueFrames(win, base, [n] + ns, ackSeq, done)
  {
    DueFramesStep(win, base, n, ns, ackSeq, done);
  }

  // the marks a found number leaves, and the list it leaves
  lemma FoundMarks(win: seq<DataPacket>, rs: seq<Range>, ackSeq: int, base: int, log: seq<seq<U8>>, hi: int,
                   orig: seq<DataPacket>, done: set<int>)
    requires TxWindow(win, base, log) && rs != [] && Proper(rs, hi) && Marked(win, orig, base, ackSeq, done)
    requires InWindow(win, base, rs[0].first)
    ensures
      var n, rest := rs[0].first, Rest(Unbounded, rs);
      var win' := Remark(Unbounded, win, n - base, ackSeq);
      && TxWindow(win', base, log) && Proper(rest, hi) && PopCount(Unbounded, rest) < PopCount(Unbounded, rs)
      && Marked(win', orig, base, ackSeq, done + {n})
  {
    var i := rs[0].first - base;
    ProperRest(rs, hi);
    RemarkKeeps(win, i, ackSeq, base, log, 0);
    RemarkMarks(win, orig, base, ackSeq, done, i);
  }

  lemma FoundSends(win: seq<DataPacket>, rs: seq<Range>, ackSeq: int, base: int, log: seq<seq<U8>>, hi: int,
                   orig: seq<DataPacket>, done: set<int>)
    requires TxWindow(win, base, log) && rs != [] && Proper(rs, hi) && Marked(win, orig, base, ackSeq, done)
    requires InWindow(win, base, rs[0].first)
    requires
      var n, rest := rs[0].first, Rest(Unbounded, rs);
      RetransmitAll(Unbounded, Remark(Unbounded, win, n - base, ackSeq), rest, ackSeq).out ==
        DueFrames(orig, base, Listed(rest), ackSeq, done + {n})
    ensures RetransmitAll(Unbounded, win, rs, ackSeq).out == DueFrames(orig, base, Listed(rs), ackSeq, done)
  {
    var n, rest := rs[0].first, Rest(Unbounded, rs);
    var i := n - base;
    var win' := Remark(Unbounded, win, i, ackSeq);
    ProperRest(rs, hi);
    ListedRest(rs, hi);
    FindInWindow(win, base, log, n);
    MarkedResends(win, orig, base, ackSeq, done, i);
    FoundTurn(Unbounded, win, rs, ackSeq, i, rest, win');
    SendsStep(RetransmitAll(Unbounded, win, rs, ackSeq).out, Resend(win[i], ackSeq),
              RetransmitAll(Unbounded, win', rest, ackSeq).out, orig, base, n, Listed(rest), ackSeq, done);
  }

  lemma {:induction false} RetransmitSends(win: seq<DataPacket>, rs: seq<Range>, ackSeq: int, base: int,
                                           log: seq<seq<U8>>, hi: int, orig: seq<DataPacket>, done: set<int>)
    requires TxWindow(win, base, log) && Proper(rs, hi) && Marked(win, orig, base, ackSeq, done)
    ensures RetransmitAll(Unbounded, win, rs, ackSeq).out == DueFrames(orig, base, Listed(rs), ackSeq, done)
    decreases PopCount(Unbounded, rs)
  {
    if rs != [] {
      var n, rest := rs[0].first, Rest(Unbounded, rs);
      if InWindow(win, base, n) {
        FoundMarks(win, rs, ackSeq, base, log, hi, orig, done);
        RetransmitSends(Remark(Unbounded, win, n - base, ackSeq), rest, ackSeq, base, log, hi, orig, done + {n});
        FoundSends(win, rs, ackSeq, base, log, hi, orig, done);
      } else {
        ProperRest(rs, hi);
        ListedRest(rs, hi);
        FindInWindow(win, base, log, n);
        MissingTurn(Unbounded, win, rs, ackSeq, rest);
        DueFramesStop(orig, base, n, Listed(rest), ackSeq, done);
      }
    }
  }

  /** A retransmission sends exactly the due frames of its list, in the order of the list. */
  lemma RetransmitSendsDueFrames(tx: Tx, log: seq<seq<U8>>, written: seq<U8>, m: int)
    requires Sending(tx, log, written, m)
    ensures Retransmit(Unbounded, tx).out == DueFrames(tx.win, TxBase(tx, log), Listed(tx.missList), tx.ack2.ackSeq, {})
  {
    RetransmitSends(tx.win, tx.missList, tx.ack2.ackSeq, TxBase(tx, log), log, Sent(tx, log), tx.win, {});
  }

  lemma {:induction false} DueFramesHas(win: seq<DataPacket>, base: int, ns: seq<int>, ackSeq: int, done: set<int>,
                                        n: int)
    requires forall i :: 0 <= i < |ns| ==> InWindow(win, base, ns[i])
    requires n in ns && n !in done && InWindow(win, base, n) && DueAgain(win[n - base], ackSeq)
    ensures Frame(win[n - base]) in DueFrames(win, base, ns, ackSeq, done)
    decreases |ns|
  {
    if ns[0] != n {
      assert n in ns[1..];
      DueFramesHas(win, base, ns[1..], ackSeq, done + {ns[0]}, n);
    }
  }

  /** A packet goes out again at its first report, and after that only once the acks have moved
      on by four. */
  lemma FirstReportIsDue(tx: Tx, rxWinStart: int)
    requires CanPack(tx)
    ensures DueAgain(Pack(Unbounded, tx, rxWinStart).pending.value, tx.ack2.ackSeq)
  {
    CircularOrder(tx.ack2.ackSeq - 3, tx.ack2.ackSeq);
  }

  lemma ResentIsDueAfterFour(win: seq<DataPacket>, i: nat, ackSeq: int, later: int)
    requires i < |win| && DueAgain(win[i], ackSeq) && ackSeq <= later < ackSeq + HALF
    ensures DueAgain(Remark(Unbounded, win, i, ackSeq)[i], later) <==> later >= ackSeq + 4
  {
    CircularOrder(ackSeq + 3, later);
  }

  // ------------------------------------------------------------ the window's size

  /** In start-up the window grows by half of itself and one, rounded down, later by one; never
      past the remote window. */
  lemma GrowthRate(startUp: bool, w: int, remote: int)
    requires WindowSize(remote) && 1 <= w <= remote
    ensures
      var g := Grow(startUp, w, remote);
      && g <= remote
      && (startUp && g < remote ==> 3 * w + 1 <= 2 * g <= 3 * w + 2)
      && (!startUp && w < remote ==> g == w + 1)
      && (w == remote ==> g == w)
  {
  }

  /** A nack takes off a quarter in start-up and a tenth later, rounded in the window's
      disfavour, but leaves one packet. */
  lemma ShrinkRate(startUp: bool, w: int)
    requires 1 <= w
    ensures
      var s := Shrink(startUp, w);
      && s >= 1
      && (startUp && s > 1 ==> 4 * s <= 3 * w < 4 * s + 4)
      && (!startUp && s > 1 ==> 10 * s <= 9 * w < 10 * s + 10)
      && (s == 1 ==> w <= 2)
  {
  }

  /** Only the first nack after an ack shrinks the window, and start-up is over with it. */
  lemma OneShrinkPerAck(tx: Tx, s1: int, f1: int, l1: int, s2: int, f2: int, l2: int)
    requires 1 <= tx.winSize
    ensures
      var once := HandleNack(Unbounded, tx, s1, f1, l1);
      var twice := HandleNack(Unbounded, once, s2, f2, l2);
      && twice.winSize == once.winSize && !once.decOnNack && once.startedRetran
      && (tx.decOnNack ==> !once.startUp && once.winSize == Shrink(tx.startUp, tx.winSize))
      && (!tx.decOnNack ==> once.startUp == tx.startUp && once.winSize == tx.winSize)
  {
  }

  // ------------------------------------------------------------ over runs, on 16-bit numbers

  /** One action at one end: x is that end before it on unwrapped numbers, t what it does there. */
  ghost predicate Acted(before: World, after: World, atA: bool, x: Side, t: Turn) {
    && SideOf(before, atA) == WrapSide(x) && SideOf(after, atA) == WrapSide(t.side)
    && SideOf(after, !atA).inbox == SideOf(before, !atA).inbox + WrapNet(t.out)
  }

  lemma MeetActs(w: World, atA: bool, act: Action)
    requires Enabled(Unbounded, SideOf(w, atA), act)
    ensures
      var after, t := Next(Unbounded, w, Act(atA, act)), Perform(Unbounded, SideOf(w, atA), act);
      SideOf(after, atA) == t.side && SideOf(after, !atA).inbox == SideOf(w, !atA).inbox + t.out
  {
  }

  lemma ActedOnImage(w: World, after: World, atA: bool, t: Turn)
    requires SideOf(after, atA) == t.side && SideOf(after, !atA).inbox == SideOf(w, !atA).inbox + t.out
    ensures Acted(WrapWorld(w), WrapWorld(after), atA, SideOf(w, atA), t)
  {
    assert WrapNet(SideOf(w, !atA).inbox + t.out) == WrapNet(SideOf(w, !atA).inbox) + WrapNet(t.out);
  }

  /** The step from a run to the run with one more action, on 16-bit numbers. */
  lemma RunActs(windowA: int, windowB: int, steps: seq<Step>, atA: bool, act: Action)
    returns (x: Side, y: Side, t: Turn)
    requires Admissible(windowA, windowB, steps + [Act(atA, act)])
    requires Enabled(Unbounded, SideOf(Exec(Unbounded, Init(windowA, windowB), steps), atA), act)
    ensures x == SideOf(Exec(Unbounded, Init(windowA, windowB), steps), atA)
    ensures Enabled(Unbounded, x, act) && t == Perform(Unbounded, x, act)
    ensures if atA then Pair(x, y, windowA, windowB) else Pair(x, y, windowB, windowA)
    ensures Acted(Exec(Circular, Init(windowA, windowB), steps),
                  Exec(Circular, Init(windowA, windowB), steps + [Act(atA, act)]), atA, x, t)
    ensures SideOf(Exec(Unbounded, Init(windowA, windowB), steps + [Act(atA, act)]), atA) == t.side
  {
    var all := steps + [Act(atA, act)];
    assert all[..|all| - 1] == steps;
    WrapAroundIsInvisible(windowA, windowB, all);
    WrapAroundIsInvisible(windowA, windowB, steps);
    RunsAreGood(windowA, windowB, steps);
    var w := Exec(Unbounded, Init(windowA, windowB), steps);
    x, y := SideOf(w, atA), SideOf(w, !atA);
    t := Perform(Unbounded, x, act);
    MeetActs(w, atA, act);
    ActedOnImage(w, Next(Unbounded, w, Act(atA, act)), atA, t);
  }

  lemma {:induction false} ProperIsForward(rs: seq<Range>, hi: int)
    requires Proper(rs, hi)
    ensures Forward(rs)
  {
    if rs != [] {
      ProperIsForward(rs[1..], hi);
      assert forall i :: 0 < i < |rs| ==> rs[i] == rs[1..][i - 1];
    }
  }

  lemma NackInPair(x: Side, y: Side, mx: int, my: int, i: nat, s: int, first: int, last: int)
    requires Pair(x, y, mx, my) && i < |x.inbox| && x.inbox[i] == Nack(s, first, last)
    ensures first <= last
  {
    AllFeedbackPick(x.inbox, i, y.rx.ack.rxWinStart, Sent(x.tx, x.log), y.ackStarts, my);
  }

  /** After a nack the list holds what it held before and the whole nacked range - or only its
      last number in the one case in which adding forgets - and nothing else; and a
      retransmission is on its way. */
  lemma NackIsRemembered(windowA: int, windowB: int, steps: seq<Step>, atA: bool, i: nat, s: int, first: int, last: int,
                         n: int)
    requires Admissible(windowA, windowB, steps + [Act(atA, Receive(i))])
    requires
      var x := SideOf(Exec(Unbounded, Init(windowA, windowB), steps), atA);
      i < |x.inbox| && x.inbox[i] == Nack(s, first, last) && !x.tx.exited
    ensures
      var before := SideOf(Exec(Unbounded, Init(windowA, windowB), steps), atA).tx.missList;
      var after := SideOf(Exec(Unbounded, Init(windowA, windowB), steps + [Act(atA, Receive(i))]), atA).tx.missList;
      var tx := SideOf(Exec(Circular, Init(windowA, windowB), steps + [Act(atA, Receive(i))]), atA).tx;
      && tx.missList == WrapRanges(after) && tx.startedRetran && first <= last
      && (Held(after, n) <==>
          Held(before, n) || n == last || (first <= n <= last && !Swallows(before, first, last)))
  {
    var x, y, t := RunActs(windowA, windowB, steps, atA, Receive(i));
    var mx, my := if atA then windowA else windowB, if atA then windowB else windowA;
    NackInPair(x, y, mx, my, i, s, first, last);
    ProperIsForward(x.tx.missList, Sent(x.tx, x.log));
    AddExact(x.tx.missList, first, last, n);
    assert t.side.tx.missList == Add(Unbounded, x.tx.missList, first, last);
  }

  /** After an ack the list is the one the ack carries.  The ack asks for a retransmission exactly
      when the numbers it reports missing are not twice as many as its ranges. */
  lemma AckReplacesList(windowA: int, windowB: int, steps: seq<Step>, atA: bool, i: nat, ap: AckPacket)
    requires Admissible(windowA, windowB, steps + [Act(atA, Receive(i))])
    requires
      var x := SideOf(Exec(Unbounded, Init(windowA, windowB), steps), atA);
      i < |x.inbox| && x.inbox[i] == Ack(ap) && !x.tx.exited
    ensures
      var was := SideOf(Exec(Circular, Init(windowA, windowB), steps), atA);
      var tx := SideOf(Exec(Circular, Init(windowA, windowB), steps + [Act(atA, Receive(i))]), atA).tx;
      && i < |was.inbox| && was.inbox[i].Ack? && tx.missList == was.inbox[i].ack.missed
      && tx.missList == WrapRanges(ap.missed)
      && (tx.startedRetran <==> was.tx.startedRetran || |Listed(ap.missed)| != 2 * |ap.missed|)
      && tx.ack2.ackSeq == was.inbox[i].ack.ackSeq && tx.decOnNack
  {
    var x, y, t := RunActs(windowA, windowB, steps, atA, Receive(i));
    var mx, my := if atA then windowA else windowB, if atA then windowB else windowA;
    AckInPair(x, y, mx, my, i, ap);
    AckLands(x, t, i, ap);
    AckImage(WrapSide(x), WrapSide(t.side), x, t.side, i, ap);
  }

  lemma AckLands(x: Side, t: Turn, i: nat, ap: AckPacket)
    requires i < |x.inbox| && x.inbox[i] == Ack(ap) && Forward(ap.missed)
    requires Enabled(Unbounded, x, Receive(i)) && t == Perform(Unbounded, x, Receive(i))
    ensures t.side.tx.missList == ap.missed
    ensures t.side.tx.startedRetran <==> x.tx.startedRetran || |Listed(ap.missed)| != 2 * |ap.missed|
    ensures t.side.tx.ack2.ackSeq == ap.ackSeq && t.side.tx.decOnNack
  {
    ReportedSizeOfListed(ap.missed);
    assert t.side.tx == HandleAck(Unbounded, x.tx, ap).tx;
  }

  lemma AckImage(was: Side, now: Side, x: Side, z: Side, i: nat, ap: AckPacket)
    requires was == WrapSide(x) && now == WrapSide(z) && i < |x.inbox| && x.inbox[i] == Ack(ap)
    requires z.tx.missList == ap.missed && z.tx.ack2.ackSeq == ap.ackSeq && z.tx.decOnNack
    ensures i < |was.inbox| && was.inbox[i].Ack? && now.tx.missList == was.inbox[i].ack.missed
    ensures now.tx.missList == WrapRanges(ap.missed) && now.tx.startedRetran == z.tx.startedRetran
    ensures was.tx.startedRetran == x.tx.startedRetran
    ensures now.tx.ack2.ackSeq == was.inbox[i].ack.ackSeq && now.tx.decOnNack
  {
  }

  lemma AckInPair(x: Side, y: Side, mx: int, my: int, i: nat, ap: AckPacket)
    requires Pair(x, y, mx, my) && i < |x.inbox| && x.inbox[i] == Ack(ap)
    ensures Forward(ap.missed)
  {
    AllFeedbackPick(x.inbox, i, y.rx.ack.rxWinStart, Sent(x.tx, x.log), y.ackStarts, my);
    SpansProper(ap.missed, ap.rxWinStart, ap.rxWinEnd);
    ProperIsForward(ap.missed, ap.rxWinEnd);
  }

  /** The size that is computed falls short by one for every number past the first in a range. */
  lemma {:induction false} ReportedSizeOfListed(rs: seq<Range>)
    requires Forward(rs)
    ensures ReportedSize(Unbounded, rs) == 2 * |rs| - |Listed(rs)|
  {
    if rs != [] {
      SpanLength(rs[0].first, rs[0].last);
      ReportedSizeOfListed(rs[1..]);
    }
  }

  /** Two lost packets in a row are the smallest case: the ack that reports them, and nothing
      else, asks for no retransmission. */
  lemma TwoInARowAreNotAskedFor(tx: Tx, ap: AckPacket, n: int)
    requires ap.missed == [Range(Wrap(n), Wrap(n + 1))]
    ensures HandleAck(Circular, tx, ap).tx.startedRetran == tx.startedRetran
    ensures HandleAck(Circular, tx, ap).tx.missList != []
  {
    CircularOrder(n + 1, n);
    assert ReportedSize(Circular, ap.missed) == Distance(Circular, Wrap(n + 1), Wrap(n)) + 1;
  }

  /** A retransmission puts exactly the due frames of its list in flight, in the list's order. */
  lemma ReportedIsResent(windowA: int, windowB: int, steps: seq<Step>, atA: bool)
    requires Admissible(windowA, windowB, steps + [Act(atA, RunRetransmit)])
    requires
      var x := SideOf(Exec(Unbounded, Init(windowA, windowB), steps), atA);
      x.tx.startedRetran && !x.tx.exited
    ensures
      var x := SideOf(Exec(Unbounded, Init(windowA, windowB), steps), atA);
      SideOf(Exec(Circular, Init(windowA, windowB), steps + [Act(atA, RunRetransmit)]), !atA).inbox ==
        SideOf(Exec(Circular, Init(windowA, windowB), steps), !atA).inbox +
        WrapNet(DueFrames(x.tx.win, TxBase(x.tx, x.log), Listed(x.tx.missList), x.tx.ack2.ackSeq, {}))
  {
    var x, y, t := RunActs(windowA, windowB, steps, atA, RunRetransmit);
    RetransmitSendsDueFrames(x.tx, x.log, x.written, if atA then windowB else windowA);
  }

  /** In particular every listed number that is due, unless the retransmitter ends the process. */
  lemma EveryDueNumberIsResent(tx: Tx, log: seq<seq<U8>>, written: seq<U8>, m: int, n: int)
    requires Sending(tx, log, written, m) && !Passed(tx, log) && Held(tx.missList, n)
    ensures
      var base := TxBase(tx, log);
      && InWindow(tx.win, base, n)
      && (DueAgain(tx.win[n - base], tx.ack2.ackSeq) ==>
            Frame(tx.win[n - base]) in DueFrames(tx.win, base, Listed(tx.missList), tx.ack2.ackSeq, {}))
  {
    var ns, base := Listed(tx.missList), TxBase(tx, log);
    forall i | 0 <= i < |ns|
      ensures InWindow(tx.win, base, ns[i])
    {
      ListedIsHeld(tx.missList, ns[i]);
      ProperBounds(tx.missList, Sent(tx, log), ns[i]);
    }
    ListedIsHeld(tx.missList, n);
    if DueAgain(tx.win[n - base], tx.ack2.ackSeq) {
      DueFramesHas(tx.win, base, ns, tx.ack2.ackSeq, {}, n);
    }
  }

  /** The ack kept is the newest handled: its number and its window start are the largest of
      both, so the room to send never shrinks back. */
  lemma NewestAckIsKept(windowA: int, windowB: int, steps: seq<Step>, atA: bool, i: nat, ap: AckPacket)
    requires Admissible(windowA, windowB, steps + [Act(atA, Receive(i))])
    requires
      var x := SideOf(Exec(Unbounded, Init(windowA, windowB), steps), atA);
      i < |x.inbox| && x.inbox[i] == Ack(ap) && !x.tx.exited
    ensures
      var was := SideOf(Exec(Unbounded, Init(windowA, windowB), steps), atA).tx.lastRxAck;
      var now := SideOf(Exec(Unbounded, Init(windowA, windowB), steps + [Act(atA, Receive(i))]), atA).tx.lastRxAck;
      var kept := SideOf(Exec(Circular, Init(windowA, windowB), steps + [Act(atA, Receive(i))]), atA).tx.lastRxAck;
      && kept.ackSeq == Wrap(now.ackSeq) && kept.rxWinStart == Wrap(now.rxWinStart)
      && was.ackSeq <= now.ackSeq && ap.ackSeq <= now.ackSeq && now == (if was.ackSeq <= ap.ackSeq then ap else was)
      && was.rxWinStart <= now.rxWinStart && ap.rxWinStart <= now.rxWinStart
  {
    var x, y, t := RunActs(windowA, windowB, steps, atA, Receive(i));
    KeptAck(x, y, if atA then windowA else windowB, if atA then windowB else windowA, i, ap);
    assert t.side.tx.lastRxAck == HandleAck(Unbounded, x.tx, ap).tx.lastRxAck;
  }

  lemma KeptAck(x: Side, y: Side, mx: int, my: int, i: nat, ap: AckPacket)
    requires Pair(x, y, mx, my) && i < |x.inbox| && x.inbox[i] == Ack(ap)
    ensures
      var was, now := x.tx.lastRxAck, HandleAck(Unbounded, x.tx, ap).tx.lastRxAck;
      && was.ackSeq <= now.ackSeq && ap.ackSeq <= now.ackSeq && now == (if was.ackSeq <= ap.ackSeq then ap else was)
      && was.rxWinStart <= now.rxWinStart && ap.rxWinStart <= now.rxWinStart
  {
    AllFeedbackPick(x.inbox, i, y.rx.ack.rxWinStart, Sent(x.tx, x.log), y.ackStarts, my);
    var was := x.tx.lastRxAck;
    if was.ackSeq <= ap.ackSeq {
      NewerAckIsAhead(was, ap, y.rx.ack, y.ackStarts);
    } else {
      assert y.ackStarts[ap.ackSeq - 1] <= y.ackStarts[was.ackSeq - 1];
    }
  }

  // ------------------------------------------------------------ what the receiver reports

  lemma NoGapNoNack(rx: Rx, delivered: seq<U8>, log: seq<seq<U8>>, sent: int, m: int, p: DataPacket, n: int)
    requires Receiving(rx, delivered, log, sent, m) && p.num <= rx.ack.rxWinEnd + 1
    ensures
      var e := Accept(Unbounded, rx, p);
      e.out == [] && (Held(e.rx.ack.missed, n) ==> Held(rx.ack.missed, n))
  {
    var lo, hi, missed := rx.ack.rxWinStart, rx.ack.rxWinEnd, rx.ack.missed;
    RemoveExact(missed, lo, hi, p.num, n);
    RemoveExact(Remove(Unbounded, missed, p.num), lo, hi, p.num, n);
  }

  lemma GapNack(rx: Rx, delivered: seq<U8>, log: seq<seq<U8>>, sent: int, m: int, p: DataPacket)
    requires Receiving(rx, delivered, log, sent, m) && p.num > rx.ack.rxWinEnd + 1 && p.num < rx.ack.rxWinStart + m
    ensures
      var e := Accept(Unbounded, rx, p);
      && e.out == [Nack(rx.ack.rxWinStart, rx.ack.rxWinEnd + 1, p.num - 1)]
      && e.rx.ack.missed == Add(Unbounded, Remove(Unbounded, rx.ack.missed, p.num), rx.ack.rxWinEnd + 1, p.num - 1)
  {
  }

  /** A packet that leaves a gap is answered with a nack of exactly the numbers that are newly
      missing, the ones between the old end of the window and the packet; any other packet is
      answered with nothing and makes nothing missing. */
  lemma GapIsNacked(rx: Rx, delivered: seq<U8>, log: seq<seq<U8>>, sent: int, m: int, p: DataPacket, n: int)
    requires Receiving(rx, delivered, log, sent, m) && sent < rx.ack.rxWinStart + m && 1 <= p.num <= sent
    ensures
      var e := Accept(Unbounded, rx, p);
      var newly := Held(e.rx.ack.missed, n) && !Held(rx.ack.missed, n);
      && (p.num <= rx.ack.rxWinEnd + 1 ==> e.out == [] && !newly)
      && (p.num > rx.ack.rxWinEnd + 1 ==>
            && e.out == [Nack(rx.ack.rxWinStart, rx.ack.rxWinEnd + 1, p.num - 1)]
            && (newly <==> rx.ack.rxWinEnd < n < p.num))
  {
    if p.num <= rx.ack.rxWinEnd + 1 {
      NoGapNoNack(rx, delivered, log, sent, m, p, n);
    } else {
      GapNack(rx, delivered, log, sent, m, p);
      NewlyMissing(rx.ack.missed, rx.ack.rxWinStart, rx.ack.rxWinEnd, p.num, n);
    }
  }

  lemma NewlyMissing(missed: seq<Range>, lo: int, hi: int, num: int, n: int)
    requires Spans(missed, lo, hi) && lo <= hi + 1 < num
    ensures
      var after := Add(Unbounded, Remove(Unbounded, missed, num), hi + 1, num - 1);
      Held(after, n) && !Held(missed, n) <==> hi < n < num
  {
    RemoveExact(missed, lo, hi, num, n);
    AppendExact(Remove(Unbounded, missed, num), lo, hi + 1, num - 1, n);
    if Held(missed, n) { SpansBounds(missed, lo, hi, n); }
  }

  /** The datagram is an ack that tells this receiver's window as it is: where it starts and
      ends, under the next ack number, and the first 128 ranges of what it misses. */
  predicate Tells(d: Datagram, rx: Rx) {
    && d.Ack? && d.ack.rxWinStart == rx.ack.rxWinStart && d.ack.rxWinEnd == rx.ack.rxWinEnd
    && d.ack.rxWinSize == rx.ack.rxWinSize && d.ack.ackSeq == Wrap(rx.ack.ackSeq + 1)
    && d.ack.missed <= rx.ack.missed && |d.ack.missed| == if |rx.ack.missed| < 128 then |rx.ack.missed| else 128
  }

  lemma SynTells(x: Side)
    ensures
      var out := WrapNet(Acknowledge(Unbounded, x).out);
      |out| == 1 && Tells(out[0], WrapSide(x).rx)
  {
    WrapPlus(x.rx.ack.ackSeq, 1);
    WrapOnWire(x.rx.ack.missed);
  }

  /** Every ack tells the receiver's window as it is, on 16-bit numbers. */
  lemma AckReportsWindow(windowA: int, windowB: int, steps: seq<Step>, atA: bool)
    requires Admissible(windowA, windowB, steps + [Act(atA, OnSyn)])
    requires !SideOf(Exec(Unbounded, Init(windowA, windowB), steps), atA).tx.exited
    ensures
      var was := SideOf(Exec(Circular, Init(windowA, windowB), steps), !atA).inbox;
      var now := SideOf(Exec(Circular, Init(windowA, windowB), steps + [Act(atA, OnSyn)]), !atA).inbox;
      && |now| == |was| + 1 && now[..|was|] == was
      && Tells(now[|was|], SideOf(Exec(Circular, Init(windowA, windowB), steps), atA).rx)
  {
    var x, y, t := RunActs(windowA, windowB, steps, atA, OnSyn);
    SynTells(x);
    assert t == Acknowledge(Unbounded, x);
  }

  // ------------------------------------------------------------ cutting writes into packets

  /** A packet takes the next 1200 bytes of the write, or all that is left. */
  lemma PacketsAreFull(tx: Tx, rxWinStart: int)
    requires CanPack(tx)
    ensures
      var tx' := Pack(Unbounded, tx, rxWinStart);
      && tx'.pending.Some? && tx'.pending.value.data + tx'.unsent == tx.unsent
      && 1 <= |tx'.pending.value.data| <= 1200 && (tx'.unsent != [] ==> |tx'.pending.value.data| == 1200)
      && tx'.pending.value.num == tx.nextTxSeq + 1 && tx'.pending.value.rxWinStart == rxWinStart
  {
  }

  /** A packet that waits may be sent exactly while fewer packets than the window's size have
      numbers from the start the peer last reported up to its own; on 16-bit numbers too. */
  lemma RoomToSend(tx: Tx, log: seq<seq<U8>>, written: seq<U8>, m: int)
    requires Sending(tx, log, written, m) && WindowSize(m)
    ensures CanSend(Circular, WrapTx(tx)) <==> |Span(tx.lastRxAck.rxWinStart, tx.nextTxSeq)| <= tx.winSize
  {
    WrapCanSend(tx, log, written, m);
    SpanLength(tx.lastRxAck.rxWinStart, tx.nextTxSeq);
  }

  lemma {:induction false} SpanLength(first: int, last: int)
    ensures |Span(first, last)| == if first <= last then last - first + 1 else 0
    decreases last - first
  {
    if first <= last { SpanLength(first + 1, last); }
  }

  /** An ack sets the remote window and lets the own window grow towards it, by half and one in
      start-up and by one later. */
  lemma AckGrowsWindow(tx: Tx, ap: AckPacket)
    requires WindowSize(ap.rxWinSize) && 1 <= tx.winSize <= ap.rxWinSize
    ensures
      var tx' := HandleAck(Unbounded, tx, ap).tx;
      && tx'.remoteRxWin == ap.rxWinSize && tx'.winSize <= ap.rxWinSize && tx'.startUp == tx.startUp
      && (tx.startUp && tx'.winSize < ap.rxWinSize ==> 3 * tx.winSize + 1 <= 2 * tx'.winSize <= 3 * tx.winSize + 2)
      && (!tx.startUp && tx.winSize < ap.rxWinSize ==> tx'.winSize == tx.winSize + 1)
  {
    GrowthRate(tx.startUp, tx.winSize, ap.rxWinSize);
  }

  /** An ack is answered, exactly if there was room to send before it, with an ack2 that echoes
      its number and names the last packet given a number. */
  lemma AckIsEchoed(windowA: int, windowB: int, steps: seq<Step>, atA: bool, i: nat, ap: AckPacket)
    requires Admissible(windowA, windowB, steps + [Act(atA, Receive(i))])
    requires
      var x := SideOf(Exec(Unbounded, Init(windowA, windowB), steps), atA);
      i < |x.inbox| && x.inbox[i] == Ack(ap) && !x.tx.exited
    ensures
      var tx := SideOf(Exec(Circular, Init(windowA, windowB), steps), atA).tx;
      var was := SideOf(Exec(Circular, Init(windowA, windowB), steps), !atA).inbox;
      var now := SideOf(Exec(Circular, Init(windowA, windowB), steps + [Act(atA, Receive(i))]), !atA).inbox;
      if CanSend(Circular, tx) then
        && |now| == |was| + 1 && now[..|was|] == was && now[|was|].Ack2?
        && now[|was|].ack.ackSeq == Wrap(ap.ackSeq) && now[|was|].ack.rxWinStart == tx.nextTxSeq
      else now == was
  {
    var x, y, t := RunActs(windowA, windowB, steps, atA, Receive(i));
    WrapCanSend(x.tx, x.log, x.written, if atA then windowB else windowA);
    assert t.out == HandleAck(Unbounded, x.tx, ap).out;
    assert !CanSend(Unbounded, x.tx) ==> WrapNet(t.out) == [];
    assert CanSend(Unbounded, x.tx) ==> WrapNet(t.out)[0] == WrapDatagram(t.out[0]);
  }
}
