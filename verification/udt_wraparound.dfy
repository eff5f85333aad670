/** Sixteen bits are enough: while no number in use is half the sequence space away
    from the number it is compared with, the run on 16-bit sequence numbers is the
    image of the run on numbers that never wrap. */
module UdtWrapAround {
  import opened Bytes
  import opened Common
  import opened MissLists
  import opened SequenceNumbers
  import opened UdtEndpoint
  import opened UdtWorld
  import opened UdtSafety

  // ------------------------------------------------------- the 16-bit image

  function WrapPacket(p: DataPacket): DataPacket {
    DataPacket(Wrap(p.rxWinStart), Wrap(p.num), p.data, Wrap(p.lastSentAck))
  }

  function WrapPackets(win: seq<DataPacket>): seq<DataPacket> {
    seq(|win|, i requires 0 <= i < |win| => WrapPacket(win[i]))
  }

  function WrapAck(a: AckPacket): AckPacket {
    AckPacket(Wrap(a.rxWinStart), a.rxWinSize, Wrap(a.rxWinEnd), Wrap(a.ackSeq), WrapRanges(a.missed))
  }

  function WrapDatagram(d: Datagram): Datagram {
    match d
    case Data(start, num, payload) => Data(Wrap(start), Wrap(num), payload)
    case Ack(ap) => Ack(WrapAck(ap))
    case Nack(start, first, last) => Nack(Wrap(start), Wrap(first), Wrap(last))
    case Ack2(ap) => Ack2(WrapAck(ap))
  }

  function WrapNet(net: seq<Datagram>): seq<Datagram> {
    seq(|net|, i requires 0 <= i < |net| => WrapDatagram(net[i]))
  }

  function WrapPending(p: Option<DataPacket>): Option<DataPacket> {
    if p.Some? then Some(WrapPacket(p.value)) else None
  }

  function WrapTx(tx: Tx): Tx {
    tx.(nextTxSeq := Wrap(tx.nextTxSeq),
        win := WrapPackets(tx.win),
        lastRxAck := WrapAck(tx.lastRxAck),
        ack2 := WrapAck(tx.ack2),
        missList := WrapRanges(tx.missList),
        pending := WrapPending(tx.pending))
  }

  function WrapRx(rx: Rx): Rx {
    rx.(ack := WrapAck(rx.ack), win := WrapPackets(rx.win), ack2 := WrapAck(rx.ack2))
  }

  function WrapNumbers(s: seq<int>): seq<int> {
    seq(|s|, i requires 0 <= i < |s| => Wrap(s[i]))
  }

  function WrapSide(s: Side): Side {
    Side(WrapTx(s.tx), WrapRx(s.rx), WrapNet(s.inbox), s.written, s.delivered, s.log, WrapNumbers(s.ackStarts))
  }

  function WrapTurn(t: Turn): Turn {
    Turn(WrapSide(t.side), WrapNet(t.out))
  }

  function WrapWorld(w: World): World {
    World(WrapSide(w.a), WrapSide(w.b))
  }

  // ------------------------------------------------------------- the premise

  // the first comparison an incoming window start meets
  predicate StartInReach(tx: Tx, start: int) {
    tx.win != [] ==> Near(tx.win[0].num, start)
  }

  /** No number in the datagram is half the sequence space away from the number it
      meets first at its destination. */
  predicate InReach(s: Side, d: Datagram) {
    match d
    case Data(start, num, _) => StartInReach(s.tx, start) && Near(num, s.rx.ack.rxWinEnd + 1)
    case Ack(ap) => StartInReach(s.tx, ap.rxWinStart) && Near(ap.ackSeq, s.tx.lastRxAck.ackSeq)
    case Nack(start, first, last) =>
      StartInReach(s.tx, start) && AllNear(s.tx.missList, first) && AllNear(s.tx.missList, last + 1)
    case Ack2(_) => true
  }

  /** The same for the numbers a retransmission works through, all of them named by acks and
      nacks handled before it. */
  predicate RetransmitInReach(tx: Tx) {
    AllNear(tx.missList, tx.nextTxSeq)
  }

  predicate ActionInReach(s: Side, act: Action) {
    match act
    case Receive(i) => i < |s.inbox| ==> InReach(s, s.inbox[i])
    case RunRetransmit => RetransmitInReach(s.tx)
    case _ => true
  }

  predicate StepInReach(w: World, step: Step) {
    step.Act? ==> ActionInReach(if step.atA then w.a else w.b, step.action)
  }

  /** Every step of the run is in reach, judged on the unwrapped shadow. */
  predicate RunInReach(windowA: int, windowB: int, steps: seq<Step>) {
    steps == [] ||
    (var before := steps[..|steps| - 1];
     && RunInReach(windowA, windowB, before)
     && StepInReach(Exec(Unbounded, Init(windowA, windowB), before), steps[|steps| - 1]))
  }

  // ---------------------------------------------------------------- sending

  lemma WrapCanSend(tx: Tx, log: seq<seq<U8>>, written: seq<U8>, m: int)
    requires Sending(tx, log, written, m) && WindowSize(m)
    ensures CanSend(Circular, WrapTx(tx)) <==> CanSend(Unbounded, tx)
  {
    WrapPlus(tx.lastRxAck.rxWinStart, tx.winSize);
    CircularOrder(tx.nextTxSeq, tx.lastRxAck.rxWinStart + tx.winSize);
  }

  lemma WrapPack(tx: Tx, start: int)
    requires CanPack(tx)
    ensures CanPack(WrapTx(tx)) && Pack(Circular, WrapTx(tx), Wrap(start)) == WrapTx(Pack(Unbounded, tx, start))
  {
    WrapPlus(tx.nextTxSeq, 1);
    WrapPlus(tx.ack2.ackSeq, -5);
  }

  lemma WrapCommit(tx: Tx)
    requires tx.pending.Some?
    ensures Commit(WrapTx(tx)).tx == WrapTx(Commit(tx).tx) && Commit(WrapTx(tx)).out == WrapNet(Commit(tx).out)
  {
    assert WrapPackets(tx.win + [tx.pending.value]) == WrapPackets(tx.win) + [WrapPacket(tx.pending.value)];
  }

  lemma {:induction false} WrapDropBelow(win: seq<DataPacket>, base: int, log: seq<seq<U8>>, s: int)
    requires TxWindow(win, base, log) && (win != [] ==> Near(win[0].num, s)) && s <= base + |win|
    ensures DropBelow(Circular, WrapPackets(win), Wrap(s)) == WrapPackets(DropBelow(Unbounded, win, s))
  {
    if win != [] {
      assert WrapPackets(win)[1..] == WrapPackets(win[1..]);
      CircularOrder(win[0].num, s);
      if win[0].num < s { WrapDropBelow(win[1..], base + 1, log, s); }
    }
  }

  lemma WrapAdvance(tx: Tx, log: seq<seq<U8>>, written: seq<U8>, m: int, s: int)
    requires Sending(tx, log, written, m) && StartInReach(tx, s) && s <= Sent(tx, log) + 1
    ensures AdvanceTx(Circular, WrapTx(tx), Wrap(s)) == WrapTx(AdvanceTx(Unbounded, tx, s))
  {
    WrapDropBelow(tx.win, TxBase(tx, log), log, s);
  }

  lemma WrapHandleAck(tx: Tx, log: seq<seq<U8>>, written: seq<U8>, m: int, ap: AckPacket, start: int, acks: seq<int>)
    requires Sending(tx, log, written, m) && WindowSize(m)
    requires GoodFeedback(Ack(ap), start, Sent(tx, log), acks, m) && start <= Sent(tx, log) + 1
    requires StartInReach(tx, ap.rxWinStart) && Near(ap.ackSeq, tx.lastRxAck.ackSeq)
    ensures
      var e := HandleAck(Unbounded, tx, ap);
      HandleAck(Circular, WrapTx(tx), WrapAck(ap)) == TxEffect(WrapTx(e.tx), WrapNet(e.out))
  {
    WrapCanSend(tx, log, written, m);
    WrapDropBelow(tx.win, TxBase(tx, log), log, ap.rxWinStart);
    WrapReportedSize(ap.missed, ap.rxWinStart, ap.rxWinEnd);
    CircularOrder(ap.ackSeq, tx.lastRxAck.ackSeq);
    var e := HandleAck(Unbounded, tx, ap);
    assert WrapNet([Ack2(e.tx.ack2)]) == [Ack2(WrapAck(e.tx.ack2))];
    assert WrapNet([]) == [];
  }

  lemma WrapHandleNack(tx: Tx, log: seq<seq<U8>>, written: seq<U8>, m: int, s: int, first: int, last: int)
    requires Sending(tx, log, written, m) && StartInReach(tx, s) && s <= Sent(tx, log) + 1
    requires AllNear(tx.missList, first) && AllNear(tx.missList, last + 1)
    ensures HandleNack(Circular, WrapTx(tx), Wrap(s), Wrap(first), Wrap(last)) ==
            WrapTx(HandleNack(Unbounded, tx, s, first, last))
  {
    WrapAdvance(tx, log, written, m, s);
    WrapAdd(tx.missList, first, last);
  }

  lemma {:induction false} WrapFindNum(win: seq<DataPacket>, n: int, base: int, log: seq<seq<U8>>)
    requires TxWindow(win, base, log) && n < base + MODULUS && base + |win| <= n + MODULUS
    ensures FindNum(WrapPackets(win), Wrap(n)) == FindNum(win, n)
  {
    if win != [] {
      assert WrapPackets(win)[1..] == WrapPackets(win[1..]);
      WrapInjective(win[0].num, n);
      if win[0].num != n { WrapFindNum(win[1..], n, base + 1, log); }
    }
  }

  lemma WrapRemark(win: seq<DataPacket>, i: nat, ackSeq: int)
    requires i < |win|
    ensures Remark(Circular, WrapPackets(win), i, Wrap(ackSeq)) == WrapPackets(Remark(Unbounded, win, i, ackSeq))
    ensures Resend(WrapPacket(win[i]), Wrap(ackSeq)) == WrapNet(Resend(win[i], ackSeq))
  {
    WrapPlus(win[i].lastSentAck, 2);
    WrapPlus(ackSeq, 1);
  }

  lemma WrapRestNear(rs: seq<Range>, base: int, hi: int)
    requires rs != [] && Proper(rs, hi) && AllNear(rs, base)
    ensures Rest(Circular, WrapRanges(rs)) == WrapRanges(Rest(Unbounded, rs))
    ensures PopCount(Circular, Rest(Circular, WrapRanges(rs))) < PopCount(Circular, WrapRanges(rs))
    ensures AllNear(Rest(Unbounded, rs), base)
  {
    WrapInjective(rs[0].first, rs[0].last);
    WrapRest(rs);
    PopCountRest(WrapRanges(rs));
    if rs[0].first != rs[0].last { assert Rest(Unbounded, rs)[1..] == rs[1..]; }
  }

  function WrapRetransmission(r: Retransmission): Retransmission {
    Retransmission(WrapPackets(r.win), WrapRanges(r.rest), WrapNet(r.out), r.exited)
  }

  // one turn of the retransmission loop, unfolded
  lemma FoundTurn(ar: Arith, win: seq<DataPacket>, rs: seq<Range>, ackSeq: int, i: nat, rest: seq<Range>,
                  win': seq<DataPacket>)
    requires rs != [] && rest == Rest(ar, rs) && PopCount(ar, rest) < PopCount(ar, rs)
    requires i == FindNum(win, rs[0].first) < |win| && win' == Remark(ar, win, i, ackSeq)
    ensures
      var r := RetransmitAll(ar, win', rest, ackSeq);
      RetransmitAll(ar, win, rs, ackSeq) == r.(out := Resend(win[i], ackSeq) + r.out)
  {
  }

  lemma MissingTurn(ar: Arith, win: seq<DataPacket>, rs: seq<Range>, ackSeq: int, rest: seq<Range>)
    requires rs != [] && rest == Rest(ar, rs) && PopCount(ar, rest) < PopCount(ar, rs)
    requires FindNum(win, rs[0].first) == |win|
    ensures RetransmitAll(ar, win, rs, ackSeq) == Retransmission(win, rest, [], true)
  {
  }

  lemma WrapOutputs(r: Retransmission, now: seq<Datagram>)
    ensures WrapRetransmission(r.(out := now + r.out)) == WrapRetransmission(r).(out := WrapNet(now) + WrapNet(r.out))
  {
    assert WrapNet(now + r.out) == WrapNet(now) + WrapNet(r.out);
  }

  lemma {:induction false} WrapRetransmitAll(win: seq<DataPacket>, rs: seq<Range>, ackSeq: int, base: int,
                                             log: seq<seq<U8>>, next: int, hi: int)
    requires TxWindow(win, base, log) && |win| < HALF && base + |win| - 1 <= next <= base + |win|
    requires Proper(rs, hi) && AllNear(rs, next)
    ensures RetransmitAll(Circular, WrapPackets(win), WrapRanges(rs), Wrap(ackSeq))
         == WrapRetransmission(RetransmitAll(Unbounded, win, rs, ackSeq))
    decreases PopCount(Unbounded, rs)
  {
    if rs == [] {
      assert WrapNet([]) == [];
    } else {
      ProperRest(rs, hi);
      WrapRestNear(rs, next, hi);
      WrapFindNum(win, rs[0].first, base, log);
      var i, rest := FindNum(win, rs[0].first), Rest(Unbounded, rs);
      if i < |win| {
        var win' := Remark(Unbounded, win, i, ackSeq);
        WrapRemark(win, i, ackSeq);
        RemarkKeeps(win, i, ackSeq, base, log, 0);
        WrapRetransmitAll(win', rest, ackSeq, base, log, next, hi);
        FoundTurn(Unbounded, win, rs, ackSeq, i, rest, win');
        FoundTurn(Circular, WrapPackets(win), WrapRanges(rs), Wrap(ackSeq), i, WrapRanges(rest), WrapPackets(win'));
        WrapOutputs(RetransmitAll(Unbounded, win', rest, ackSeq), Resend(win[i], ackSeq));
      } else {
        MissingTurn(Unbounded, win, rs, ackSeq, rest);
        MissingTurn(Circular, WrapPackets(win), WrapRanges(rs), Wrap(ackSeq), WrapRanges(rest));
        assert WrapNet([]) == [];
      }
    }
  }

  lemma WrapRetransmit(tx: Tx, log: seq<seq<U8>>, written: seq<U8>, m: int)
    requires Sending(tx, log, written, m) && WindowSize(m) && RetransmitInReach(tx)
    ensures
      var e := Retransmit(Unbounded, tx);
      Retransmit(Circular, WrapTx(tx)) == TxEffect(WrapTx(e.tx), WrapNet(e.out))
  {
    WrapRetransmitAll(tx.win, tx.missList, tx.ack2.ackSeq, TxBase(tx, log), log, tx.nextTxSeq, Sent(tx, log));
  }

  // --------------------------------------------------------------- receiving

  lemma {:induction false} WrapPresent(win: seq<DataPacket>, lo: int, hi: int, n: int)
    requires Ascending(win, lo, hi) && Near(lo, n) && Near(hi, n)
    ensures Present(Circular, WrapPackets(win), Wrap(n)) <==> Present(Unbounded, win, n)
  {
    if win != [] {
      assert WrapPackets(win)[1..] == WrapPackets(win[1..]);
      CircularOrder(win[0].num, n);
      if win[0].num < n { WrapPresent(win[1..], win[0].num + 1, hi, n); }
    }
  }

  lemma {:induction false} WrapInsert(win: seq<DataPacket>, lo: int, hi: int, p: DataPacket)
    requires Ascending(win, lo, hi) && Near(lo, p.num) && Near(hi, p.num)
    ensures Insert(Circular, WrapPackets(win), WrapPacket(p)) == WrapPackets(Insert(Unbounded, win, p))
  {
    if win != [] {
      assert WrapPackets(win)[1..] == WrapPackets(win[1..]);
      CircularOrder(win[0].num, p.num);
      if win[0].num < p.num { WrapInsert(win[1..], win[0].num + 1, hi, p); }
    }
  }

  lemma WrapAcceptOrders(ack: AckPacket, n: int)
    requires WindowSize(ack.rxWinSize) && ack.rxWinStart <= ack.rxWinEnd + 1
    requires n < ack.rxWinStart + ack.rxWinSize && Near(n, ack.rxWinEnd + 1)
    ensures Norm(Circular, Wrap(ack.rxWinEnd) + 1) == Wrap(ack.rxWinEnd + 1)
    ensures Eq(Circular, Wrap(n), Wrap(ack.rxWinEnd + 1)) <==> n == ack.rxWinEnd + 1
    ensures Gt(Circular, Wrap(n), Wrap(ack.rxWinEnd + 1)) <==> n > ack.rxWinEnd + 1
    ensures Lt(Circular, Wrap(n), Wrap(ack.rxWinStart)) <==> n < ack.rxWinStart
    ensures n > ack.rxWinEnd ==> !BeyondWindow(Circular, WrapAck(ack), Wrap(n)) && !BeyondWindow(Unbounded, ack, n)
    ensures Norm(Circular, Wrap(n) - 1) == Wrap(n - 1)
  {
    WrapPlus(ack.rxWinEnd, 1);
    WrapPlus(n, -1);
    CircularOrder(n, ack.rxWinEnd + 1);
    CircularOrder(n, ack.rxWinStart);
    WrapPlus(ack.rxWinStart, ack.rxWinSize);
    if n > ack.rxWinEnd { CircularOrder(n, ack.rxWinStart + ack.rxWinSize); }
  }

  predicate AcceptInReach(rx: Rx, n: int) {
    && WindowSize(rx.ack.rxWinSize) && rx.ack.rxWinStart <= rx.ack.rxWinEnd + 1
    && rx.ack.rxWinEnd < rx.ack.rxWinStart + rx.ack.rxWinSize
    && n < rx.ack.rxWinStart + rx.ack.rxWinSize && Near(n, rx.ack.rxWinEnd + 1)
    && Ascending(rx.win, rx.ack.rxWinStart, rx.ack.rxWinEnd)
    && Spans(rx.ack.missed, rx.ack.rxWinStart, rx.ack.rxWinEnd)
  }

  function WrapRxEffect(e: RxEffect): RxEffect {
    RxEffect(WrapRx(e.rx), WrapNet(e.out))
  }

  lemma WrapRemoved(missed: seq<Range>, lo: int, hi: int, n: int)
    requires Spans(missed, lo, hi) && Near(lo, n) && Near(hi + 1, n)
    ensures Remove(Circular, WrapRanges(missed), Wrap(n)) == WrapRanges(Remove(Unbounded, missed, n))
    ensures Spans(Remove(Unbounded, missed, n), lo, hi)
  {
    SpansNear(missed, lo, hi, n);
    WrapRemove(missed, n);
    RemoveExact(missed, lo, hi, n, n);
  }

  lemma WrapAdded(missed: seq<Range>, lo: int, hi: int, n: int)
    requires Spans(missed, lo, hi) && Near(lo, n) && lo <= hi + 1 < n
    ensures Add(Circular, WrapRanges(missed), Wrap(hi + 1), Wrap(n - 1)) ==
            WrapRanges(Add(Unbounded, missed, hi + 1, n - 1))
  {
    SpansNear(missed, lo, hi, n);
    SpansNear(missed, lo, hi, hi + 1);
    WrapAdd(missed, hi + 1, n - 1);
  }

  lemma WrapAppended(win: seq<DataPacket>, p: DataPacket)
    ensures WrapPackets(win + [p]) == WrapPackets(win) + [WrapPacket(p)]
  {
  }

  // the three lemmas below only put the pieces together; keeping the bounds that
  // justify the pieces out of their context keeps them cheap

  lemma WrapAcceptNext(rx: Rx, p: DataPacket, next: int)
    requires next == rx.ack.rxWinEnd + 1 == p.num && Norm(Circular, Wrap(rx.ack.rxWinEnd) + 1) == Wrap(next)
    requires Eq(Circular, Wrap(p.num), Wrap(next))
    requires !BeyondWindow(Circular, WrapAck(rx.ack), Wrap(p.num)) && !BeyondWindow(Unbounded, rx.ack, p.num)
    requires Remove(Circular, WrapRanges(rx.ack.missed), Wrap(p.num)) ==
            WrapRanges(Remove(Unbounded, rx.ack.missed, p.num))
    ensures Accept(Circular, WrapRx(rx), WrapPacket(p)) == WrapRxEffect(Accept(Unbounded, rx, p))
  {
    WrapAppended(rx.win, p);
    assert WrapNet([]) == [];
  }

  lemma WrapAcceptAhead(rx: Rx, p: DataPacket, next: int, missed: seq<Range>)
    requires next == rx.ack.rxWinEnd + 1 < p.num && Norm(Circular, Wrap(rx.ack.rxWinEnd) + 1) == Wrap(next)
    requires Norm(Circular, Wrap(p.num) - 1) == Wrap(p.num - 1)
    requires !Eq(Circular, Wrap(p.num), Wrap(next)) && Gt(Circular, Wrap(p.num), Wrap(next))
    requires !BeyondWindow(Circular, WrapAck(rx.ack), Wrap(p.num)) && !BeyondWindow(Unbounded, rx.ack, p.num)
    requires missed == Remove(Unbounded, rx.ack.missed, p.num)
    requires Remove(Circular, WrapRanges(rx.ack.missed), Wrap(p.num)) == WrapRanges(missed)
    requires Add(Circular, WrapRanges(missed), Wrap(next), Wrap(p.num - 1)) ==
            WrapRanges(Add(Unbounded, missed, next, p.num - 1))
    ensures Accept(Circular, WrapRx(rx), WrapPacket(p)) == WrapRxEffect(Accept(Unbounded, rx, p))
  {
    WrapAppended(rx.win, p);
    var lo := rx.ack.rxWinStart;
    assert WrapNet([Nack(lo, next, p.num - 1)]) == [Nack(Wrap(lo), Wrap(next), Wrap(p.num - 1))];
    AcceptGap(Unbounded, rx, p, next, p.num - 1, missed);
    AcceptGap(Circular, WrapRx(rx), WrapPacket(p), Wrap(next), Wrap(p.num - 1), WrapRanges(missed));
  }

  lemma AcceptGap(ar: Arith, rx: Rx, p: DataPacket, next: int, last: int, missed: seq<Range>)
    requires next == Norm(ar, rx.ack.rxWinEnd + 1) && last == Norm(ar, p.num - 1)
    requires !Eq(ar, p.num, next) && Gt(ar, p.num, next) && !BeyondWindow(ar, rx.ack, p.num)
    requires missed == Remove(ar, rx.ack.missed, p.num)
    ensures
      var ack := rx.ack.(missed := Add(ar, missed, next, last), rxWinEnd := p.num);
      Accept(ar, rx, p) == RxEffect(rx.(win := rx.win + [p], ack := ack), [Nack(rx.ack.rxWinStart, next, last)])
  {
  }

  lemma WrapAcceptOld(rx: Rx, p: DataPacket, next: int, missed: seq<Range>)
    requires p.num < next == rx.ack.rxWinEnd + 1 && Norm(Circular, Wrap(rx.ack.rxWinEnd) + 1) == Wrap(next)
    requires !Eq(Circular, Wrap(p.num), Wrap(next)) && !Gt(Circular, Wrap(p.num), Wrap(next))
    requires Lt(Circular, Wrap(p.num), Wrap(rx.ack.rxWinStart)) <==> Lt(Unbounded, p.num, rx.ack.rxWinStart)
    requires Present(Circular, WrapPackets(rx.win), Wrap(p.num)) <==> Present(Unbounded, rx.win, p.num)
    requires Insert(Circular, WrapPackets(rx.win), WrapPacket(p)) == WrapPackets(Insert(Unbounded, rx.win, p))
    requires missed == Remove(Unbounded, rx.ack.missed, p.num)
    requires Remove(Circular, WrapRanges(rx.ack.missed), Wrap(p.num)) == WrapRanges(missed)
    requires Remove(Circular, WrapRanges(missed), Wrap(p.num)) == WrapRanges(Remove(Unbounded, missed, p.num))
    ensures Accept(Circular, WrapRx(rx), WrapPacket(p)) == WrapRxEffect(Accept(Unbounded, rx, p))
  {
    assert WrapNet([]) == [];
  }

  lemma WrapAcceptBuffered(rx: Rx, p: DataPacket)
    requires AcceptInReach(rx, p.num) && p.num <= rx.ack.rxWinEnd
    ensures Accept(Circular, WrapRx(rx), WrapPacket(p)) == WrapRxEffect(Accept(Unbounded, rx, p))
  {
    var lo, hi, missed := rx.ack.rxWinStart, rx.ack.rxWinEnd, Remove(Unbounded, rx.ack.missed, p.num);
    WrapAcceptOrders(rx.ack, p.num);
    WrapRemoved(rx.ack.missed, lo, hi, p.num);
    WrapRemoved(missed, lo, hi, p.num);
    WrapPresent(rx.win, lo, hi, p.num);
    WrapInsert(rx.win, lo, hi, p);
    WrapAcceptOld(rx, p, hi + 1, missed);
  }

  lemma WrapAcceptInSequence(rx: Rx, p: DataPacket)
    requires AcceptInReach(rx, p.num) && p.num == rx.ack.rxWinEnd + 1
    ensures Accept(Circular, WrapRx(rx), WrapPacket(p)) == WrapRxEffect(Accept(Unbounded, rx, p))
  {
    WrapAcceptOrders(rx.ack, p.num);
    WrapRemoved(rx.ack.missed, rx.ack.rxWinStart, rx.ack.rxWinEnd, p.num);
    WrapAcceptNext(rx, p, p.num);
  }

  lemma WrapAcceptAfterGap(rx: Rx, p: DataPacket)
    requires AcceptInReach(rx, p.num) && p.num > rx.ack.rxWinEnd + 1
    ensures Accept(Circular, WrapRx(rx), WrapPacket(p)) == WrapRxEffect(Accept(Unbounded, rx, p))
  {
    var missed := Remove(Unbounded, rx.ack.missed, p.num);
    WrapAcceptOrders(rx.ack, p.num);
    WrapGap(rx.ack.missed, rx.ack.rxWinStart, rx.ack.rxWinEnd, p.num, missed);
    WrapAcceptAhead(rx, p, rx.ack.rxWinEnd + 1, missed);
  }

  lemma WrapGap(missed: seq<Range>, lo: int, hi: int, n: int, rest: seq<Range>)
    requires Spans(missed, lo, hi) && Near(lo, n) && lo <= hi + 1 < n && rest == Remove(Unbounded, missed, n)
    ensures Remove(Circular, WrapRanges(missed), Wrap(n)) == WrapRanges(rest)
    ensures Add(Circular, WrapRanges(rest), Wrap(hi + 1), Wrap(n - 1)) ==
            WrapRanges(Add(Unbounded, rest, hi + 1, n - 1))
  {
    WrapRemoved(missed, lo, hi, n);
    WrapAdded(rest, lo, hi, n);
  }

  lemma WrapSendAck(rx: Rx)
    ensures
      var e := SendAck(Unbounded, rx);
      SendAck(Circular, WrapRx(rx)) == RxEffect(WrapRx(e.rx), WrapNet(e.out))
  {
    WrapPlus(rx.ack.ackSeq, 1);
    WrapOnWire(rx.ack.missed);
    var out := SendAck(Unbounded, rx).out;
    assert WrapNet(out) == [WrapDatagram(out[0])];
  }

  lemma WrapRead(rx: Rx, n: nat)
    requires Ascending(rx.win, rx.ack.rxWinStart, rx.ack.rxWinEnd) && rx.ack.rxWinEnd < rx.ack.rxWinStart + MODULUS
    ensures CanRead(WrapRx(rx)) <==> CanRead(rx)
    ensures CanRead(rx) ==> ReadBytes(WrapRx(rx), n) == ReadBytes(rx, n)
    ensures CanRead(rx) ==> ReadSome(Circular, WrapRx(rx), n) == WrapRx(ReadSome(Unbounded, rx, n))
  {
    if rx.win != [] {
      WrapInjective(rx.win[0].num, rx.ack.rxWinStart);
      WrapPlus(rx.ack.rxWinStart, 1);
      assert WrapPackets(rx.win)[1..] == WrapPackets(rx.win[1..]);
      var q := rx.win[0].(data := rx.win[0].data[Min(n, |rx.win[0].data|)..]);
      assert WrapPackets(rx.win[0 := q]) == WrapPackets(rx.win)[0 := WrapPacket(q)];
    }
  }

  // ------------------------------------------------------------------- steps

  lemma WrapDeliverData(x: Side, y: Side, mx: int, my: int, s: int, num: int, payload: seq<U8>)
    requires Pair(x, y, mx, my) && WindowSize(mx) && InReach(x, Data(s, num, payload))
    requires 1 <= s <= y.rx.ack.rxWinStart && GoodData(Data(s, num, payload), y.log, Sent(y.tx, y.log))
    ensures Deliver(Circular, WrapSide(x), Data(Wrap(s), Wrap(num), payload)) ==
            WrapTurn(Deliver(Unbounded, x, Data(s, num, payload)))
  {
    WrapAdvance(x.tx, x.log, x.written, my, s);
    assert Wrap(0) == 0;
    if num <= x.rx.ack.rxWinEnd {
      WrapAcceptBuffered(x.rx, DataPacket(s, num, payload, 0));
    } else if num == x.rx.ack.rxWinEnd + 1 {
      WrapAcceptInSequence(x.rx, DataPacket(s, num, payload, 0));
    } else {
      WrapAcceptAfterGap(x.rx, DataPacket(s, num, payload, 0));
    }
  }

  lemma WrapDeliver(x: Side, y: Side, mx: int, my: int, d: Datagram)
    requires Pair(x, y, mx, my) && WindowSize(mx) && WindowSize(my) && InReach(x, d)
    requires GoodFeedback(d, y.rx.ack.rxWinStart, Sent(x.tx, x.log), y.ackStarts, my)
    requires GoodData(d, y.log, Sent(y.tx, y.log))
    ensures Deliver(Circular, WrapSide(x), WrapDatagram(d)) == WrapTurn(Deliver(Unbounded, x, d))
  {
    assert WrapNet([]) == [];
    match d
    case Data(s, num, payload) => WrapDeliverData(x, y, mx, my, s, num, payload);
    case Ack(ap) => WrapHandleAck(x.tx, x.log, x.written, my, ap, y.rx.ack.rxWinStart, y.ackStarts);
    case Nack(s, first, last) => WrapHandleNack(x.tx, x.log, x.written, my, s, first, last);
    case Ack2(_) =>
  }

  lemma WrapWithout(net: seq<Datagram>, i: nat)
    requires i < |net|
    ensures WrapNet(Without(net, i)) == Without(WrapNet(net), i)
  {
  }

  lemma WrapEnabled(x: Side, y: Side, mx: int, my: int, act: Action)
    requires Pair(x, y, mx, my) && WindowSize(mx) && WindowSize(my)
    ensures Enabled(Circular, WrapSide(x), act) <==> Enabled(Unbounded, x, act)
  {
    match act
    case CommitPending => WrapCanSend(x.tx, x.log, x.written, my);
    case Read(n) => WrapRead(x.rx, n);
    case _ =>
  }

  lemma WrapAcknowledge(x: Side)
    ensures Acknowledge(Circular, WrapSide(x)) == WrapTurn(Acknowledge(Unbounded, x))
  {
    WrapSendAck(x.rx);
    assert WrapNumbers(x.ackStarts + [x.rx.ack.rxWinStart]) == WrapNumbers(x.ackStarts) + [Wrap(x.rx.ack.rxWinStart)];
  }

  lemma WrapPerform(x: Side, y: Side, mx: int, my: int, act: Action)
    requires Pair(x, y, mx, my) && WindowSize(mx) && WindowSize(my)
    requires Enabled(Unbounded, x, act) && Enabled(Circular, WrapSide(x), act) && ActionInReach(x, act)
    ensures Perform(Circular, WrapSide(x), act) == WrapTurn(Perform(Unbounded, x, act))
  {
    assert WrapNet([]) == [];
    match act
    case Write(b) =>
    case PackNext => WrapPack(x.tx, x.rx.ack.rxWinStart);
    case CommitPending => WrapCommit(x.tx);
    case Read(n) => WrapRead(x.rx, n);
    case OnSyn => WrapAcknowledge(x);
    case RunRetransmit => WrapRetransmit(x.tx, x.log, x.written, my);
    case Receive(i) =>
      WrapWithout(x.inbox, i);
      TakeKeeps(x, y, mx, my, i);
      WrapDeliver(x.(inbox := Without(x.inbox, i)), y, mx, my, x.inbox[i]);
  }

  lemma WrapPost(y: Side, out: seq<Datagram>)
    ensures WrapSide(y.(inbox := y.inbox + out)) == WrapSide(y).(inbox := WrapNet(y.inbox) + WrapNet(out))
  {
    assert WrapNet(y.inbox + out) == WrapNet(y.inbox) + WrapNet(out);
  }

  lemma WrapMeet(x: Side, y: Side, mx: int, my: int, act: Action)
    requires Pair(x, y, mx, my) && WindowSize(mx) && WindowSize(my) && ActionInReach(x, act)
    ensures
      var (x', y') := Meet(Unbounded, x, y, act);
      Meet(Circular, WrapSide(x), WrapSide(y), act) == (WrapSide(x'), WrapSide(y'))
  {
    WrapEnabled(x, y, mx, my, act);
    if Enabled(Unbounded, x, act) {
      WrapPerform(x, y, mx, my, act);
      WrapPost(y, Perform(Unbounded, x, act).out);
    }
  }

  lemma WrapNetwork(x: Side, lose: bool, i: nat)
    ensures Network(WrapSide(x), lose, i) == WrapSide(Network(x, lose, i))
  {
    if i < |x.inbox| {
      WrapWithout(x.inbox, i);
      assert WrapNet(x.inbox + [x.inbox[i]]) == WrapNet(x.inbox) + [WrapDatagram(x.inbox[i])];
    }
  }

  lemma WrapNext(w: World, windowA: int, windowB: int, step: Step)
    requires Good(w, windowA, windowB) && WindowSize(windowA) && WindowSize(windowB) && StepInReach(w, step)
    ensures Next(Circular, WrapWorld(w), step) == WrapWorld(Next(Unbounded, w, step))
  {
    match step
    case Act(true, act) => WrapMeet(w.a, w.b, windowA, windowB, act);
    case Act(false, act) => WrapMeet(w.b, w.a, windowB, windowA, act);
    case Lose(toA, i) => if toA { WrapNetwork(w.a, true, i); } else { WrapNetwork(w.b, true, i); }
    case Duplicate(toA, i) => if toA { WrapNetwork(w.a, false, i); } else { WrapNetwork(w.b, false, i); }
  }

  /** In every run in reach, the world on 16-bit numbers is the image of its shadow. */
  lemma {:induction false} WrapAroundIsInvisible(windowA: int, windowB: int, steps: seq<Step>)
    requires WindowSize(windowA) && WindowSize(windowB) && RunInReach(windowA, windowB, steps)
    ensures Exec(Circular, Init(windowA, windowB), steps) == WrapWorld(Exec(Unbounded, Init(windowA, windowB), steps))
  {
    var w := Init(windowA, windowB);
    if steps == [] {
      assert WrapWorld(w) == w;
    } else {
      var before := steps[..|steps| - 1];
      WrapAroundIsInvisible(windowA, windowB, before);
      RunsAreGood(windowA, windowB, before);
      WrapNext(Exec(Unbounded, w, before), windowA, windowB, steps[|steps| - 1]);
    }
  }
}
