/** What every step of the protocol keeps, over sequence numbers that never wrap,
    and the safety theorems that follow for whole runs. */
module UdtSafety {
  import opened Bytes
  import opened Common
  import opened MissLists
  import opened SequenceNumbers
  import opened UdtEndpoint
  import opened UdtWorld

  // ------------------------------------------------------------ byte streams

  function Flatten(log: seq<seq<U8>>): seq<U8> {
    if log == [] then [] else Flatten(log[..|log| - 1]) + log[|log| - 1]
  }

  lemma FlattenAppend(log: seq<seq<U8>>, c: seq<U8>)
    ensures Flatten(log + [c]) == Flatten(log) + c
  {
    assert (log + [c])[..|log|] == log;
  }

  lemma {:induction false} FlattenPrefix(log: seq<seq<U8>>, k: nat)
    requires k <= |log|
    ensures Flatten(log[..k]) <= Flatten(log)
  {
    if k < |log| {
      FlattenPrefix(log[..|log| - 1], k);
      assert log[..|log| - 1][..k] == log[..k];
    } else {
      assert log[..k] == log;
    }
  }

  // ------------------------------------------------------- receive windows

  predicate Has(win: seq<DataPacket>, x: int) {
    win != [] && (win[0].num == x || Has(win[1..], x))
  }

  /** Strictly ascending numbers, all within lo..hi. */
  predicate Ascending(win: seq<DataPacket>, lo: int, hi: int) {
    win == [] || (lo <= win[0].num <= hi && Ascending(win[1..], win[0].num + 1, hi))
  }

  lemma {:induction false} AscendingBounds(win: seq<DataPacket>, lo: int, hi: int, x: int)
    requires Ascending(win, lo, hi) && Has(win, x)
    ensures lo <= x <= hi
  {
    if win[0].num != x { AscendingBounds(win[1..], win[0].num + 1, hi, x); }
  }

  lemma {:induction false} AscendingWiden(win: seq<DataPacket>, lo: int, hi: int, lo': int, hi': int)
    requires Ascending(win, lo, hi) && lo' <= lo && hi <= hi'
    ensures Ascending(win, lo', hi')
  {
    if win != [] { AscendingWiden(win[1..], win[0].num + 1, hi, win[0].num + 1, hi'); }
  }

  lemma {:induction false} AscendingAppend(win: seq<DataPacket>, lo: int, hi: int, p: DataPacket, x: int)
    requires Ascending(win, lo, hi) && lo <= p.num && hi < p.num
    ensures Ascending(win + [p], lo, p.num)
    ensures Has(win + [p], x) <==> Has(win, x) || x == p.num
  {
    if win == [] {
      assert win + [p] == [p] && [p][1..] == [];
    } else {
      assert (win + [p])[1..] == win[1..] + [p];
      AscendingAppend(win[1..], win[0].num + 1, hi, p, x);
    }
  }

  lemma {:induction false} PresentIsHas(win: seq<DataPacket>, lo: int, hi: int, x: int)
    requires Ascending(win, lo, hi)
    ensures Present(Unbounded, win, x) <==> Has(win, x)
  {
    if win != [] {
      PresentIsHas(win[1..], win[0].num + 1, hi, x);
      if Has(win[1..], x) { AscendingBounds(win[1..], win[0].num + 1, hi, x); }
    }
  }

  lemma {:induction false} InsertExact(win: seq<DataPacket>, lo: int, hi: int, p: DataPacket, x: int)
    requires Ascending(win, lo, hi) && lo <= p.num <= hi && !Present(Unbounded, win, p.num)
    ensures Ascending(Insert(Unbounded, win, p), lo, hi)
    ensures Has(Insert(Unbounded, win, p), x) <==> Has(win, x) || x == p.num
  {
    var r := Insert(Unbounded, win, p);
    if win != [] && win[0].num < p.num {
      InsertExact(win[1..], win[0].num + 1, hi, p, x);
      assert r[1..] == Insert(Unbounded, win[1..], p);
    } else {
      assert r[1..] == win;
      if win != [] { AscendingWiden(win, win[0].num, hi, p.num + 1, hi); }
    }
  }

  // ---------------------------------------------------------------- invariants

  // how many packets have been sent: numbers 1 to Sent
  function Sent(tx: Tx, log: seq<seq<U8>>): int {
    |log| - if tx.pending.Some? then 1 else 0
  }

  // the oldest number the sender still remembers
  function TxBase(tx: Tx, log: seq<seq<U8>>): int {
    Sent(tx, log) - |tx.win| + 1
  }

  predicate TxWindow(win: seq<DataPacket>, base: int, log: seq<seq<U8>>) {
    && 1 <= base && base - 1 + |win| <= |log|
    && forall i :: 0 <= i < |win| ==> win[i].num == base + i && win[i].data == log[base + i - 1]
  }

  predicate Proper(rs: seq<Range>, hi: int) {
    rs == [] || (1 <= rs[0].first <= rs[0].last <= hi && Proper(rs[1..], hi))
  }

  predicate Pending(tx: Tx, log: seq<seq<U8>>) {
    tx.pending.Some? ==>
      |log| > 0 && tx.pending.value.num == |log| && tx.pending.value.data == log[|log| - 1]
  }

  /** The sending half: numbers are the log's positions, the window remembers a
      contiguous run of them that ends with the last packet sent, and that run fits
      in the peer's window. */
  predicate Sending(tx: Tx, log: seq<seq<U8>>, written: seq<U8>, m: int) {
    && tx.nextTxSeq == |log|
    && (forall k :: 0 <= k < |log| ==> log[k] != [])
    && Pending(tx, log)
    && TxWindow(tx.win, TxBase(tx, log), log)
    && 1 <= tx.winSize <= m
    && 1 <= tx.lastRxAck.rxWinStart <= TxBase(tx, log)
    && Sent(tx, log) < tx.lastRxAck.rxWinStart + m
    && Proper(tx.missList, Sent(tx, log))
    && written == Flatten(log) + tx.unsent
  }

  /** A buffered packet holds the payload of its number; only the front one may
      have been read in part. */
  predicate Payload(p: DataPacket, log: seq<seq<U8>>, start: int) {
    && 1 <= p.num <= |log|
    && p.data != []
    && (p.num != start ==> p.data == log[p.num - 1])
    && (p.num == start ==> |p.data| <= |log[p.num - 1]| && p.data == log[p.num - 1][|log[p.num - 1]| - |p.data|..])
  }

  predicate Payloads(win: seq<DataPacket>, log: seq<seq<U8>>, start: int) {
    win == [] || (Payload(win[0], log, start) && Payloads(win[1..], log, start))
  }

  // the part of the front packet that has been read
  function Consumed(win: seq<DataPacket>, start: int, log: seq<seq<U8>>): seq<U8>
    requires Payloads(win, log, start)
  {
    if win != [] && win[0].num == start then
      var full := log[start - 1];
      full[..|full| - |win[0].data|]
    else []
  }

  /** Every number between the ends of the window is buffered or missed, not both. */
  predicate Partition(win: seq<DataPacket>, missed: seq<Range>, lo: int, hi: int) {
    forall x :: lo <= x <= hi ==> (Has(win, x) <==> !Held(missed, x))
  }

  /** The receive window is strictly ascending, and its numbers are exactly those
      between its ends that are not in the list of missed ones. */
  predicate Window(win: seq<DataPacket>, missed: seq<Range>, lo: int, hi: int) {
    && Ascending(win, lo, hi)
    && Spans(missed, lo, hi)
    && Partition(win, missed, lo, hi)
  }

  /** The receiving half, against the log of the sender. */
  predicate Receiving(rx: Rx, delivered: seq<U8>, log: seq<seq<U8>>, sent: int, m: int) {
    && !rx.overran
    && 1 <= rx.ack.rxWinStart <= rx.ack.rxWinEnd + 1
    && rx.ack.rxWinEnd <= sent <= |log|
    && rx.ack.rxWinSize == m
    && Window(rx.win, rx.ack.missed, rx.ack.rxWinStart, rx.ack.rxWinEnd)
    && Payloads(rx.win, log, rx.ack.rxWinStart)
    && delivered == Flatten(log[..rx.ack.rxWinStart - 1]) + Consumed(rx.win, rx.ack.rxWinStart, log)
  }

  predicate GoodData(d: Datagram, log: seq<seq<U8>>, sent: int) {
    d.Data? ==> 1 <= d.num <= sent <= |log| && d.payload == log[d.num - 1]
  }

  predicate AllData(net: seq<Datagram>, log: seq<seq<U8>>, sent: int) {
    net == [] || (GoodData(net[0], log, sent) && AllData(net[1..], log, sent))
  }

  /** What the receiver tells the sender: no window start is ahead of the real one,
      and every ack is one of those sent. */
  predicate GoodFeedback(d: Datagram, start: int, sent: int, acks: seq<int>, m: int) {
    match d
    case Data(s, _, _) => 1 <= s <= start
    case Ack(ap) =>
      && 1 <= ap.rxWinStart <= start
      && ap.rxWinSize == m
      && 1 <= ap.ackSeq <= |acks| && ap.rxWinStart == acks[ap.ackSeq - 1]
      && Spans(ap.missed, ap.rxWinStart, ap.rxWinEnd)
      && ap.rxWinEnd <= sent && ap.rxWinEnd < ap.rxWinStart + m
    case Nack(s, first, last) => 1 <= s <= start && s <= first <= last <= sent
    case Ack2(_) => true
  }

  predicate AllFeedback(net: seq<Datagram>, start: int, sent: int, acks: seq<int>, m: int) {
    net == [] || (GoodFeedback(net[0], start, sent, acks, m) && AllFeedback(net[1..], start, sent, acks, m))
  }

  /** The window starts reported in acks only ever grew. */
  predicate AckHistory(ack: AckPacket, acks: seq<int>) {
    && ack.ackSeq == |acks|
    && (forall i :: 0 <= i < |acks| ==> 1 <= acks[i] <= ack.rxWinStart)
    && (forall i, j :: 0 <= i <= j < |acks| ==> acks[i] <= acks[j])
  }

  predicate LastAck(last: AckPacket, acks: seq<int>) {
    && 0 <= last.ackSeq <= |acks|
    && last.rxWinStart == if last.ackSeq == 0 then 1 else acks[last.ackSeq - 1]
  }

  // data packets waiting to be sent, or sent again, carry no start ahead of `start`
  predicate HeldStarts(tx: Tx, start: int) {
    && (forall i :: 0 <= i < |tx.win| ==> 1 <= tx.win[i].rxWinStart <= start)
    && (tx.pending.Some? ==> 1 <= tx.pending.value.rxWinStart <= start)
  }

  /** The stream from s to r, whose receiver buffers at most m packets.  Nothing the
      receiver has not consumed is forgotten by the sender (the third conjunct), and
      what is in flight is genuine. */
  predicate Flow(s: Side, r: Side, m: int) {
    && Sending(s.tx, s.log, s.written, m)
    && Receiving(r.rx, r.delivered, s.log, Sent(s.tx, s.log), m)
    && TxBase(s.tx, s.log) <= r.rx.ack.rxWinStart
    && AckHistory(r.rx.ack, r.ackStarts)
    && LastAck(s.tx.lastRxAck, r.ackStarts)
    && AllData(r.inbox, s.log, Sent(s.tx, s.log))
    && AllFeedback(s.inbox, r.rx.ack.rxWinStart, Sent(s.tx, s.log), r.ackStarts, m)
    && HeldStarts(r.tx, r.rx.ack.rxWinStart)
  }

  /** Both streams between two ends; x buffers at most mx packets, y at most my. */
  predicate Pair(x: Side, y: Side, mx: int, my: int) {
    Flow(x, y, my) && Flow(y, x, mx)
  }

  predicate Good(w: World, windowA: int, windowB: int) {
    Pair(w.a, w.b, windowA, windowB)
  }

  predicate WindowSize(m: int) {
    1 <= m < HALF - 1
  }

  lemma InitFlow(n: int, m: int)
    requires 1 <= m
    ensures Flow(InitSide(n), InitSide(m), m)
  {
    var s, r := InitSide(n), InitSide(m);
    assert Sending(s.tx, [], [], m);
    assert Window([], [], 1, 0);
    assert Receiving(r.rx, [], [], 0, m);
  }

  lemma InitGood(windowA: int, windowB: int)
    requires 1 <= windowA && 1 <= windowB
    ensures Good(Init(windowA, windowB), windowA, windowB)
  {
    InitFlow(windowA, windowB);
    InitFlow(windowB, windowA);
  }

  // ------------------------------------------------------ datagrams in flight

  lemma {:induction false} AllDataAppend(xs: seq<Datagram>, ys: seq<Datagram>, log: seq<seq<U8>>, sent: int)
    requires AllData(xs, log, sent) && AllData(ys, log, sent)
    ensures AllData(xs + ys, log, sent)
  {
    if xs == [] {
      assert xs + ys == ys;
    } else {
      assert (xs + ys)[1..] == xs[1..] + ys;
      AllDataAppend(xs[1..], ys, log, sent);
    }
  }

  lemma {:induction false} AllDataPick(net: seq<Datagram>, i: nat, log: seq<seq<U8>>, sent: int)
    requires AllData(net, log, sent) && i < |net|
    ensures GoodData(net[i], log, sent) && AllData(Without(net, i), log, sent)
  {
    if i == 0 {
      assert Without(net, i) == net[1..];
    } else {
      AllDataPick(net[1..], i - 1, log, sent);
      assert Without(net, i)[1..] == Without(net[1..], i - 1);
    }
  }

  lemma {:induction false} AllDataGrows(net: seq<Datagram>, log: seq<seq<U8>>, sent: int, log': seq<seq<U8>>,
                                        sent': int)
    requires AllData(net, log, sent) && log <= log' && sent <= sent' <= |log'|
    ensures AllData(net, log', sent')
  {
    if net != [] { AllDataGrows(net[1..], log, sent, log', sent'); }
  }

  lemma {:induction false} AllFeedbackAppend(xs: seq<Datagram>, ys: seq<Datagram>, start: int, sent: int,
                                             acks: seq<int>, m: int)
    requires AllFeedback(xs, start, sent, acks, m) && AllFeedback(ys, start, sent, acks, m)
    ensures AllFeedback(xs + ys, start, sent, acks, m)
  {
    if xs == [] {
      assert xs + ys == ys;
    } else {
      assert (xs + ys)[1..] == xs[1..] + ys;
      AllFeedbackAppend(xs[1..], ys, start, sent, acks, m);
    }
  }

  lemma {:induction false} AllFeedbackPick(net: seq<Datagram>, i: nat, start: int, sent: int, acks: seq<int>, m: int)
    requires AllFeedback(net, start, sent, acks, m) && i < |net|
    ensures GoodFeedback(net[i], start, sent, acks, m) && AllFeedback(Without(net, i), start, sent, acks, m)
  {
    if i == 0 {
      assert Without(net, i) == net[1..];
    } else {
      AllFeedbackPick(net[1..], i - 1, start, sent, acks, m);
      assert Without(net, i)[1..] == Without(net[1..], i - 1);
    }
  }

  // feedback stays good while the receiver advances and the sender sends more
  lemma {:induction false} AllFeedbackGrows(net: seq<Datagram>, start: int, sent: int, acks: seq<int>, m: int,
                                            start': int, sent': int, acks': seq<int>)
    requires AllFeedback(net, start, sent, acks, m) && start <= start' && sent <= sent' && acks <= acks'
    ensures AllFeedback(net, start', sent', acks', m)
  {
    if net != [] { AllFeedbackGrows(net[1..], start, sent, acks, m, start', sent', acks'); }
  }

  // ------------------------------------------------------- the steps, one by one

  /** What x may hand to the network: genuine data for y and genuine feedback. */
  predicate GoodOut(out: seq<Datagram>, x: Side, y: Side, mx: int) {
    && AllData(out, x.log, Sent(x.tx, x.log))
    && AllFeedback(out, x.rx.ack.rxWinStart, Sent(y.tx, y.log), x.ackStarts, mx)
  }

  lemma PostKeeps(x: Side, y: Side, mx: int, my: int, out: seq<Datagram>)
    requires Pair(x, y, mx, my) && GoodOut(out, x, y, mx)
    ensures Pair(x, y.(inbox := y.inbox + out), mx, my)
  {
    AllDataAppend(y.inbox, out, x.log, Sent(x.tx, x.log));
    AllFeedbackAppend(y.inbox, out, x.rx.ack.rxWinStart, Sent(y.tx, y.log), x.ackStarts, mx);
  }

  lemma TakeKeeps(x: Side, y: Side, mx: int, my: int, i: nat)
    requires Pair(x, y, mx, my) && i < |x.inbox|
    ensures Pair(x.(inbox := Without(x.inbox, i)), y, mx, my)
    ensures GoodData(x.inbox[i], y.log, Sent(y.tx, y.log))
    ensures GoodFeedback(x.inbox[i], y.rx.ack.rxWinStart, Sent(x.tx, x.log), y.ackStarts, my)
  {
    AllDataPick(x.inbox, i, y.log, Sent(y.tx, y.log));
    AllFeedbackPick(x.inbox, i, y.rx.ack.rxWinStart, Sent(x.tx, x.log), y.ackStarts, my);
  }

  lemma WriteKeeps(x: Side, y: Side, mx: int, my: int, b: seq<U8>)
    requires Pair(x, y, mx, my) && x.tx.unsent == []
    ensures Pair(StartWrite(x, b), y, mx, my)
  {
    WriteKeepsSending(x.tx, x.log, x.written, my, b, x.rx.ack.rxWinStart);
  }

  lemma WriteKeepsSending(tx: Tx, log: seq<seq<U8>>, written: seq<U8>, m: int, b: seq<U8>, start: int)
    requires Sending(tx, log, written, m) && tx.unsent == [] && HeldStarts(tx, start)
    ensures
      var tx' := tx.(unsent := b);
      && Sending(tx', log, written + b, m) && HeldStarts(tx', start)
      && Sent(tx', log) == Sent(tx, log) && TxBase(tx', log) == TxBase(tx, log)
  {
  }

  lemma PackKeepsSending(tx: Tx, start: int, log: seq<seq<U8>>, written: seq<U8>, m: int)
    requires Sending(tx, log, written, m) && CanPack(tx)
    ensures
      var tx' := Pack(Unbounded, tx, start);
      var log' := log + [tx'.pending.value.data];
      Sending(tx', log', written, m) && Sent(tx', log') == Sent(tx, log)
  {
    var tx' := Pack(Unbounded, tx, start);
    var c := tx'.pending.value.data;
    FlattenAppend(log, c);
    assert tx.unsent == c + tx'.unsent;
    assert TxWindow(tx'.win, TxBase(tx', log + [c]), log + [c]);
  }

  lemma {:induction false} PayloadsLogGrows(win: seq<DataPacket>, log: seq<seq<U8>>, c: seq<U8>, start: int)
    requires Payloads(win, log, start)
    ensures Payloads(win, log + [c], start)
  {
    if win != [] { PayloadsLogGrows(win[1..], log, c, start); }
  }

  lemma LogGrows(rx: Rx, delivered: seq<U8>, log: seq<seq<U8>>, c: seq<U8>, sent: int, m: int)
    requires Receiving(rx, delivered, log, sent, m)
    ensures Receiving(rx, delivered, log + [c], sent, m)
  {
    PayloadsLogGrows(rx.win, log, c, rx.ack.rxWinStart);
    assert (log + [c])[..rx.ack.rxWinStart - 1] == log[..rx.ack.rxWinStart - 1];
  }

  lemma PackKeeps(x: Side, y: Side, mx: int, my: int)
    requires Pair(x, y, mx, my) && CanPack(x.tx)
    ensures Pair(PackPacket(Unbounded, x), y, mx, my)
  {
    var x' := PackPacket(Unbounded, x);
    var sent := Sent(x.tx, x.log);
    PackKeepsSending(x.tx, x.rx.ack.rxWinStart, x.log, x.written, my);
    LogGrows(y.rx, y.delivered, x.log, x'.tx.pending.value.data, sent, my);
    AllDataGrows(y.inbox, x.log, sent, x'.log, sent);
  }

  lemma CommitKeepsSending(tx: Tx, log: seq<seq<U8>>, written: seq<U8>, m: int, start: int)
    requires Sending(tx, log, written, m) && CanCommit(Unbounded, tx) && HeldStarts(tx, start)
    ensures
      var tx' := Commit(tx).tx;
      && Sending(tx', log, written, m)
      && HeldStarts(tx', start)
      && Sent(tx', log) == Sent(tx, log) + 1
      && TxBase(tx', log) == TxBase(tx, log)
  {
    var tx' := Commit(tx).tx;
    assert TxWindow(tx'.win, TxBase(tx', log), log);
    ProperWiden(tx.missList, Sent(tx, log), Sent(tx', log));
  }

  lemma {:induction false} ProperWiden(rs: seq<Range>, hi: int, hi': int)
    requires Proper(rs, hi) && hi <= hi'
    ensures Proper(rs, hi')
  {
    if rs != [] { ProperWiden(rs[1..], hi, hi'); }
  }

  lemma CommitKeeps(x: Side, y: Side, mx: int, my: int)
    requires Pair(x, y, mx, my) && CanCommit(Unbounded, x.tx)
    ensures Pair(CommitPacket(x).side, y, mx, my) && GoodOut(CommitPacket(x).out, CommitPacket(x).side, y, mx)
  {
    var t := CommitPacket(x);
    var sent, sent' := Sent(x.tx, x.log), Sent(t.side.tx, x.log);
    CommitKeepsSending(x.tx, x.log, x.written, my, x.rx.ack.rxWinStart);
    AllFeedbackGrows(x.inbox, y.rx.ack.rxWinStart, sent, y.ackStarts, my, y.rx.ack.rxWinStart, sent', y.ackStarts);
    AllDataGrows(y.inbox, x.log, sent, x.log, sent');
    assert t.out[1..] == [];
  }

  // --------------------------------------------------------------------- reading

  lemma {:induction false} PayloadsShift(win: seq<DataPacket>, log: seq<seq<U8>>, start: int, lo: int, hi: int)
    requires Payloads(win, log, start) && Ascending(win, lo, hi) && start < lo
    ensures Payloads(win, log, start + 1)
  {
    if win != [] {
      var full := log[win[0].num - 1];
      assert full[|full| - |full|..] == full;
      PayloadsShift(win[1..], log, start, win[0].num + 1, hi);
    }
  }

  lemma ReadAllKeepsWindow(win: seq<DataPacket>, missed: seq<Range>, lo: int, hi: int)
    requires Window(win, missed, lo, hi) && win != [] && win[0].num == lo
    ensures Window(win[1..], missed, lo + 1, hi)
  {
    assert Has(win, lo);
    SpansTighten(missed, lo, hi);
    forall x | lo + 1 <= x <= hi
      ensures Has(win[1..], x) <==> !Held(missed, x)
    {
      assert Has(win, x) <==> Has(win[1..], x);
    }
  }

  lemma {:induction false} SameNumbers(win: seq<DataPacket>, q: DataPacket, missed: seq<Range>, lo: int, hi: int)
    requires Window(win, missed, lo, hi) && win != [] && win[0].num == q.num
    ensures Window(win[0 := q], missed, lo, hi)
  {
    var w := win[0 := q];
    assert w[1..] == win[1..];
    forall x | lo <= x <= hi
      ensures Has(w, x) <==> !Held(missed, x)
    {
      assert Has(w, x) <==> Has(win, x);
    }
  }

  lemma ReadAllBytes(win: seq<DataPacket>, start: int, log: seq<seq<U8>>, hi: int)
    requires Payloads(win, log, start) && win != [] && win[0].num == start && Ascending(win, start, hi)
    ensures Payloads(win[1..], log, start + 1) && Consumed(win[1..], start + 1, log) == []
    ensures Flatten(log[..start]) == Flatten(log[..start - 1]) + Consumed(win, start, log) + win[0].data
  {
    PayloadsShift(win[1..], log, start, start + 1, hi);
    assert log[..start][..start - 1] == log[..start - 1];
    assert log[start - 1] == Consumed(win, start, log) + win[0].data;
  }

  lemma ReadAllKeepsReceiving(rx: Rx, delivered: seq<U8>, log: seq<seq<U8>>, sent: int, m: int, n: nat)
    requires Receiving(rx, delivered, log, sent, m) && CanRead(rx) && n >= |rx.win[0].data|
    ensures Receiving(ReadSome(Unbounded, rx, n), delivered + ReadBytes(rx, n), log, sent, m)
  {
    var start := rx.ack.rxWinStart;
    assert ReadSome(Unbounded, rx, n) == rx.(win := rx.win[1..], ack := rx.ack.(rxWinStart := start + 1));
    assert ReadBytes(rx, n) == rx.win[0].data;
    ReadAllKeepsWindow(rx.win, rx.ack.missed, start, rx.ack.rxWinEnd);
    ReadAllBytes(rx.win, start, log, rx.ack.rxWinEnd);
  }

  lemma ReadPartBytes(win: seq<DataPacket>, start: int, log: seq<seq<U8>>, q: DataPacket, n: nat)
    requires Payloads(win, log, start) && win != [] && win[0].num == start && n < |win[0].data|
    requires q == win[0].(data := win[0].data[n..])
    ensures Payloads(win[0 := q], log, start)
    ensures Consumed(win[0 := q], start, log) == Consumed(win, start, log) + win[0].data[..n]
  {
    assert win[0 := q][1..] == win[1..];
    SuffixOfSuffix(log[start - 1], win[0].data, n);
    assert Payload(q, log, start);
  }

  lemma ReadPartKeepsReceiving(rx: Rx, delivered: seq<U8>, log: seq<seq<U8>>, sent: int, m: int, n: nat)
    requires Receiving(rx, delivered, log, sent, m) && CanRead(rx) && n < |rx.win[0].data|
    ensures Receiving(ReadSome(Unbounded, rx, n), delivered + ReadBytes(rx, n), log, sent, m)
  {
    var q := rx.win[0].(data := rx.win[0].data[n..]);
    assert ReadSome(Unbounded, rx, n) == rx.(win := rx.win[0 := q]);
    assert ReadBytes(rx, n) == rx.win[0].data[..n];
    SameNumbers(rx.win, q, rx.ack.missed, rx.ack.rxWinStart, rx.ack.rxWinEnd);
    ReadPartBytes(rx.win, rx.ack.rxWinStart, log, q, n);
    Regroup(Flatten(log[..rx.ack.rxWinStart - 1]), Consumed(rx.win, rx.ack.rxWinStart, log), rx.win[0].data[..n]);
  }

  lemma SuffixOfSuffix(full: seq<U8>, data: seq<U8>, n: nat)
    requires n <= |data| <= |full| && data == full[|full| - |data|..]
    ensures data[n..] == full[|full| - |data[n..]|..]
    ensures full[..|full| - |data|] + data[..n] == full[..|full| - |data[n..]|]
  {
  }

  lemma ReadKeeps(x: Side, y: Side, mx: int, my: int, n: nat)
    requires Pair(x, y, mx, my) && CanRead(x.rx) && n > 0
    ensures Pair(ReadChunk(Unbounded, x, n), y, mx, my)
  {
    var x' := ReadChunk(Unbounded, x, n);
    var sent, start, start' := Sent(y.tx, y.log), x.rx.ack.rxWinStart, x'.rx.ack.rxWinStart;
    if n < |x.rx.win[0].data| {
      ReadPartKeepsReceiving(x.rx, x.delivered, y.log, sent, mx, n);
    } else {
      ReadAllKeepsReceiving(x.rx, x.delivered, y.log, sent, mx, n);
    }
    AllFeedbackGrows(y.inbox, start, sent, x.ackStarts, mx, start', sent, x.ackStarts);
    AckHistoryGrows(x.rx.ack, x'.rx.ack, x.ackStarts);
    HeldStartsGrows(x.tx, start, start');
  }

  lemma AckHistoryGrows(ack: AckPacket, ack': AckPacket, acks: seq<int>)
    requires AckHistory(ack, acks) && ack'.ackSeq == ack.ackSeq && ack.rxWinStart <= ack'.rxWinStart
    ensures AckHistory(ack', acks)
  {
  }

  lemma HeldStartsGrows(tx: Tx, start: int, start': int)
    requires HeldStarts(tx, start) && start <= start'
    ensures HeldStarts(tx, start')
  {
  }

  // ------------------------------------------------------------- acknowledging

  lemma AckKeepsReceiving(rx: Rx, delivered: seq<U8>, log: seq<seq<U8>>, sent: int, m: int)
    requires Receiving(rx, delivered, log, sent, m)
    ensures Receiving(SendAck(Unbounded, rx).rx, delivered, log, sent, m)
  {
    assert SendAck(Unbounded, rx).rx.win == rx.win;
  }

  lemma AckHistoryAppend(ack: AckPacket, acks: seq<int>)
    requires AckHistory(ack, acks) && 1 <= ack.rxWinStart
    ensures AckHistory(ack.(ackSeq := ack.ackSeq + 1), acks + [ack.rxWinStart])
  {
  }

  lemma AckIsGood(ack: AckPacket, sent: int, acks: seq<int>)
    requires AckHistory(ack, acks) && acks != [] && acks[|acks| - 1] == ack.rxWinStart
    requires Spans(ack.missed, ack.rxWinStart, ack.rxWinEnd)
    requires ack.rxWinEnd <= sent && ack.rxWinEnd < ack.rxWinStart + ack.rxWinSize
    ensures AllFeedback([Ack(ack.(missed := OnWire(ack.missed)))], ack.rxWinStart, sent, acks, ack.rxWinSize)
  {
    var out := [Ack(ack.(missed := OnWire(ack.missed)))];
    SpansPrefix(ack.missed, ack.rxWinStart, ack.rxWinEnd, |OnWire(ack.missed)|);
    assert out[1..] == [];
  }

  lemma AcknowledgeKeeps(x: Side, y: Side, mx: int, my: int)
    requires Pair(x, y, mx, my)
    ensures
      var t := Acknowledge(Unbounded, x);
      Pair(t.side, y, mx, my) && GoodOut(t.out, t.side, y, mx)
  {
    var t := Acknowledge(Unbounded, x);
    var sent, start := Sent(y.tx, y.log), x.rx.ack.rxWinStart;
    AckKeepsReceiving(x.rx, x.delivered, y.log, sent, mx);
    AckHistoryAppend(x.rx.ack, x.ackStarts);
    AllFeedbackGrows(y.inbox, start, sent, x.ackStarts, mx, start, sent, t.side.ackStarts);
    AckIsGood(t.side.rx.ack, sent, t.side.ackStarts);
    assert t.out[1..] == [];
  }

  // ------------------------------------------------------------ retransmitting

  /** Copies of packets already sent: the same number, payload and window start. */
  predicate Frames(out: seq<Datagram>, log: seq<seq<U8>>, sent: int, start: int) {
    out == [] ||
    (out[0].Data? && GoodData(out[0], log, sent) && 1 <= out[0].rxWinStart <= start
     && Frames(out[1..], log, sent, start))
  }

  lemma {:induction false} FramesAreGood(out: seq<Datagram>, log: seq<seq<U8>>, sent: int, start: int,
                                         sent': int, acks: seq<int>, m: int)
    requires Frames(out, log, sent, start)
    ensures AllData(out, log, sent) && AllFeedback(out, start, sent', acks, m)
  {
    if out != [] { FramesAreGood(out[1..], log, sent, start, sent', acks, m); }
  }

  predicate WindowStarts(win: seq<DataPacket>, start: int) {
    forall i :: 0 <= i < |win| ==> 1 <= win[i].rxWinStart <= start
  }

  lemma RemarkKeeps(win: seq<DataPacket>, i: nat, ackSeq: int, base: int, log: seq<seq<U8>>, start: int)
    requires TxWindow(win, base, log) && i < |win|
    ensures
      var win' := Remark(Unbounded, win, i, ackSeq);
      |win'| == |win| && TxWindow(win', base, log) && (WindowStarts(win, start) ==> WindowStarts(win', start))
  {
  }

  lemma ProperRest(rs: seq<Range>, hi: int)
    requires rs != [] && Proper(rs, hi)
    ensures Proper(Rest(Unbounded, rs), hi) && PopCount(Unbounded, Rest(Unbounded, rs)) == PopCount(Unbounded, rs) - 1
  {
    if rs[0].first != rs[0].last { assert Rest(Unbounded, rs)[1..] == rs[1..]; }
  }

  lemma {:induction false} RetransmitAllKeeps(win: seq<DataPacket>, rs: seq<Range>, ackSeq: int, base: int,
                                              log: seq<seq<U8>>, sent: int, start: int)
    requires TxWindow(win, base, log) && WindowStarts(win, start) && Proper(rs, sent)
    requires base - 1 + |win| <= sent <= |log|
    ensures
      var r := RetransmitAll(Unbounded, win, rs, ackSeq);
      && |r.win| == |win| && TxWindow(r.win, base, log) && WindowStarts(r.win, start)
      && Proper(r.rest, sent) && Frames(r.out, log, sent, start)
    decreases PopCount(Unbounded, rs)
  {
    if rs != [] {
      ProperRest(rs, sent);
      var i := FindNum(win, rs[0].first);
      if i < |win| {
        RemarkKeeps(win, i, ackSeq, base, log, start);
        RetransmitAllKeeps(Remark(Unbounded, win, i, ackSeq), Rest(Unbounded, rs), ackSeq, base, log, sent, start);
        var r := RetransmitAll(Unbounded, Remark(Unbounded, win, i, ackSeq), Rest(Unbounded, rs), ackSeq);
        var now := Resend(win[i], ackSeq);
        if now == [] { assert now + r.out == r.out; } else { assert (now + r.out)[1..] == r.out; }
      }
    }
  }

  lemma RetransmitKeepsSending(tx: Tx, log: seq<seq<U8>>, written: seq<U8>, m: int, start: int)
    requires Sending(tx, log, written, m) && HeldStarts(tx, start)
    ensures
      var e := Retransmit(Unbounded, tx);
      && Sending(e.tx, log, written, m) && HeldStarts(e.tx, start)
      && Sent(e.tx, log) == Sent(tx, log) && TxBase(e.tx, log) == TxBase(tx, log)
      && Frames(e.out, log, Sent(tx, log), start)
  {
    RetransmitAllKeeps(tx.win, tx.missList, tx.ack2.ackSeq, TxBase(tx, log), log, Sent(tx, log), start);
  }

  lemma SendAgainKeeps(x: Side, y: Side, mx: int, my: int)
    requires Pair(x, y, mx, my)
    ensures
      var t := SendAgain(Unbounded, x);
      Pair(t.side, y, mx, my) && GoodOut(t.out, t.side, y, mx)
  {
    var out, start := SendAgain(Unbounded, x).out, x.rx.ack.rxWinStart;
    RetransmitKeepsSending(x.tx, x.log, x.written, my, start);
    FramesAreGood(out, x.log, Sent(x.tx, x.log), start, Sent(y.tx, y.log), x.ackStarts, mx);
  }

  // ----------------------------------------------------------- hearing feedback

  lemma {:induction false} DropBelowExact(win: seq<DataPacket>, base: int, log: seq<seq<U8>>, s: int)
    requires TxWindow(win, base, log)
    ensures
      var k := if s <= base then 0 else if s >= base + |win| then |win| else s - base;
      DropBelow(Unbounded, win, s) == win[k..]
  {
    if win != [] && base < s {
      DropBelowExact(win[1..], base + 1, log, s);
    }
  }

  /** Advancing drops exactly the packets below s: the window keeps its end and its
      base moves to s, never back and never past the last packet sent. */
  lemma AdvanceKeepsSending(tx: Tx, log: seq<seq<U8>>, written: seq<U8>, m: int, s: int, start: int)
    requires Sending(tx, log, written, m) && HeldStarts(tx, start) && s <= Sent(tx, log) + 1
    ensures
      var tx' := AdvanceTx(Unbounded, tx, s);
      && Sending(tx', log, written, m) && HeldStarts(tx', start)
      && Sent(tx', log) == Sent(tx, log)
      && TxBase(tx', log) == (if s <= TxBase(tx, log) then TxBase(tx, log) else s)
  {
    DropBelowExact(tx.win, TxBase(tx, log), log, s);
  }

  lemma {:induction false} SpansProper(rs: seq<Range>, lo: int, hi: int)
    requires Spans(rs, lo, hi) && 1 <= lo
    ensures Proper(rs, hi)
  {
    if rs != [] { SpansProper(rs[1..], rs[0].last + 1, hi); }
  }

  lemma {:induction false} ProperConcat(xs: seq<Range>, ys: seq<Range>, hi: int)
    requires Proper(xs, hi) && Proper(ys, hi)
    ensures Proper(xs + ys, hi)
  {
    if xs == [] {
      assert xs + ys == ys;
    } else {
      assert (xs + ys)[1..] == xs[1..] + ys;
      ProperConcat(xs[1..], ys, hi);
    }
  }

  lemma {:induction false} ProperAdd(rs: seq<Range>, first: int, last: int, hi: int)
    requires Proper(rs, hi) && 1 <= first <= last <= hi
    ensures Proper(Add(Unbounded, rs, first, last), hi)
  {
    var n := [Range(first, last)];
    assert n[1..] == [];
    if rs == [] {
    } else if rs[0].last + 1 < first {
      ProperAdd(rs[1..], first, last, hi);
      assert Add(Unbounded, rs, first, last)[1..] == Add(Unbounded, rs[1..], first, last);
    } else if rs[0].last + 1 == first {
      assert Add(Unbounded, rs, first, last)[1..] == rs[1..];
    } else if |rs| == 1 {
      ProperConcat(rs, n, hi);
    } else {
      assert rs[2..] == rs[1..][1..];
      var a := Add(Unbounded, rs, first, last);
      assert a[1..] == (if last + 1 == rs[1].first then [Range(last, rs[1].last)] + rs[2..] else n + rs[1..]);
      ProperConcat(n, rs[1..], hi);
      assert ([Range(last, rs[1].last)] + rs[2..])[1..] == rs[2..];
    }
  }

  lemma GrowBounds(startUp: bool, w: int, m: int)
    requires WindowSize(m) && 1 <= w <= m
    ensures 1 <= Grow(startUp, w, m) <= m
  {
  }

  lemma ShrinkBounds(startUp: bool, w: int)
    requires 1 <= w
    ensures 1 <= Shrink(startUp, w) <= w
  {
  }

  lemma NewerAckIsAhead(last: AckPacket, ap: AckPacket, ack: AckPacket, acks: seq<int>)
    requires AckHistory(ack, acks) && LastAck(last, acks)
    requires 1 <= ap.ackSeq <= |acks| && ap.rxWinStart == acks[ap.ackSeq - 1] && last.ackSeq <= ap.ackSeq
    ensures last.rxWinStart <= ap.rxWinStart && LastAck(ap, acks)
  {
  }

  lemma HandleAckKeepsSending(tx: Tx, log: seq<seq<U8>>, written: seq<U8>, m: int, start: int,
                              ap: AckPacket, ack: AckPacket, acks: seq<int>)
    requires Sending(tx, log, written, m) && HeldStarts(tx, start) && WindowSize(m)
    requires AckHistory(ack, acks) && LastAck(tx.lastRxAck, acks) && ack.rxWinStart <= Sent(tx, log) + 1
    requires GoodFeedback(Ack(ap), ack.rxWinStart, Sent(tx, log), acks, m)
    requires TxBase(tx, log) <= ack.rxWinStart
    ensures
      var tx' := HandleAck(Unbounded, tx, ap).tx;
      && Sending(tx', log, written, m) && HeldStarts(tx', start)
      && Sent(tx', log) == Sent(tx, log)
      && TxBase(tx', log) == (if ap.rxWinStart <= TxBase(tx, log) then TxBase(tx, log) else ap.rxWinStart)
      && LastAck(tx'.lastRxAck, acks)
  {
    var tx' := HandleAck(Unbounded, tx, ap).tx;
    AdvanceKeepsSending(tx, log, written, m, ap.rxWinStart, start);
    GrowBounds(tx.startUp, tx.winSize, m);
    SpansProper(ap.missed, ap.rxWinStart, ap.rxWinEnd);
    ProperWiden(ap.missed, ap.rxWinEnd, Sent(tx, log));
    if tx.lastRxAck.ackSeq <= ap.ackSeq { NewerAckIsAhead(tx.lastRxAck, ap, ack, acks); }
    assert tx'.win == AdvanceTx(Unbounded, tx, ap.rxWinStart).win;
  }

  lemma HandleNackKeepsSending(tx: Tx, log: seq<seq<U8>>, written: seq<U8>, m: int, start: int,
                               s: int, first: int, last: int)
    requires Sending(tx, log, written, m) && HeldStarts(tx, start)
    requires 1 <= s <= first <= last <= Sent(tx, log)
    ensures
      var tx' := HandleNack(Unbounded, tx, s, first, last);
      && Sending(tx', log, written, m) && HeldStarts(tx', start)
      && Sent(tx', log) == Sent(tx, log) && tx'.lastRxAck == tx.lastRxAck
      && TxBase(tx', log) == (if s <= TxBase(tx, log) then TxBase(tx, log) else s)
  {
    AdvanceKeepsSending(tx, log, written, m, s, start);
    ShrinkBounds(tx.startUp, tx.winSize);
    ProperAdd(tx.missList, first, last, Sent(tx, log));
  }

  lemma HearAckKeeps(x: Side, y: Side, mx: int, my: int, ap: AckPacket)
    requires Pair(x, y, mx, my) && WindowSize(my)
    requires GoodFeedback(Ack(ap), y.rx.ack.rxWinStart, Sent(x.tx, x.log), y.ackStarts, my)
    ensures
      var t := Deliver(Unbounded, x, Ack(ap));
      Pair(t.side, y, mx, my) && GoodOut(t.out, t.side, y, mx)
  {
    HandleAckKeepsSending(x.tx, x.log, x.written, my, x.rx.ack.rxWinStart, ap, y.rx.ack, y.ackStarts);
    Ack2IsGood(HandleAck(Unbounded, x.tx, ap).out, x.log, Sent(x.tx, x.log), x.rx.ack.rxWinStart, Sent(y.tx, y.log),
        x.ackStarts, mx);
  }

  lemma Ack2IsGood(out: seq<Datagram>, log: seq<seq<U8>>, sent: int, start: int, sent': int, acks: seq<int>, m: int)
    requires |out| <= 1 && (|out| == 1 ==> out[0].Ack2?)
    ensures AllData(out, log, sent) && AllFeedback(out, start, sent', acks, m)
  {
    if out != [] { assert out[1..] == []; }
  }

  lemma HearNackKeeps(x: Side, y: Side, mx: int, my: int, s: int, first: int, last: int)
    requires Pair(x, y, mx, my)
    requires GoodFeedback(Nack(s, first, last), y.rx.ack.rxWinStart, Sent(x.tx, x.log), y.ackStarts, my)
    ensures Pair(Deliver(Unbounded, x, Nack(s, first, last)).side, y, mx, my)
  {
    HandleNackKeepsSending(x.tx, x.log, x.written, my, x.rx.ack.rxWinStart, s, first, last);
  }

  // -------------------------------------------------------------- hearing data

  lemma {:induction false} PayloadsAppend(win: seq<DataPacket>, log: seq<seq<U8>>, start: int, p: DataPacket)
    requires Payloads(win, log, start) && Payload(p, log, start)
    ensures Payloads(win + [p], log, start)
  {
    if win == [] {
      assert (win + [p])[1..] == [];
    } else {
      assert (win + [p])[1..] == win[1..] + [p];
      PayloadsAppend(win[1..], log, start, p);
    }
  }

  lemma {:induction false} PayloadsInsert(win: seq<DataPacket>, log: seq<seq<U8>>, start: int, p: DataPacket)
    requires Payloads(win, log, start) && Payload(p, log, start)
    ensures Payloads(Insert(Unbounded, win, p), log, start)
  {
    var r := Insert(Unbounded, win, p);
    if win != [] && win[0].num < p.num {
      assert r[1..] == Insert(Unbounded, win[1..], p);
      PayloadsInsert(win[1..], log, start, p);
    } else {
      assert r[1..] == win;
    }
  }

  lemma RemoveKeepsWindow(win: seq<DataPacket>, missed: seq<Range>, lo: int, hi: int, n: int)
    requires Window(win, missed, lo, hi) && (n < lo || n > hi || Has(win, n))
    ensures Window(win, Remove(Unbounded, missed, n), lo, hi)
  {
    RemoveExact(missed, lo, hi, n, n);
    forall x | lo <= x <= hi
      ensures Has(win, x) <==> !Held(Remove(Unbounded, missed, n), x)
    {
      RemoveExact(missed, lo, hi, n, x);
    }
  }

  lemma AppendKeepsWindow(win: seq<DataPacket>, missed: seq<Range>, lo: int, hi: int, p: DataPacket)
    requires Window(win, missed, lo, hi) && lo <= hi + 1 && hi < p.num
    ensures Window(win + [p], if p.num == hi + 1 then missed else Add(Unbounded, missed, hi + 1, p.num - 1), lo, p.num)
  {
    var missed' := if p.num == hi + 1 then missed else Add(Unbounded, missed, hi + 1, p.num - 1);
    AscendingAppend(win, lo, hi, p, p.num);
    if p.num > hi + 1 { AppendExact(missed, lo, hi + 1, p.num - 1, p.num); }
    SpansWiden(missed', lo, p.num - 1, lo, p.num);
    forall x | lo <= x <= p.num
      ensures Has(win + [p], x) <==> !Held(missed', x)
    {
      AscendingAppend(win, lo, hi, p, x);
      if p.num > hi + 1 { AppendExact(missed, lo, hi + 1, p.num - 1, x); }
      if x > hi {
        if Has(win, x) { AscendingBounds(win, lo, hi, x); }
        if Held(missed, x) { SpansBounds(missed, lo, hi, x); }
      }
    }
  }

  lemma InsertKeepsWindow(win: seq<DataPacket>, missed: seq<Range>, lo: int, hi: int, p: DataPacket)
    requires Window(win, missed, lo, hi) && lo <= p.num <= hi && !Present(Unbounded, win, p.num)
    ensures Window(Insert(Unbounded, win, p), Remove(Unbounded, Remove(Unbounded, missed, p.num), p.num), lo, hi)
  {
    var once := Remove(Unbounded, missed, p.num);
    RemoveExact(missed, lo, hi, p.num, p.num);
    RemoveExact(once, lo, hi, p.num, p.num);
    InsertExact(win, lo, hi, p, p.num);
    forall x | lo <= x <= hi
      ensures Has(Insert(Unbounded, win, p), x) <==> !Held(Remove(Unbounded, once, p.num), x)
    {
      InsertExact(win, lo, hi, p, x);
      RemoveExact(missed, lo, hi, p.num, x);
      RemoveExact(once, lo, hi, p.num, x);
    }
  }

  /** Every arrival order keeps the receiver's half: a packet extends the window,
      fills a hole in it, or changes nothing, and never runs past its end. */
  lemma AcceptKeepsReceiving(rx: Rx, delivered: seq<U8>, log: seq<seq<U8>>, sent: int, m: int, p: DataPacket)
    requires Receiving(rx, delivered, log, sent, m) && sent < rx.ack.rxWinStart + m
    requires 1 <= p.num <= sent && p.data == log[p.num - 1] != []
    ensures Receiving(Accept(Unbounded, rx, p).rx, delivered, log, sent, m)
  {
    var lo, hi, missed := rx.ack.rxWinStart, rx.ack.rxWinEnd, rx.ack.missed;
    var rx' := Accept(Unbounded, rx, p).rx;
    if p.num > hi {
      RemoveKeepsWindow(rx.win, missed, lo, hi, p.num);
      AppendKeepsWindow(rx.win, Remove(Unbounded, missed, p.num), lo, hi, p);
      WholePayload(p, log, lo);
      PayloadsAppend(rx.win, log, lo, p);
      SameFront(rx.win, rx.win + [p], lo, log, p);
    } else if p.num < lo || Present(Unbounded, rx.win, p.num) {
      PresentIsHas(rx.win, lo, hi, p.num);
      RemoveKeepsWindow(rx.win, missed, lo, hi, p.num);
    } else {
      InsertKeepsWindow(rx.win, missed, lo, hi, p);
      WholePayload(p, log, lo);
      PayloadsInsert(rx.win, log, lo, p);
      SameFront(rx.win, Insert(Unbounded, rx.win, p), lo, log, p);
    }
  }

  lemma WholePayload(p: DataPacket, log: seq<seq<U8>>, start: int)
    requires 1 <= p.num <= |log| && p.data == log[p.num - 1] != []
    ensures Payload(p, log, start)
  {
  }

  lemma SameFront(win: seq<DataPacket>, win': seq<DataPacket>, start: int, log: seq<seq<U8>>, p: DataPacket)
    requires Payloads(win, log, start) && Payloads(win', log, start) && win' != []
    requires 1 <= p.num <= |log| && p.data == log[p.num - 1]
    requires (win != [] && win'[0] == win[0]) || (win'[0] == p && (win != [] ==> start <= p.num < win[0].num))
    ensures Consumed(win', start, log) == Consumed(win, start, log)
  {
  }

  lemma NackIsGood(rx: Rx, p: DataPacket, log: seq<seq<U8>>, sent: int, sent': int, acks: seq<int>, m: int)
    requires 1 <= rx.ack.rxWinStart <= rx.ack.rxWinEnd + 1 && p.num <= sent'
    ensures
      var e := Accept(Unbounded, rx, p);
      && AllData(e.out, log, sent) && AllFeedback(e.out, rx.ack.rxWinStart, sent', acks, m)
      && e.rx.ack.rxWinStart == rx.ack.rxWinStart && e.rx.ack.ackSeq == rx.ack.ackSeq
  {
    var out := Accept(Unbounded, rx, p).out;
    if out != [] { assert out[1..] == []; }
  }

  lemma AcceptKeepsFlow(x: Side, y: Side, m: int, p: DataPacket)
    requires Flow(y, x, m) && 1 <= p.num <= Sent(y.tx, y.log) && p.data == y.log[p.num - 1]
    ensures Flow(y, x.(rx := Accept(Unbounded, x.rx, p).rx), m)
  {
    var sent := Sent(y.tx, y.log);
    AcceptKeepsReceiving(x.rx, x.delivered, y.log, sent, m, p);
    NackIsGood(x.rx, p, x.log, 0, sent, x.ackStarts, m);
    AckHistoryGrows(x.rx.ack, Accept(Unbounded, x.rx, p).rx.ack, x.ackStarts);
  }

  lemma HearDataKeeps(x: Side, y: Side, mx: int, my: int, s: int, num: int, payload: seq<U8>)
    requires Pair(x, y, mx, my)
    requires GoodFeedback(Data(s, num, payload), y.rx.ack.rxWinStart, Sent(x.tx, x.log), y.ackStarts, my)
    requires GoodData(Data(s, num, payload), y.log, Sent(y.tx, y.log))
    ensures
      var t := Deliver(Unbounded, x, Data(s, num, payload));
      Pair(t.side, y, mx, my) && GoodOut(t.out, t.side, y, mx)
  {
    var p := DataPacket(s, num, payload, 0);
    AdvanceKeepsSending(x.tx, x.log, x.written, my, s, x.rx.ack.rxWinStart);
    AcceptKeepsFlow(x, y, mx, p);
    NackIsGood(x.rx, p, x.log, Sent(x.tx, x.log), Sent(y.tx, y.log), x.ackStarts, mx);
    var t, e := Deliver(Unbounded, x, Data(s, num, payload)), Accept(Unbounded, x.rx, p);
    assert t.side == x.(tx := AdvanceTx(Unbounded, x.tx, s), rx := e.rx) && t.out == e.out;
  }

  lemma HearAck2Keeps(x: Side, y: Side, mx: int, my: int, ap: AckPacket)
    requires Pair(x, y, mx, my)
    ensures Pair(Deliver(Unbounded, x, Ack2(ap)).side, y, mx, my)
  {
    assert Receiving(x.rx.(ack2 := ap), x.delivered, y.log, Sent(y.tx, y.log), mx);
  }

  lemma DeliverKeeps(x: Side, y: Side, mx: int, my: int, d: Datagram)
    requires Pair(x, y, mx, my) && WindowSize(my)
    requires GoodFeedback(d, y.rx.ack.rxWinStart, Sent(x.tx, x.log), y.ackStarts, my)
    requires GoodData(d, y.log, Sent(y.tx, y.log))
    ensures
      var t := Deliver(Unbounded, x, d);
      Pair(t.side, y, mx, my) && GoodOut(t.out, t.side, y, mx)
  {
    match d
    case Data(s, num, payload) => HearDataKeeps(x, y, mx, my, s, num, payload);
    case Ack(ap) => HearAckKeeps(x, y, mx, my, ap);
    case Nack(s, first, last) => HearNackKeeps(x, y, mx, my, s, first, last);
    case Ack2(ap) => HearAck2Keeps(x, y, mx, my, ap);
  }

  // ---------------------------------------------------------------- whole steps

  lemma PerformKeeps(x: Side, y: Side, mx: int, my: int, act: Action)
    requires Pair(x, y, mx, my) && WindowSize(my) && Enabled(Unbounded, x, act)
    ensures
      var t := Perform(Unbounded, x, act);
      Pair(t.side, y, mx, my) && GoodOut(t.out, t.side, y, mx)
  {
    match act
    case Write(b) => WriteKeeps(x, y, mx, my, b);
    case PackNext => PackKeeps(x, y, mx, my);
    case CommitPending => CommitKeeps(x, y, mx, my);
    case Read(n) => ReadKeeps(x, y, mx, my, n);
    case OnSyn => AcknowledgeKeeps(x, y, mx, my);
    case RunRetransmit => SendAgainKeeps(x, y, mx, my);
    case Receive(i) =>
      TakeKeeps(x, y, mx, my, i);
      DeliverKeeps(x.(inbox := Without(x.inbox, i)), y, mx, my, x.inbox[i]);
  }

  lemma MeetKeeps(x: Side, y: Side, mx: int, my: int, act: Action)
    requires Pair(x, y, mx, my) && WindowSize(my)
    ensures Pair(Meet(Unbounded, x, y, act).0, Meet(Unbounded, x, y, act).1, mx, my)
  {
    if Enabled(Unbounded, x, act) {
      PerformKeeps(x, y, mx, my, act);
      var t := Perform(Unbounded, x, act);
      PostKeeps(t.side, y, mx, my, t.out);
    }
  }

  lemma NetworkKeeps(x: Side, y: Side, mx: int, my: int, lose: bool, i: nat)
    requires Pair(x, y, mx, my)
    ensures Pair(Network(x, lose, i), y, mx, my)
  {
    if i < |x.inbox| {
      TakeKeeps(x, y, mx, my, i);
      if !lose {
        var d := x.inbox[i];
        assert [d][1..] == [];
        AllDataAppend(x.inbox, [d], y.log, Sent(y.tx, y.log));
        AllFeedbackAppend(x.inbox, [d], y.rx.ack.rxWinStart, Sent(x.tx, x.log), y.ackStarts, my);
      }
    }
  }

  lemma NextKeeps(w: World, windowA: int, windowB: int, step: Step)
    requires Good(w, windowA, windowB) && WindowSize(windowA) && WindowSize(windowB)
    ensures Good(Next(Unbounded, w, step), windowA, windowB)
  {
    match step
    case Act(true, act) => MeetKeeps(w.a, w.b, windowA, windowB, act);
    case Act(false, act) => MeetKeeps(w.b, w.a, windowB, windowA, act);
    case Lose(toA, i) =>
      if toA { NetworkKeeps(w.a, w.b, windowA, windowB, true, i); }
      else { NetworkKeeps(w.b, w.a, windowB, windowA, true, i); }
    case Duplicate(toA, i) =>
      if toA { NetworkKeeps(w.a, w.b, windowA, windowB, false, i); }
      else { NetworkKeeps(w.b, w.a, windowB, windowA, false, i); }
  }

  lemma {:induction false} RunsAreGood(windowA: int, windowB: int, steps: seq<Step>)
    requires WindowSize(windowA) && WindowSize(windowB)
    ensures Good(Exec(Unbounded, Init(windowA, windowB), steps), windowA, windowB)
  {
    if steps == [] {
      InitGood(windowA, windowB);
    } else {
      var before := steps[..|steps| - 1];
      RunsAreGood(windowA, windowB, before);
      NextKeeps(Exec(Unbounded, Init(windowA, windowB), before), windowA, windowB, steps[|steps| - 1]);
    }
  }

  // ------------------------------------------------------------------- theorems

  /** What is delivered is a prefix of what was written. */
  lemma FlowDeliversPrefix(s: Side, r: Side, m: int)
    requires Flow(s, r, m)
    ensures r.delivered <= s.written
  {
    var start := r.rx.ack.rxWinStart;
    if r.rx.win != [] && r.rx.win[0].num == start {
      FlattenPrefix(s.log, start);
      assert s.log[..start][..start - 1] == s.log[..start - 1];
    } else {
      FlattenPrefix(s.log, start - 1);
    }
  }

  lemma {:induction false} AscendingLength(win: seq<DataPacket>, lo: int, hi: int)
    requires Ascending(win, lo, hi) && lo <= hi + 1
    ensures |win| <= hi - lo + 1
  {
    if win != [] { AscendingLength(win[1..], win[0].num + 1, hi); }
  }

  /** The receiver never buffers more packets than its window, nothing in flight or
      still to be retransmitted lies past it, and the sender's own window never
      leaves 1 to the peer's. */
  lemma FlowStaysInWindow(s: Side, r: Side, m: int, i: nat)
    requires Flow(s, r, m)
    ensures |r.rx.win| <= m && 1 <= s.tx.winSize <= m && !r.rx.overran
    ensures Sent(s.tx, s.log) < r.rx.ack.rxWinStart + m
    ensures i < |r.inbox| && r.inbox[i].Data? ==> r.inbox[i].num < r.rx.ack.rxWinStart + r.rx.ack.rxWinSize
  {
    AscendingLength(r.rx.win, r.rx.ack.rxWinStart, r.rx.ack.rxWinEnd);
    if i < |r.inbox| { AllDataPick(r.inbox, i, s.log, Sent(s.tx, s.log)); }
  }

  /** Every number sent and not yet consumed by the receiver is still in the sender's
      window, with its payload. */
  lemma FlowForgetsNothing(s: Side, r: Side, m: int, n: int)
    requires Flow(s, r, m) && r.rx.ack.rxWinStart <= n <= Sent(s.tx, s.log)
    ensures exists i :: 0 <= i < |s.tx.win| && s.tx.win[i].num == n && s.tx.win[i].data == s.log[n - 1]
  {
    var i := n - TxBase(s.tx, s.log);
    assert s.tx.win[i].num == n;
  }
}
