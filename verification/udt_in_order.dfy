/** Over a link that may lose datagrams but keeps their order, everything a report
    names as missing is still in the sender's window once the report is handled. */
module UdtInOrder {
  import opened Bytes
  import opened Common
  import opened MissLists
  import opened SequenceNumbers
  import opened UdtEndpoint
  import opened UdtWorld
  import opened UdtSafety
  import opened UdtWrapAround

  predicate InOrderStep(step: Step) {
    match step
    case Act(_, Receive(i)) => i == 0
    case Act(_, _) => true
    case Lose(_, _) => true
    case Duplicate(_, _) => false
  }

  predicate InOrder(steps: seq<Step>) {
    forall i :: 0 <= i < |steps| ==> InOrderStep(steps[i])
  }

  predicate IsReport(d: Datagram) {
    d.Ack? || d.Nack?
  }

  // the window start a datagram makes its receiver advance to
  function Reached(d: Datagram, lo: int): int {
    match d
    case Data(s, _, _) => if s > lo then s else lo
    case Ack(ap) => if ap.rxWinStart > lo then ap.rxWinStart else lo
    case Nack(s, _, _) => if s > lo then s else lo
    case Ack2(_) => lo
  }

  /** Every report carries a window start no smaller than lo and than all starts
      that are in front of it. */
  predicate Rising(net: seq<Datagram>, lo: int) {
    net == [] || ((IsReport(net[0]) ==> lo <= Start(net[0])) && Rising(net[1..], Reached(net[0], lo)))
  }

  function Start(d: Datagram): int
    requires IsReport(d)
  {
    if d.Ack? then d.ack.rxWinStart else d.rxWinStart
  }

  // new datagrams: no start past r, and reports exactly at r
  predicate ReportsAt(out: seq<Datagram>, r: int) {
    out == [] || (Reached(out[0], r) == r && (IsReport(out[0]) ==> Start(out[0]) == r) && ReportsAt(out[1..], r))
  }

  lemma {:induction false} RisingLower(net: seq<Datagram>, lo: int, lo': int)
    requires Rising(net, lo) && lo' <= lo
    ensures Rising(net, lo')
  {
    if net != [] { RisingLower(net[1..], Reached(net[0], lo), Reached(net[0], lo')); }
  }

  lemma {:induction false} RisingWithout(net: seq<Datagram>, lo: int, i: nat)
    requires Rising(net, lo) && i < |net|
    ensures Rising(Without(net, i), lo)
  {
    if i == 0 {
      assert Without(net, i) == net[1..];
      RisingLower(net[1..], Reached(net[0], lo), lo);
    } else {
      RisingWithout(net[1..], Reached(net[0], lo), i - 1);
      assert Without(net, i)[1..] == Without(net[1..], i - 1);
    }
  }

  lemma {:induction false} ReportsRise(out: seq<Datagram>, r: int, lo: int)
    requires ReportsAt(out, r) && lo <= r
    ensures Rising(out, lo)
  {
    if out != [] { ReportsRise(out[1..], r, Reached(out[0], lo)); }
  }

  lemma {:induction false} RisingAppend(net: seq<Datagram>, lo: int, out: seq<Datagram>, r: int, sent: int,
                                        acks: seq<int>, m: int)
    requires Rising(net, lo) && AllFeedback(net, r, sent, acks, m) && lo <= r && ReportsAt(out, r)
    ensures Rising(net + out, lo)
  {
    if net == [] {
      assert net + out == out;
      ReportsRise(out, r, lo);
    } else {
      assert (net + out)[1..] == net[1..] + out;
      RisingAppend(net[1..], Reached(net[0], lo), out, r, sent, acks, m);
    }
  }

  predicate Ordered(x: Side, y: Side) {
    Rising(x.inbox, TxBase(x.tx, x.log)) && Rising(y.inbox, TxBase(y.tx, y.log))
  }

  // ------------------------------------------------------------- one step

  lemma {:induction false} FramesReport(out: seq<Datagram>, log: seq<seq<U8>>, sent: int, start: int)
    requires Frames(out, log, sent, start)
    ensures ReportsAt(out, start)
  {
    if out != [] { FramesReport(out[1..], log, sent, start); }
  }

  lemma OneReports(out: seq<Datagram>, r: int)
    requires |out| <= 1 && (|out| == 1 ==> Reached(out[0], r) == r && (IsReport(out[0]) ==> Start(out[0]) == r))
    ensures ReportsAt(out, r)
  {
    if out != [] { assert out[1..] == []; }
  }

  lemma AcceptReports(rx: Rx, p: DataPacket)
    ensures ReportsAt(Accept(Unbounded, rx, p).out, rx.ack.rxWinStart)
  {
    OneReports(Accept(Unbounded, rx, p).out, rx.ack.rxWinStart);
  }

  lemma HandleAckReports(tx: Tx, ap: AckPacket, r: int)
    ensures ReportsAt(HandleAck(Unbounded, tx, ap).out, r)
  {
    OneReports(HandleAck(Unbounded, tx, ap).out, r);
  }

  lemma DeliverAdvances(x: Side, y: Side, mx: int, my: int, d: Datagram)
    requires Pair(x, y, mx, my) && WindowSize(my)
    requires GoodFeedback(d, y.rx.ack.rxWinStart, Sent(x.tx, x.log), y.ackStarts, my)
    ensures
      var t := Deliver(Unbounded, x, d);
      && TxBase(t.side.tx, x.log) == Reached(d, TxBase(x.tx, x.log))
      && ReportsAt(t.out, x.rx.ack.rxWinStart)
  {
    var r := x.rx.ack.rxWinStart;
    match d
    case Data(s, num, payload) =>
      AdvanceKeepsSending(x.tx, x.log, x.written, my, s, r);
      AcceptReports(x.rx, DataPacket(s, num, payload, 0));
    case Ack(ap) =>
      HandleAckKeepsSending(x.tx, x.log, x.written, my, r, ap, y.rx.ack, y.ackStarts);
      HandleAckReports(x.tx, ap, r);
    case Nack(s, first, last) => HandleNackKeepsSending(x.tx, x.log, x.written, my, r, s, first, last);
    case Ack2(_) =>
  }

  /** What an action that receives nothing leaves of the sender's base and sends. */
  lemma PerformAdvances(x: Side, y: Side, mx: int, my: int, act: Action)
    requires Pair(x, y, mx, my) && Enabled(Unbounded, x, act) && !act.Receive?
    ensures
      var t := Perform(Unbounded, x, act);
      && TxBase(t.side.tx, t.side.log) == TxBase(x.tx, x.log) && t.side.inbox == x.inbox
      && ReportsAt(t.out, x.rx.ack.rxWinStart)
  {
    var r := x.rx.ack.rxWinStart;
    match act
    case RunRetransmit =>
      RetransmitKeepsSending(x.tx, x.log, x.written, my, r);
      FramesReport(SendAgain(Unbounded, x).out, x.log, Sent(x.tx, x.log), r);
    case CommitPending => OneReports(CommitPacket(x).out, r);
    case OnSyn => OneReports(Acknowledge(Unbounded, x).out, r);
    case _ =>
  }

  lemma ActKeepsOrder(x: Side, y: Side, mx: int, my: int, act: Action)
    requires Pair(x, y, mx, my) && WindowSize(my) && Ordered(x, y) && Enabled(Unbounded, x, act)
    requires act.Receive? ==> act.i == 0
    ensures
      var t := Perform(Unbounded, x, act);
      Rising(t.side.inbox, TxBase(t.side.tx, t.side.log)) && ReportsAt(t.out, x.rx.ack.rxWinStart)
  {
    if act.Receive? {
      TakeKeeps(x, y, mx, my, 0);
      DeliverAdvances(x.(inbox := Without(x.inbox, 0)), y, mx, my, x.inbox[0]);
      assert Without(x.inbox, 0) == x.inbox[1..];
    } else {
      PerformAdvances(x, y, mx, my, act);
    }
  }

  lemma MeetKeepsOrder(x: Side, y: Side, mx: int, my: int, act: Action)
    requires Pair(x, y, mx, my) && WindowSize(my) && Ordered(x, y) && (act.Receive? ==> act.i == 0)
    ensures Ordered(Meet(Unbounded, x, y, act).0, Meet(Unbounded, x, y, act).1)
  {
    if Enabled(Unbounded, x, act) {
      ActKeepsOrder(x, y, mx, my, act);
      RisingAppend(y.inbox, TxBase(y.tx, y.log), Perform(Unbounded, x, act).out, x.rx.ack.rxWinStart,
                   Sent(y.tx, y.log), x.ackStarts, mx);
    }
  }

  lemma NextKeepsOrder(w: World, windowA: int, windowB: int, step: Step)
    requires Good(w, windowA, windowB) && WindowSize(windowA) && WindowSize(windowB)
    requires Ordered(w.a, w.b) && InOrderStep(step)
    ensures Ordered(Next(Unbounded, w, step).a, Next(Unbounded, w, step).b)
  {
    match step
    case Act(true, act) => MeetKeepsOrder(w.a, w.b, windowA, windowB, act);
    case Act(false, act) => MeetKeepsOrder(w.b, w.a, windowB, windowA, act);
    case Lose(toA, i) =>
      if toA && i < |w.a.inbox| { RisingWithout(w.a.inbox, TxBase(w.a.tx, w.a.log), i); }
      if !toA && i < |w.b.inbox| { RisingWithout(w.b.inbox, TxBase(w.b.tx, w.b.log), i); }
  }

  lemma {:induction false} InOrderRuns(windowA: int, windowB: int, steps: seq<Step>)
    requires WindowSize(windowA) && WindowSize(windowB) && InOrder(steps)
    ensures
      var w := Exec(Unbounded, Init(windowA, windowB), steps);
      Good(w, windowA, windowB) && Ordered(w.a, w.b)
  {
    RunsAreGood(windowA, windowB, steps);
    if steps != [] {
      var before := steps[..|steps| - 1];
      InOrderRuns(windowA, windowB, before);
      NextKeepsOrder(Exec(Unbounded, Init(windowA, windowB), before), windowA, windowB, steps[|steps| - 1]);
    }
  }

  // -------------------------------------------------------------- theorems

  lemma {:induction false} WindowHas(win: seq<DataPacket>, base: int, log: seq<seq<U8>>, n: int)
    requires TxWindow(win, base, log)
    ensures Has(win, n) <==> base <= n < base + |win|
  {
    if win != [] { WindowHas(win[1..], base + 1, log, n); }
  }

  /** The next datagram at x is a report: after it is handled, every number it names
      as missing is in x's window. */
  lemma ReportedNumbersAreHeld(x: Side, y: Side, mx: int, my: int, n: int)
    requires Pair(x, y, mx, my) && WindowSize(my) && Ordered(x, y) && x.inbox != []
    ensures
      var tx' := Deliver(Unbounded, x, x.inbox[0]).side.tx;
      && (x.inbox[0].Ack? ==> tx'.missList == x.inbox[0].ack.missed && (Held(tx'.missList, n) ==> Has(tx'.win, n)))
      && (x.inbox[0].Nack? && x.inbox[0].first <= n <= x.inbox[0].last ==> Has(tx'.win, n))
  {
    var d, r := x.inbox[0], x.rx.ack.rxWinStart;
    TakeKeeps(x, y, mx, my, 0);
    match d
    case Ack(ap) =>
      HandleAckKeepsSending(x.tx, x.log, x.written, my, r, ap, y.rx.ack, y.ackStarts);
      if Held(ap.missed, n) { SpansBounds(ap.missed, ap.rxWinStart, ap.rxWinEnd, n); }
      var tx' := HandleAck(Unbounded, x.tx, ap).tx;
      WindowHas(tx'.win, TxBase(tx', x.log), x.log, n);
    case Nack(s, first, last) =>
      HandleNackKeepsSending(x.tx, x.log, x.written, my, r, s, first, last);
      var tx' := HandleNack(Unbounded, x.tx, s, first, last);
      WindowHas(tx'.win, TxBase(tx', x.log), x.log, n);
    case _ =>
  }

  lemma HeldRest(rs: seq<Range>, hi: int, n: int)
    requires rs != [] && Proper(rs, hi)
    ensures Held(rs, n) <==> n == rs[0].first || Held(Rest(Unbounded, rs), n)
  {
    if rs[0].first != rs[0].last { assert Rest(Unbounded, rs)[1..] == rs[1..]; }
  }

  /** The retransmitter gives up exactly when some number in its list is not in the
      window. */
  lemma {:induction false} RetransmitExitsIff(win: seq<DataPacket>, rs: seq<Range>, ackSeq: int, hi: int)
    requires Proper(rs, hi)
    ensures RetransmitAll(Unbounded, win, rs, ackSeq).exited <==> exists n :: Held(rs, n) && !Has(win, n)
    decreases PopCount(Unbounded, rs)
  {
    if rs != [] {
      ProperRest(rs, hi);
      var first, rest := rs[0].first, Rest(Unbounded, rs);
      var i := FindNum(win, first);
      FindNumIsHas(win, first);
      HeldRest(rs, hi, first);
      if i < |win| {
        var win' := Remark(Unbounded, win, i, ackSeq);
        RetransmitExitsIff(win', rest, ackSeq, hi);
        FoundTurn(Unbounded, win, rs, ackSeq, i, rest, win');
        forall n
          ensures Held(rs, n) && !Has(win, n) <==> Held(rest, n) && !Has(win', n)
        {
          HeldRest(rs, hi, n);
          RemarkHas(win, i, ackSeq, n);
        }
      } else {
        MissingTurn(Unbounded, win, rs, ackSeq, rest);
      }
    }
  }

  lemma {:induction false} FindNumIsHas(win: seq<DataPacket>, n: int)
    ensures Has(win, n) <==> FindNum(win, n) < |win|
  {
    if win != [] { FindNumIsHas(win[1..], n); }
  }

  lemma RemarkHas(win: seq<DataPacket>, i: nat, ackSeq: int, n: int)
    requires i < |win|
    ensures Has(Remark(Unbounded, win, i, ackSeq), n) <==> Has(win, n)
  {
    FindNumIsHas(win, n);
    FindNumIsHas(Remark(Unbounded, win, i, ackSeq), n);
    var win' := Remark(Unbounded, win, i, ackSeq);
    assert forall j :: 0 <= j < |win| ==> win'[j].num == win[j].num;
    if Has(win, n) { assert win'[FindNum(win, n)].num == n; }
    if Has(win', n) { assert win[FindNum(win', n)].num == n; }
  }

  /** In an in-order run, a retransmission that directly follows an ack never meets a
      number the sender has dropped. */
  lemma RetransmitAfterAckSucceeds(x: Side, y: Side, mx: int, my: int)
    requires Pair(x, y, mx, my) && WindowSize(my) && Ordered(x, y)
    requires x.inbox != [] && x.inbox[0].Ack? && !x.tx.exited
    ensures !Retransmit(Unbounded, Deliver(Unbounded, x, x.inbox[0]).side.tx).tx.exited
  {
    var tx' := Deliver(Unbounded, x, x.inbox[0]).side.tx;
    TakeKeeps(x, y, mx, my, 0);
    HandleAckKeepsSending(x.tx, x.log, x.written, my, x.rx.ack.rxWinStart, x.inbox[0].ack, y.rx.ack, y.ackStarts);
    RetransmitExitsIff(tx'.win, tx'.missList, tx'.ack2.ackSeq, Sent(tx', x.log));
    forall n | Held(tx'.missList, n)
      ensures Has(tx'.win, n)
    {
      ReportedNumbersAreHeld(x, y, mx, my, n);
    }
  }
}
