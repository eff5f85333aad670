/** The promises of the channel, for every run on 16-bit sequence numbers that stays
    in reach: in-order exactly-once delivery, no overrun, nothing forgotten, and
    retransmissions that repeat the first transmission. */
module UdtTheorems {
  import opened Bytes
  import opened Common
  import opened MissLists
  import opened SequenceNumbers
  import opened UdtEndpoint
  import opened UdtWorld
  import opened UdtSafety
  import opened UdtWrapAround
  import opened UdtInOrder

  // ------------------------------------- retransmissions repeat the original

  function SideOf(w: World, atA: bool): Side {
    if atA then w.a else w.b
  }

  /** The datagrams with which one side sent each of its packets for the first time. */
  function FirstSent(windowA: int, windowB: int, steps: seq<Step>, atA: bool): seq<Datagram> {
    if steps == [] then []
    else
      var before := steps[..|steps| - 1];
      var s := SideOf(Exec(Unbounded, Init(windowA, windowB), before), atA);
      FirstSent(windowA, windowB, before, atA)
      + if steps[|steps| - 1] == Act(atA, CommitPending) && Enabled(Unbounded, s, CommitPending)
        then [Frame(s.tx.pending.value)] else []
  }

  predicate IsFirst(d: Datagram, firsts: seq<Datagram>) {
    d.Data? ==> 1 <= d.num <= |firsts| && d == firsts[d.num - 1]
  }

  predicate AllFirst(net: seq<Datagram>, firsts: seq<Datagram>) {
    forall i :: 0 <= i < |net| ==> IsFirst(net[i], firsts)
  }

  predicate Remembers(win: seq<DataPacket>, base: int, firsts: seq<Datagram>) {
    && 1 <= base && |firsts| == base - 1 + |win|
    && forall i :: 0 <= i < |win| ==> win[i].num == base + i && Frame(win[i]) == firsts[base + i - 1]
  }

  predicate SenderRepeats(s: Side, r: Side, firsts: seq<Datagram>) {
    && Remembers(s.tx.win, TxBase(s.tx, s.log), firsts)
    && AllFirst(r.inbox, firsts)
  }

  lemma AllFirstConcat(xs: seq<Datagram>, ys: seq<Datagram>, firsts: seq<Datagram>, more: seq<Datagram>)
    requires AllFirst(xs, firsts) && AllFirst(ys, firsts)
    ensures AllFirst(xs + ys, firsts + more)
  {
  }

  lemma RemarkRepeats(win: seq<DataPacket>, i: nat, ackSeq: int, base: int, firsts: seq<Datagram>)
    requires Remembers(win, base, firsts) && i < |win|
    ensures Remembers(Remark(Unbounded, win, i, ackSeq), base, firsts)
    ensures AllFirst(Resend(win[i], ackSeq), firsts)
  {
    assert Frame(win[i]) == firsts[base + i - 1];
  }

  lemma {:induction false} RetransmitRepeats(win: seq<DataPacket>, rs: seq<Range>, ackSeq: int, base: int,
                                             firsts: seq<Datagram>)
    requires Remembers(win, base, firsts)
    ensures
      var r := RetransmitAll(Unbounded, win, rs, ackSeq);
      Remembers(r.win, base, firsts) && AllFirst(r.out, firsts)
    decreases PopCount(Unbounded, rs)
  {
    if rs != [] && PopCount(Unbounded, Rest(Unbounded, rs)) < PopCount(Unbounded, rs) {
      var i, rest := FindNum(win, rs[0].first), Rest(Unbounded, rs);
      if i < |win| {
        var win' := Remark(Unbounded, win, i, ackSeq);
        RemarkRepeats(win, i, ackSeq, base, firsts);
        RetransmitRepeats(win', rest, ackSeq, base, firsts);
        FoundTurn(Unbounded, win, rs, ackSeq, i, rest, win');
        AllFirstConcat(Resend(win[i], ackSeq), RetransmitAll(Unbounded, win', rest, ackSeq).out, firsts, []);
        assert firsts + [] == firsts;
      } else {
        MissingTurn(Unbounded, win, rs, ackSeq, rest);
      }
    }
  }

  lemma DropRepeats(win: seq<DataPacket>, base: int, log: seq<seq<U8>>, s: int, firsts: seq<Datagram>)
    requires TxWindow(win, base, log) && Remembers(win, base, firsts)
    ensures
      var win' := DropBelow(Unbounded, win, s);
      Remembers(win', base + |win| - |win'|, firsts)
  {
    DropBelowExact(win, base, log, s);
  }

  // what one action of the sender adds to its history
  function NewFirst(x: Side, act: Action): seq<Datagram>
    requires Enabled(Unbounded, x, act)
  {
    if act.CommitPending? then [Frame(x.tx.pending.value)] else []
  }

  lemma DeliverRepeats(x: Side, log: seq<seq<U8>>, d: Datagram, firsts: seq<Datagram>)
    requires TxWindow(x.tx.win, TxBase(x.tx, x.log), log) && Remembers(x.tx.win, TxBase(x.tx, x.log), firsts)
    ensures
      var t := Deliver(Unbounded, x, d);
      Remembers(t.side.tx.win, TxBase(t.side.tx, x.log), firsts) && AllFirst(t.out, firsts)
  {
    match d
    case Data(s, _, _) => DropRepeats(x.tx.win, TxBase(x.tx, x.log), log, s, firsts);
    case Ack(ap) => DropRepeats(x.tx.win, TxBase(x.tx, x.log), log, ap.rxWinStart, firsts);
    case Nack(s, _, _) => DropRepeats(x.tx.win, TxBase(x.tx, x.log), log, s, firsts);
    case Ack2(_) =>
  }

  lemma CommitRepeats(tx: Tx, log: seq<seq<U8>>, firsts: seq<Datagram>)
    requires Pending(tx, log) && tx.pending.Some? && Remembers(tx.win, TxBase(tx, log), firsts)
    ensures
      var e := Commit(tx);
      Remembers(e.tx.win, TxBase(e.tx, log), firsts + [Frame(tx.pending.value)]) &&
          AllFirst(e.out, firsts + [Frame(tx.pending.value)])
  {
  }

  // an action that neither commits, retransmits nor receives
  lemma QuietRepeats(x: Side, y: Side, mx: int, my: int, act: Action, firsts: seq<Datagram>)
    requires Pair(x, y, mx, my) && Enabled(Unbounded, x, act) && Remembers(x.tx.win, TxBase(x.tx, x.log), firsts)
    requires !act.CommitPending? && !act.RunRetransmit? && !act.Receive?
    ensures
      var t := Perform(Unbounded, x, act);
      Remembers(t.side.tx.win, TxBase(t.side.tx, t.side.log), firsts) && AllFirst(t.out, firsts)
  {
    match act {
      case OnSyn => assert Perform(Unbounded, x, act).out[0].Ack?;
      case _ =>
    }
  }

  lemma PerformRepeats(x: Side, y: Side, mx: int, my: int, act: Action, firsts: seq<Datagram>)
    requires Pair(x, y, mx, my) && Enabled(Unbounded, x, act) && Remembers(x.tx.win, TxBase(x.tx, x.log), firsts)
    ensures
      var t := Perform(Unbounded, x, act);
      var firsts' := firsts + NewFirst(x, act);
      Remembers(t.side.tx.win, TxBase(t.side.tx, t.side.log), firsts') && AllFirst(t.out, firsts')
  {
    if act.CommitPending? {
      CommitRepeats(x.tx, x.log, firsts);
    } else {
      assert firsts + NewFirst(x, act) == firsts;
      if act.RunRetransmit? {
        RetransmitRepeats(x.tx.win, x.tx.missList, x.tx.ack2.ackSeq, TxBase(x.tx, x.log), firsts);
      } else if act.Receive? {
        DeliverRepeats(x.(inbox := Without(x.inbox, act.i)), x.log, x.inbox[act.i], firsts);
      } else {
        QuietRepeats(x, y, mx, my, act, firsts);
      }
    }
  }

  lemma MeetRepeats(x: Side, y: Side, mx: int, my: int, act: Action, firsts: seq<Datagram>)
    requires Pair(x, y, mx, my) && SenderRepeats(x, y, firsts)
    ensures
      var (x', y') := Meet(Unbounded, x, y, act);
      SenderRepeats(x', y', firsts + if Enabled(Unbounded, x, act) then NewFirst(x, act) else [])
  {
    if Enabled(Unbounded, x, act) {
      PerformRepeats(x, y, mx, my, act, firsts);
    } else {
      assert firsts + [] == firsts;
    }
  }

  // the receiver's own actions, and the network, only take out or copy datagrams
  lemma PeerRepeats(x: Side, y: Side, act: Action, firsts: seq<Datagram>)
    requires SenderRepeats(x, y, firsts)
    ensures
      var (y', x') := Meet(Unbounded, y, x, act);
      SenderRepeats(x', y', firsts)
  {
  }

  lemma NetworkRepeats(x: Side, y: Side, lose: bool, i: nat, firsts: seq<Datagram>)
    requires SenderRepeats(x, y, firsts)
    ensures SenderRepeats(x, Network(y, lose, i), firsts) && SenderRepeats(Network(x, lose, i), y, firsts)
  {
  }

  lemma NextRepeats(w: World, windowA: int, windowB: int, step: Step, atA: bool, firsts: seq<Datagram>,
                    firsts': seq<Datagram>)
    requires Good(w, windowA, windowB) && SenderRepeats(SideOf(w, atA), SideOf(w, !atA), firsts)
    requires firsts' == firsts + if step == Act(atA, CommitPending) && Enabled(Unbounded, SideOf(w, atA), CommitPending)
                                 then [Frame(SideOf(w, atA).tx.pending.value)] else []
    ensures SenderRepeats(SideOf(Next(Unbounded, w, step), atA), SideOf(Next(Unbounded, w, step), !atA), firsts')
  {
    var x, y := SideOf(w, atA), SideOf(w, !atA);
    assert firsts + [] == firsts;
    match step
    case Act(here, act) =>
      if here == atA {
        MeetRepeats(x, y, if atA then windowA else windowB, if atA then windowB else windowA, act, firsts);
      } else {
        PeerRepeats(x, y, act, firsts);
      }
    case Lose(_, i) => NetworkRepeats(x, y, true, i, firsts);
    case Duplicate(_, i) => NetworkRepeats(x, y, false, i, firsts);
  }

  lemma {:induction false} RunsRepeat(windowA: int, windowB: int, steps: seq<Step>, atA: bool)
    requires WindowSize(windowA) && WindowSize(windowB)
    ensures
      var w := Exec(Unbounded, Init(windowA, windowB), steps);
      SenderRepeats(SideOf(w, atA), SideOf(w, !atA), FirstSent(windowA, windowB, steps, atA))
  {
    if steps != [] {
      var before := steps[..|steps| - 1];
      RunsRepeat(windowA, windowB, before, atA);
      RunsAreGood(windowA, windowB, before);
      NextRepeats(Exec(Unbounded, Init(windowA, windowB), before), windowA, windowB, steps[|steps| - 1], atA,
                  FirstSent(windowA, windowB, before, atA), FirstSent(windowA, windowB, steps, atA));
    }
  }

  // ------------------------------------------------------------ the theorems

  predicate Admissible(windowA: int, windowB: int, steps: seq<Step>) {
    WindowSize(windowA) && WindowSize(windowB) && RunInReach(windowA, windowB, steps)
  }

  /** Whatever the network loses, duplicates or reorders, the bytes read at one end
      are a prefix of the bytes written at the other. */
  lemma DeliveredIsPrefixOfWritten(windowA: int, windowB: int, steps: seq<Step>)
    requires Admissible(windowA, windowB, steps)
    ensures
      var w := Exec(Circular, Init(windowA, windowB), steps);
      w.b.delivered <= w.a.written && w.a.delivered <= w.b.written
  {
    WrapAroundIsInvisible(windowA, windowB, steps);
    RunsAreGood(windowA, windowB, steps);
    var shadow := Exec(Unbounded, Init(windowA, windowB), steps);
    FlowDeliversPrefix(shadow.a, shadow.b, windowB);
    FlowDeliversPrefix(shadow.b, shadow.a, windowA);
  }

  lemma DeliveredShort(win: seq<DataPacket>, start: int, log: seq<seq<U8>>)
    requires Payloads(win, log, start) && 1 <= start <= |log| && (forall k :: 0 <= k < |log| ==> log[k] != [])
    ensures |Flatten(log[..start - 1])| + |Consumed(win, start, log)| < |Flatten(log)|
  {
    FlattenPrefix(log, start);
    assert log[..start][..start - 1] == log[..start - 1];
    assert |Consumed(win, start, log)| < |log[start - 1]|;
  }

  lemma FlowDeliversAllIff(s: Side, r: Side, m: int)
    requires Flow(s, r, m)
    ensures r.delivered == s.written <==> r.rx.ack.rxWinStart == |s.log| + 1 && s.tx.unsent == []
  {
    var start := r.rx.ack.rxWinStart;
    if start <= |s.log| {
      DeliveredShort(r.rx.win, start, s.log);
    } else {
      assert start == |s.log| + 1 && s.log[..start - 1] == s.log;
      assert Consumed(r.rx.win, start, s.log) == [];
    }
  }

  // the writer has nothing left to number, the reader starts one past the last number
  predicate AllConsumed(s: Side, r: Side) {
    s.tx.unsent == [] && r.rx.ack.rxWinStart == Wrap(s.tx.nextTxSeq + 1)
  }

  /** All that was written has been read exactly when the writer has nothing left to number
      and the reader's window starts, on 16-bit numbers, one past the last number given out. */
  lemma EverythingDeliveredIff(windowA: int, windowB: int, steps: seq<Step>, atA: bool)
    requires Admissible(windowA, windowB, steps)
    ensures
      var w := Exec(Circular, Init(windowA, windowB), steps);
      SideOf(w, !atA).delivered == SideOf(w, atA).written <==> AllConsumed(SideOf(w, atA), SideOf(w, !atA))
  {
    WrapAroundIsInvisible(windowA, windowB, steps);
    RunsAreGood(windowA, windowB, steps);
    var shadow := Exec(Unbounded, Init(windowA, windowB), steps);
    ImageDeliversAllIff(SideOf(shadow, atA), SideOf(shadow, !atA), if atA then windowB else windowA);
  }

  lemma ImageDeliversAllIff(s: Side, r: Side, m: int)
    requires Flow(s, r, m) && WindowSize(m)
    ensures WrapSide(r).delivered == WrapSide(s).written <==> AllConsumed(WrapSide(s), WrapSide(r))
  {
    FlowDeliversAllIff(s, r, m);
    WrapPlus(s.tx.nextTxSeq, 1);
    WrapInjective(r.rx.ack.rxWinStart, s.tx.nextTxSeq + 1);
  }

  /** The two window-overrun branches are never taken; no receiver buffers more than
      its window and no sender's window leaves 1 to the peer's. */
  lemma WindowsNeverOverrun(windowA: int, windowB: int, steps: seq<Step>)
    requires Admissible(windowA, windowB, steps)
    ensures
      var w := Exec(Circular, Init(windowA, windowB), steps);
      && !w.a.rx.overran && |w.a.rx.win| <= windowA && 1 <= w.b.tx.winSize <= windowA
      && !w.b.rx.overran && |w.b.rx.win| <= windowB && 1 <= w.a.tx.winSize <= windowB
  {
    WrapAroundIsInvisible(windowA, windowB, steps);
    RunsAreGood(windowA, windowB, steps);
    var shadow := Exec(Unbounded, Init(windowA, windowB), steps);
    FlowStaysInWindow(shadow.a, shadow.b, windowB, 0);
    FlowStaysInWindow(shadow.b, shadow.a, windowA, 0);
  }

  /** Datagram i of the 16-bit side r is the image of the one the unwrapped side x holds there,
      whose number lies before the end of x's receive window; the 16-bit comparison agrees
      whenever the two numbers are less than half the sequence space apart. */
  ghost predicate BeforeWindowEnd(r: Side, x: Side, i: nat) {
    && r.rx.ack.rxWinStart == Wrap(x.rx.ack.rxWinStart) && |r.inbox| == |x.inbox|
    && (i < |r.inbox| && r.inbox[i].Data? ==>
          var end := x.rx.ack.rxWinStart + r.rx.ack.rxWinSize;
          && x.inbox[i].Data? && r.inbox[i].num == Wrap(x.inbox[i].num) && 1 <= x.inbox[i].num < end
          && (Near(x.inbox[i].num, end) ==>
                Lt(Circular, r.inbox[i].num, Wrap(r.rx.ack.rxWinStart + r.rx.ack.rxWinSize))))
  }

  lemma ImageBeforeWindowEnd(s: Side, r: Side, m: int, i: nat)
    requires Flow(s, r, m)
    ensures BeforeWindowEnd(WrapSide(r), r, i)
  {
    FlowStaysInWindow(s, r, m, i);
    if i < |r.inbox| && r.inbox[i].Data? {
      AllDataPick(r.inbox, i, s.log, Sent(s.tx, s.log));
      WrapPlus(r.rx.ack.rxWinStart, r.rx.ack.rxWinSize);
      if Near(r.inbox[i].num, r.rx.ack.rxWinStart + r.rx.ack.rxWinSize) {
        CircularOrder(r.inbox[i].num, r.rx.ack.rxWinStart + r.rx.ack.rxWinSize);
      }
    }
  }

  /** Every data packet in flight, however old, lies before the end of the receiver's
      present window. */
  lemma InFlightStaysInWindow(windowA: int, windowB: int, steps: seq<Step>, atA: bool, i: nat)
    requires Admissible(windowA, windowB, steps)
    ensures BeforeWindowEnd(SideOf(Exec(Circular, Init(windowA, windowB), steps), atA),
                            SideOf(Exec(Unbounded, Init(windowA, windowB), steps), atA), i)
  {
    WrapAroundIsInvisible(windowA, windowB, steps);
    RunsAreGood(windowA, windowB, steps);
    var shadow := Exec(Unbounded, Init(windowA, windowB), steps);
    ImageBeforeWindowEnd(SideOf(shadow, !atA), SideOf(shadow, atA), if atA then windowA else windowB, i);
  }

  lemma {:induction false} RemoveAbsent(rs: seq<Range>, lo: int, hi: int, n: int)
    requires Spans(rs, lo, hi) && !Held(rs, n)
    ensures Remove(Unbounded, rs, n) == rs
  {
    if rs != [] {
      RemoveAbsent(rs[1..], rs[0].last + 1, hi, n);
      assert [rs[0]] + rs[1..] == rs;
    }
  }

  /** A packet that was consumed already, or is buffered already (read in part or not),
      leaves the receiver exactly as it is and answers nothing. */
  lemma RepeatedPacketChangesNothing(rx: Rx, p: DataPacket)
    requires Window(rx.win, rx.ack.missed, rx.ack.rxWinStart, rx.ack.rxWinEnd)
    requires rx.ack.rxWinStart <= rx.ack.rxWinEnd + 1
    requires p.num < rx.ack.rxWinStart || Has(rx.win, p.num)
    ensures Accept(Unbounded, rx, p) == RxEffect(rx, [])
  {
    var lo, hi := rx.ack.rxWinStart, rx.ack.rxWinEnd;
    if Has(rx.win, p.num) {
      AscendingBounds(rx.win, lo, hi, p.num);
    } else if Held(rx.ack.missed, p.num) {
      SpansBounds(rx.ack.missed, lo, hi, p.num);
    }
    PresentIsHas(rx.win, lo, hi, p.num);
    RemoveAbsent(rx.ack.missed, lo, hi, p.num);
  }

  predicate Repeats(x: Side, i: nat) {
    i < |x.inbox| && x.inbox[i].Data? && (x.inbox[i].num < x.rx.ack.rxWinStart || Has(x.rx.win, x.inbox[i].num))
  }

  /** The same on 16-bit numbers, at any point of any run. */
  lemma DuplicatesChangeNothing(windowA: int, windowB: int, steps: seq<Step>, atA: bool, i: nat)
    requires Admissible(windowA, windowB, steps + [Act(atA, Receive(i))])
    requires Repeats(SideOf(Exec(Unbounded, Init(windowA, windowB), steps), atA), i)
    ensures
      var before := Exec(Circular, Init(windowA, windowB), steps);
      var after := Exec(Circular, Init(windowA, windowB), steps + [Act(atA, Receive(i))]);
      SideOf(after, atA).rx == SideOf(before, atA).rx && SideOf(after, atA).delivered == SideOf(before, atA).delivered
  {
    var all := steps + [Act(atA, Receive(i))];
    assert all[..|all| - 1] == steps;
    WrapAroundIsInvisible(windowA, windowB, all);
    WrapAroundIsInvisible(windowA, windowB, steps);
    RunsAreGood(windowA, windowB, steps);
    RepeatDelivered(Exec(Unbounded, Init(windowA, windowB), steps), windowA, windowB, atA, i);
  }

  lemma RepeatDelivered(w: World, windowA: int, windowB: int, atA: bool, i: nat)
    requires Good(w, windowA, windowB) && Repeats(SideOf(w, atA), i)
    ensures
      var after := SideOf(Next(Unbounded, w, Act(atA, Receive(i))), atA);
      after.rx == SideOf(w, atA).rx && after.delivered == SideOf(w, atA).delivered
  {
    var x := SideOf(w, atA);
    var d := x.inbox[i];
    RepeatedPacketChangesNothing(x.rx, DataPacket(d.rxWinStart, d.num, d.payload, 0));
  }

  /** The number n has been sent by one side and not yet consumed by the other. */
  predicate Outstanding(windowA: int, windowB: int, steps: seq<Step>, atA: bool, n: int) {
    var shadow := Exec(Unbounded, Init(windowA, windowB), steps);
    var s, r := SideOf(shadow, atA), SideOf(shadow, !atA);
    r.rx.ack.rxWinStart <= n <= Sent(s.tx, s.log)
  }

  /** Every packet sent and not yet consumed is still in the sender's window, with its
      payload. */
  lemma NothingOutstandingIsForgotten(windowA: int, windowB: int, steps: seq<Step>, atA: bool, n: int)
    requires Admissible(windowA, windowB, steps) && Outstanding(windowA, windowB, steps, atA, n)
    ensures
      var s := SideOf(Exec(Circular, Init(windowA, windowB), steps), atA);
      && 1 <= n <= |s.log|
      && exists i :: 0 <= i < |s.tx.win| && s.tx.win[i].num == Wrap(n) && s.tx.win[i].data == s.log[n - 1]
  {
    WrapAroundIsInvisible(windowA, windowB, steps);
    RunsAreGood(windowA, windowB, steps);
    var shadow := Exec(Unbounded, Init(windowA, windowB), steps);
    var s := SideOf(shadow, atA);
    FlowForgetsNothing(s, SideOf(shadow, !atA), if atA then windowB else windowA, n);
    ImageOf(s.tx, s.log, n);
  }

  lemma ImageOf(tx: Tx, log: seq<seq<U8>>, n: int)
    requires 1 <= n <= |log| && exists i :: 0 <= i < |tx.win| && tx.win[i].num == n && tx.win[i].data == log[n - 1]
    ensures var win := WrapTx(tx).win;
            exists i :: 0 <= i < |win| && win[i].num == Wrap(n) && win[i].data == log[n - 1]
  {
    var i :| 0 <= i < |tx.win| && tx.win[i].num == n && tx.win[i].data == log[n - 1];
    assert WrapTx(tx).win[i].num == Wrap(n);
  }

  /** Every copy of a data packet in flight, retransmitted or not, is identical to the
      datagram that first carried its own unwrapped number, header included. */
  lemma CopiesAreIdentical(windowA: int, windowB: int, steps: seq<Step>, atA: bool, i: nat)
    requires Admissible(windowA, windowB, steps)
    requires i < |SideOf(Exec(Circular, Init(windowA, windowB), steps), !atA).inbox|
    requires SideOf(Exec(Circular, Init(windowA, windowB), steps), !atA).inbox[i].Data?
    ensures
      var firsts := FirstSent(windowA, windowB, steps, atA);
      var inbox := SideOf(Exec(Unbounded, Init(windowA, windowB), steps), !atA).inbox;
      && i < |inbox| && inbox[i].Data? && 1 <= inbox[i].num <= |firsts|
      && SideOf(Exec(Circular, Init(windowA, windowB), steps), !atA).inbox[i] == WrapDatagram(firsts[inbox[i].num - 1])
  {
    WrapAroundIsInvisible(windowA, windowB, steps);
    RunsRepeat(windowA, windowB, steps, atA);
    ImageOfFirst(SideOf(Exec(Unbounded, Init(windowA, windowB), steps), !atA).inbox,
                 SideOf(Exec(Circular, Init(windowA, windowB), steps), !atA).inbox,
                 FirstSent(windowA, windowB, steps, atA), i);
  }

  lemma ImageOfFirst(inbox: seq<Datagram>, wire: seq<Datagram>, firsts: seq<Datagram>, i: nat)
    requires AllFirst(inbox, firsts) && wire == WrapNet(inbox) && i < |wire| && wire[i].Data?
    ensures i < |inbox| && inbox[i].Data? && 1 <= inbox[i].num <= |firsts|
    ensures wire[i] == WrapDatagram(firsts[inbox[i].num - 1])
  {
    assert wire[i] == WrapDatagram(inbox[i]);
  }

  lemma {:induction false} HasIndex(win: seq<DataPacket>, x: int)
    ensures Has(win, x) <==> exists i :: 0 <= i < |win| && win[i].num == x
  {
    if win != [] {
      HasIndex(win[1..], x);
      if Has(win[1..], x) {
        var i :| 0 <= i < |win[1..]| && win[1..][i].num == x;
        assert win[i + 1].num == x;
      } else if exists i :: 0 <= i < |win| && win[i].num == x {
        var i :| 0 <= i < |win| && win[i].num == x;
        if i > 0 { assert win[1..][i - 1].num == x; }
      }
    }
  }

  /** In every arrival order the receive window holds exactly the numbers between its
      ends that its list of missed numbers does not, on 16-bit numbers too. */
  lemma WindowAndMissListPartition(windowA: int, windowB: int, steps: seq<Step>, atA: bool, x: int)
    requires Admissible(windowA, windowB, steps)
    requires
      var ack := SideOf(Exec(Unbounded, Init(windowA, windowB), steps), atA).rx.ack;
      ack.rxWinStart <= x <= ack.rxWinEnd
    ensures
      var rx := SideOf(Exec(Circular, Init(windowA, windowB), steps), atA).rx;
      (exists i :: 0 <= i < |rx.win| && rx.win[i].num == Wrap(x)) <==> !Contains(Circular, rx.ack.missed, Wrap(x))
  {
    WrapAroundIsInvisible(windowA, windowB, steps);
    RunsAreGood(windowA, windowB, steps);
    var shadow := Exec(Unbounded, Init(windowA, windowB), steps);
    var r := SideOf(shadow, atA);
    ImagePartition(r.rx, if atA then windowA else windowB, x);
  }

  lemma ImagePartition(rx: Rx, m: int, x: int)
    requires WindowSize(m) && rx.ack.rxWinEnd < rx.ack.rxWinStart + m
    requires Window(rx.win, rx.ack.missed, rx.ack.rxWinStart, rx.ack.rxWinEnd)
    requires rx.ack.rxWinStart <= x <= rx.ack.rxWinEnd
    ensures (exists i :: 0 <= i < |WrapRx(rx).win| && WrapRx(rx).win[i].num == Wrap(x))
            <==> !Contains(Circular, WrapRx(rx).ack.missed, Wrap(x))
  {
    var lo, hi := rx.ack.rxWinStart, rx.ack.rxWinEnd;
    ContainsIsHeld(rx.ack.missed, lo, hi, x);
    HasIndex(rx.win, x);
    forall i | 0 <= i < |rx.win|
      ensures WrapRx(rx).win[i].num == Wrap(x) <==> rx.win[i].num == x
    {
      HasIndex(rx.win, rx.win[i].num);
      AscendingBounds(rx.win, lo, hi, rx.win[i].num);
      WrapInjective(rx.win[i].num, x);
    }
    if Has(rx.win, x) {
      var i :| 0 <= i < |rx.win| && rx.win[i].num == x;
      assert WrapRx(rx).win[i].num == Wrap(x);
    }
  }

  /** In an in-order run, once the next datagram, an ack or nack, is handled, every
      number it reports missing is in the sender's window. */
  lemma InOrderReportsAreHeld(windowA: int, windowB: int, steps: seq<Step>, atA: bool, n: int)
    requires Admissible(windowA, windowB, steps + [Act(atA, Receive(0))]) && InOrder(steps)
    requires
      var x := SideOf(Exec(Unbounded, Init(windowA, windowB), steps), atA);
      x.inbox != [] && !x.tx.exited && Reports(x.inbox[0], n)
    ensures
      var tx := SideOf(Exec(Circular, Init(windowA, windowB), steps + [Act(atA, Receive(0))]), atA).tx;
      exists i :: 0 <= i < |tx.win| && tx.win[i].num == Wrap(n)
  {
    var all := steps + [Act(atA, Receive(0))];
    assert all[..|all| - 1] == steps;
    WrapAroundIsInvisible(windowA, windowB, all);
    InOrderRuns(windowA, windowB, steps);
    var w := Exec(Unbounded, Init(windowA, windowB), steps);
    ReportHeldAfter(w, windowA, windowB, atA, n);
    var x' := SideOf(Next(Unbounded, w, Act(atA, Receive(0))), atA);
    ImageHas(x'.tx, n);
  }

  // the list names a number the sender has dropped
  ghost predicate Passed(tx: Tx, log: seq<seq<U8>>) {
    exists n :: Held(tx.missList, n) && n < TxBase(tx, log)
  }

  lemma {:induction false} ProperBounds(rs: seq<Range>, hi: int, n: int)
    requires Proper(rs, hi) && Held(rs, n)
    ensures 1 <= n <= hi
  {
    if !Holds(Unbounded, rs[0], n) { ProperBounds(rs[1..], hi, n); }
  }

  lemma ExitIffPassed(tx: Tx, log: seq<seq<U8>>, written: seq<U8>, m: int)
    requires Sending(tx, log, written, m) && !tx.exited
    ensures Retransmit(Unbounded, tx).tx.exited <==> Passed(tx, log)
  {
    var base := TxBase(tx, log);
    RetransmitExitsIff(tx.win, tx.missList, tx.ack2.ackSeq, Sent(tx, log));
    forall n | Held(tx.missList, n)
      ensures !Has(tx.win, n) <==> n < base
    {
      ProperBounds(tx.missList, Sent(tx, log), n);
      WindowHas(tx.win, base, log, n);
    }
  }

  /** At any point of any run, on 16-bit numbers, the retransmitter that was asked for ends the
      process exactly when its list names a number below the sender's oldest packet: one that a
      datagram handled since the list was made has let it drop. */
  lemma RetransmitterExitsIff(windowA: int, windowB: int, steps: seq<Step>, atA: bool)
    requires Admissible(windowA, windowB, steps + [Act(atA, RunRetransmit)])
    requires
      var x := SideOf(Exec(Unbounded, Init(windowA, windowB), steps), atA);
      x.tx.startedRetran && !x.tx.exited
    ensures
      var x := SideOf(Exec(Unbounded, Init(windowA, windowB), steps), atA);
      SideOf(Exec(Circular, Init(windowA, windowB), steps + [Act(atA, RunRetransmit)]), atA).tx.exited
      <==> Passed(x.tx, x.log)
  {
    var all := steps + [Act(atA, RunRetransmit)];
    assert all[..|all| - 1] == steps;
    WrapAroundIsInvisible(windowA, windowB, all);
    RunsAreGood(windowA, windowB, steps);
    var w := Exec(Unbounded, Init(windowA, windowB), steps);
    var x := SideOf(w, atA);
    ExitIffPassed(x.tx, x.log, x.written, if atA then windowB else windowA);
    RetransmitStep(w, atA);
  }

  lemma RetransmitStep(w: World, atA: bool)
    requires SideOf(w, atA).tx.startedRetran && !SideOf(w, atA).tx.exited
    ensures SideOf(Next(Unbounded, w, Act(atA, RunRetransmit)), atA).tx == Retransmit(Unbounded, SideOf(w, atA).tx).tx
  {
  }

  predicate Reports(d: Datagram, n: int) {
    match d
    case Ack(ap) => Held(ap.missed, n)
    case Nack(_, first, last) => first <= n <= last
    case _ => false
  }

  lemma ReportHeldAfter(w: World, windowA: int, windowB: int, atA: bool, n: int)
    requires Good(w, windowA, windowB) && WindowSize(windowA) && WindowSize(windowB) && Ordered(w.a, w.b)
    requires SideOf(w, atA).inbox != [] && !SideOf(w, atA).tx.exited && Reports(SideOf(w, atA).inbox[0], n)
    ensures Has(SideOf(Next(Unbounded, w, Act(atA, Receive(0))), atA).tx.win, n)
  {
    if atA {
      ReportedNumbersAreHeld(w.a, w.b, windowA, windowB, n);
    } else {
      ReportedNumbersAreHeld(w.b, w.a, windowB, windowA, n);
    }
  }

  lemma ImageHas(tx: Tx, n: int)
    requires Has(tx.win, n)
    ensures exists i :: 0 <= i < |WrapTx(tx).win| && WrapTx(tx).win[i].num == Wrap(n)
  {
    HasIndex(tx.win, n);
    var i :| 0 <= i < |tx.win| && tx.win[i].num == n;
    assert WrapTx(tx).win[i].num == Wrap(n);
  }
}
