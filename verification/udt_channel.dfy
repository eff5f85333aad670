/** The channel object: the fields of the program and its handlers, which update them
    in place.  Every method is proved to do what the endpoint functions say. */
module UdtChannels {
  import opened Bytes
  import opened Common
  import opened MissLists
  import opened SequenceNumbers
  import opened UdtEndpoint
  import UdtWire

  // an ack as it comes off the wire
  predicate WireAck(ap: AckPacket) {
    SixteenBit(ap.missed)
  }

  /** What read() copies out before it has to wait, and the endpoint it leaves. */
  function ReadAvailable(rx: Rx, n: nat): (Rx, seq<U8>)
    decreases |rx.win|
  {
    if n == 0 || !CanRead(rx) then (rx, [])
    else
      var bytes := ReadBytes(rx, n);
      var rx' := ReadSome(Circular, rx, n);
      if |rx'.win| < |rx.win| then
        var (rest, more) := ReadAvailable(rx', n - |bytes|);
        (rest, bytes + more)
      else (rx', bytes)
  }

  // the bytes that follow one another without a gap from number `start` on
  function InSequence(win: seq<DataPacket>, start: int): seq<U8> {
    if win == [] || win[0].num != start then [] else win[0].data + InSequence(win[1..], Wrap(start + 1))
  }

  /** A read takes all that follows without a gap, up to the length asked. */
  lemma {:induction false} ReadTakesAll(rx: Rx, n: nat)
    requires forall i :: 0 <= i < |rx.win| ==> rx.win[i].data != []
    ensures
      var all := InSequence(rx.win, rx.ack.rxWinStart);
      ReadAvailable(rx, n).1 == if n < |all| then all[..n] else all
    decreases |rx.win|
  {
    if n > 0 && CanRead(rx) {
      var p, rx' := rx.win[0], ReadSome(Circular, rx, n);
      var tail := InSequence(rx.win[1..], Wrap(rx.ack.rxWinStart + 1));
      if |p.data| <= n {
        assert p.data[|p.data|..] == [] && p.data[..|p.data|] == p.data;
        assert rx'.win == rx.win[1..] && rx'.ack.rxWinStart == Wrap(rx.ack.rxWinStart + 1);
        ReadTakesAll(rx', n - |p.data|);
      } else {
        assert (p.data + tail)[..n] == p.data[..n];
      }
    }
  }

  /** What write() packs and sends before it has to wait. */
  function WriteAvailable(tx: Tx, start: int): TxEffect
    decreases |tx.unsent|, if tx.pending.Some? then 1 else 0
  {
    if CanCommit(Circular, tx) then
      var e := Commit(tx);
      var rest := WriteAvailable(e.tx, start);
      TxEffect(rest.tx, e.out + rest.out)
    else if CanPack(tx) then
      WriteAvailable(Pack(Circular, tx, start), start)
    else TxEffect(tx, [])
  }

  function PendingBytes(tx: Tx): seq<U8> {
    if tx.pending.Some? then tx.pending.value.data else []
  }

  function Payloads(out: seq<Datagram>): seq<U8> {
    if out == [] then [] else (if out[0].Data? then out[0].payload else []) + Payloads(out[1..])
  }

  /** A write loses, repeats and reorders no byte: what it has sent, then the packet that waits,
      then what is not packed yet is what there was to send.  It stops only when all is sent or
      when the window has no room for the packet that waits. */
  lemma {:induction false} WriteSendsAll(tx: Tx, start: int)
    ensures
      var e := WriteAvailable(tx, start);
      && Payloads(e.out) + (PendingBytes(e.tx) + e.tx.unsent) == PendingBytes(tx) + tx.unsent
      && (e.tx.pending.None? ==> e.tx.unsent == []) && (e.tx.pending.Some? ==> !CanSend(Circular, e.tx))
    decreases |tx.unsent|, if tx.pending.Some? then 1 else 0
  {
    var e := WriteAvailable(tx, start);
    if CanCommit(Circular, tx) {
      var c := Commit(tx);
      var rest := WriteAvailable(c.tx, start);
      WriteSendsAll(c.tx, start);
      assert e.out[0] == Frame(tx.pending.value) && e.out[1..] == rest.out;
      Regroup(PendingBytes(tx), Payloads(rest.out), PendingBytes(e.tx) + e.tx.unsent);
      assert PendingBytes(c.tx) + c.tx.unsent == tx.unsent;
    } else if CanPack(tx) {
      var packed := Pack(Circular, tx, start);
      WriteSendsAll(packed, start);
      assert PendingBytes(packed) + packed.unsent == tx.unsent == PendingBytes(tx) + tx.unsent;
    } else {
      assert Payloads([]) + (PendingBytes(tx) + tx.unsent) == PendingBytes(tx) + tx.unsent;
    }
  }

  /** The fields of the program are kept in the two records of an endpoint; the miss
      lists in them are updated by the operations that class MissList performs. */
  class UdtChannel {
    var tx: Tx
    var rx: Rx
    // everything handed to the connection so far
    var sent: seq<Datagram>

    ghost predicate Valid()
      reads this
    {
      SixteenBit(tx.missList)
    }

    constructor (maxWindow: U16)
      ensures Valid() && Endpoint(tx, rx) == Fresh(maxWindow) && sent == []
    {
      tx, rx, sent := Fresh(maxWindow).tx, Fresh(maxWindow).rx, [];
    }

    method Advance(s: int)
      modifies this`tx
      ensures tx == AdvanceTx(Circular, old(tx), s)
    {
      tx := tx.(ack2 := tx.ack2.(rxWinStart := s));
      while |tx.win| > 0 && Lt(Circular, tx.win[0].num, s)
        invariant tx == old(tx).(ack2 := tx.ack2, win := tx.win) && tx.ack2 == old(tx).ack2.(rxWinStart := s)
        invariant DropBelow(Circular, tx.win, s) == DropBelow(Circular, old(tx).win, s)
        decreases |tx.win|
      {
        tx := tx.(win := tx.win[1..]);
      }
    }

    // puts a packet between its neighbours, unless it is there already
    method InsertPacket(dp: DataPacket) returns (inserted: bool)
      modifies this`rx
      ensures inserted == !Present(Circular, old(rx).win, dp.num)
      ensures rx == if inserted then old(rx).(win := Insert(Circular, old(rx).win, dp)) else old(rx)
    {
      var win, i := rx.win, 0;
      while i < |win| && Lt(Circular, win[i].num, dp.num)
        invariant 0 <= i <= |win|
        invariant Present(Circular, win, dp.num) == Present(Circular, win[i..], dp.num)
        invariant Insert(Circular, win, dp) == win[..i] + Insert(Circular, win[i..], dp)
      {
        assert win[i..][1..] == win[i + 1..];
        i := i + 1;
      }
      if i < |win| && Eq(Circular, win[i].num, dp.num) {
        return false;
      }
      assert Insert(Circular, win, dp) == win[..i] + [dp] + win[i..];
      rx := rx.(win := win[..i] + [dp] + win[i..]);
      return true;
    }

    method AcceptPacket(dp: DataPacket)
      modifies this`rx, this`sent
      ensures
        var e := Accept(Circular, old(rx), dp);
        rx == e.rx && sent == old(sent) + e.out
    {
      rx := rx.(ack := rx.ack.(missed := Remove(Circular, rx.ack.missed, dp.num)));
      var next := Wrap(rx.ack.rxWinEnd + 1);
      if Eq(Circular, dp.num, next) {
        if Gt(Circular, dp.num, Wrap(rx.ack.rxWinStart + rx.ack.rxWinSize)) {
          rx := rx.(overran := true);
          return;
        }
        rx := rx.(win := rx.win + [dp], ack := rx.ack.(rxWinEnd := dp.num));
      } else if Gt(Circular, dp.num, next) {
        if Gt(Circular, dp.num, Wrap(rx.ack.rxWinStart + rx.ack.rxWinSize)) {
          rx := rx.(overran := true);
          return;
        }
        var last := Wrap(dp.num - 1);
        rx := rx.(win := rx.win + [dp], ack := rx.ack.(rxWinEnd := dp.num));
        rx := rx.(ack := rx.ack.(missed := Add(Circular, rx.ack.missed, next, last)));
        sent := sent + [Nack(rx.ack.rxWinStart, next, last)];
      } else if Lt(Circular, dp.num, rx.ack.rxWinStart) {
        return;
      } else {
        var inserted := InsertPacket(dp);
        if !inserted {
          return;
        }
        rx := rx.(ack := rx.ack.(missed := Remove(Circular, rx.ack.missed, dp.num)));
      }
    }

    method HandleData(start: U16, num: U16, payload: seq<U8>)
      requires Valid()
      modifies this
      ensures Valid()
      ensures
        var e := Handle(Circular, old(Endpoint(tx, rx)), Data(start, num, payload));
        Endpoint(tx, rx) == e.ep && sent == old(sent) + e.out
    {
      Advance(start);
      AcceptPacket(DataPacket(start, num, payload, 0));
    }

    method GrowWindow()
      modifies this`tx
      ensures tx == old(tx).(winSize := Grow(old(tx).startUp, old(tx).winSize, old(tx).remoteRxWin))
      ensures old(tx).startUp || old(tx).winSize <= tx.remoteRxWin ==> tx.winSize <= tx.remoteRxWin
    {
      if tx.startUp {
        tx := tx.(winSize := Min((tx.winSize * 3 / 2 + 1) % MODULUS, tx.remoteRxWin));
      } else if tx.remoteRxWin > tx.winSize {
        tx := tx.(winSize := tx.winSize + 1);
      }
    }

    // keeps an ack unless a newer one is known
    method KeepNewest(ap: AckPacket)
      modifies this`tx
      ensures tx == old(tx).(lastRxAck :=
                if Ge(Circular, ap.ackSeq, old(tx).lastRxAck.ackSeq) then ap else old(tx).lastRxAck)
    {
      if Ge(Circular, ap.ackSeq, tx.lastRxAck.ackSeq) {
        tx := tx.(lastRxAck := ap);
      }
    }

    method HandleAck(ap: AckPacket)
      requires Valid() && WireAck(ap)
      modifies this`tx, this`sent
      ensures Valid()
      ensures
        var e := UdtEndpoint.HandleAck(Circular, old(tx), ap);
        tx == e.tx && sent == old(sent) + e.out
    {
      tx := tx.(decOnNack := true, missList := ap.missed);
      var couldSend := CanSend(Circular, tx);
      tx := tx.(startedRetran := tx.startedRetran || ReportedSize(Circular, ap.missed) != 0);
      tx := tx.(remoteRxWin := ap.rxWinSize);
      GrowWindow();
      KeepNewest(ap);
      Advance(ap.rxWinStart);
      tx := tx.(ack2 := tx.ack2.(rxWinStart := tx.nextTxSeq, ackSeq := ap.ackSeq));
      if couldSend {
        sent := sent + [Ack2(tx.ack2)];
      }
    }

    method HandleNack(start: U16, first: U16, last: U16)
      requires Valid()
      modifies this`tx
      ensures Valid()
      ensures tx == UdtEndpoint.HandleNack(Circular, old(tx), start, first, last)
    {
      Advance(start);
      if tx.decOnNack {
        tx := tx.(decOnNack := false);
        tx := tx.(winSize := if tx.startUp then tx.winSize * 3 / 4 else tx.winSize * 9 / 10, startUp := false);
        if tx.winSize == 0 {
          tx := tx.(winSize := 1);
        }
      }
      AddStaysSixteenBit(tx.missList, first, last);
      tx := tx.(missList := Add(Circular, tx.missList, first, last));
      tx := tx.(startedRetran := true);
    }

    /** on_recv: one datagram off the connection, by its kind. */
    method OnReceive(d: Datagram)
      requires Valid() && UdtWire.WireDatagram(d)
      modifies this
      ensures Valid()
      ensures
        var e := Handle(Circular, old(Endpoint(tx, rx)), d);
        Endpoint(tx, rx) == e.ep && sent == old(sent) + e.out
      ensures d.Ack2? ==> rx == old(rx).(ack2 := d.ack) && tx == old(tx) && sent == old(sent)
    {
      match d
      case Data(start, num, payload) => HandleData(start, num, payload);
      case Ack(ap) => HandleAck(ap);
      case Nack(start, first, last) =>
        HandleNack(start, first, last);
        assert sent + [] == sent;
      case Ack2(ap) => HandleAck2(ap);
    }

    method HandleAck2(ap: AckPacket)
      modifies this`rx
      ensures rx == old(rx).(ack2 := ap)
    {
      rx := rx.(ack2 := ap);
    }

    // the first packet of the window with the given number
    method Find(n: int) returns (i: nat)
      ensures i == FindNum(tx.win, n)
    {
      i := 0;
      while i < |tx.win| && tx.win[i].num != n
        invariant i <= |tx.win|
        invariant FindNum(tx.win, n) == i + FindNum(tx.win[i..], n)
      {
        assert tx.win[i..][1..] == tx.win[i + 1..];
        i := i + 1;
      }
    }

    method ResendPacket(i: nat)
      requires i < |tx.win|
      modifies this`tx, this`sent
      ensures tx == old(tx).(win := Remark(Circular, old(tx).win, i, old(tx).ack2.ackSeq))
      ensures sent == old(sent) + Resend(old(tx).win[i], old(tx).ack2.ackSeq)
    {
      var dp := tx.win[i];
      WrapCompared(Wrap(dp.lastSentAck + 2), tx.ack2.ackSeq);
      if Lt(Circular, Wrap(dp.lastSentAck + 2), tx.ack2.ackSeq) {
        tx := tx.(win := tx.win[i := dp.(lastSentAck := Wrap(tx.ack2.ackSeq + 1))]);
        sent := sent + [Frame(dp)];
      }
    }

    method RunRetransmit()
      requires Valid()
      modifies this`tx, this`sent
      ensures Valid()
      ensures
        var e := Retransmit(Circular, old(tx));
        tx == e.tx && sent == old(sent) + e.out
    {
      tx := tx.(startedRetran := false);
      ghost var goal := Remaining(tx);
      while tx.missList != []
        invariant tx == old(tx).(startedRetran := false, win := tx.win, missList := tx.missList) && Valid()
        invariant Remaining(tx).(out := []) == goal.(out := []) && sent + Remaining(tx).out == old(sent) + goal.out
        decreases PopCount(Circular, tx.missList)
      {
        ghost var before, was := tx, sent;
        RestStaysSixteenBit(tx.missList);
        var sq := tx.missList[0].first;
        tx := tx.(missList := Rest(Circular, tx.missList));
        var i := Find(sq);
        Unfold(before, i);
        if i == |tx.win| {
          tx := tx.(exited := true);
          return;
        }
        ResendPacket(i);
        assert tx == before.(win := Remark(Circular, before.win, i, before.ack2.ackSeq),
            missList := Rest(Circular, before.missList));
        Regroup(was, Resend(before.win[i], before.ack2.ackSeq), Remaining(tx).out);
      }
    }

    method OnSyn()
      modifies this`rx, this`sent
      ensures
        var e := SendAck(Circular, old(rx));
        rx == e.rx && sent == old(sent) + e.out
    {
      rx := rx.(ack := rx.ack.(ackSeq := Wrap(rx.ack.ackSeq + 1)));
      sent := sent + [Ack(rx.ack.(missed := OnWire(rx.ack.missed)))];
    }

    // one turn of the read loop
    method ReadFront(len: nat) returns (bytes: seq<U8>)
      requires CanRead(rx)
      modifies this`rx
      ensures rx == ReadSome(Circular, old(rx), len) && bytes == ReadBytes(old(rx), len)
    {
      var dp := rx.win[0];
      var clen := Min(len, |dp.data|);
      bytes := dp.data[..clen];
      var left := dp.data[clen..];
      if |left| == 0 {
        rx := rx.(ack := rx.ack.(rxWinStart := Wrap(rx.ack.rxWinStart + 1)), win := rx.win[1..]);
      } else {
        rx := rx.(win := rx.win[0 := dp.(data := left)]);
      }
    }

    /** read(), up to the point where it would wait for more data. */
    method Read(n: nat) returns (bytes: seq<U8>)
      modifies this`rx
      ensures rx == ReadAvailable(old(rx), n).0 && bytes == ReadAvailable(old(rx), n).1
    {
      bytes := [];
      var len := n;
      ghost var goal := ReadAvailable(rx, n);
      while len > 0 && |rx.win| > 0 && rx.win[0].num == rx.ack.rxWinStart
        invariant len >= 0
        invariant ReadAvailable(rx, len).0 == goal.0
        invariant goal.1 == bytes + ReadAvailable(rx, len).1
        decreases |rx.win|, len
      {
        ReadTurn(rx, len);
        ghost var was := bytes;
        var some := ReadFront(len);
        bytes := bytes + some;
        len := len - |some|;
        Regroup(was, some, ReadAvailable(rx, len).1);
      }
      NothingToRead(rx, len);
    }

    /** write(), up to the point where it would wait for room in the window. */
    method Write()
      modifies this`tx, this`sent
      ensures
        var e := WriteAvailable(old(tx), rx.ack.rxWinStart);
        tx == e.tx && sent == old(sent) + e.out
    {
      ghost var goal := WriteAvailable(tx, rx.ack.rxWinStart);
      while true
        invariant WriteAvailable(tx, rx.ack.rxWinStart).tx == goal.tx
        invariant old(sent) + goal.out == sent + WriteAvailable(tx, rx.ack.rxWinStart).out
        decreases |tx.unsent|, if tx.pending.Some? then 1 else 0
      {
        if tx.pending.None? {
          if |tx.unsent| == 0 {
            return;
          }
          var plen := Min(|tx.unsent|, MAX_PAYLOAD);
          tx := tx.(nextTxSeq := Wrap(tx.nextTxSeq + 1));
          var dp := DataPacket(rx.ack.rxWinStart, tx.nextTxSeq, tx.unsent[..plen], Wrap(tx.ack2.ackSeq - 5));
          tx := tx.(pending := Some(dp), unsent := tx.unsent[plen..]);
        } else {
          if !CanSend(Circular, tx) {
            return;
          }
          Regroup(sent, [Frame(tx.pending.value)], WriteAvailable(Commit(tx).tx, rx.ack.rxWinStart).out);
          sent := sent + [Frame(tx.pending.value)];
          tx := tx.(win := tx.win + [tx.pending.value], pending := None);
        }
      }
    }
  }

  lemma RestStaysSixteenBit(rs: seq<Range>)
    requires rs != [] && SixteenBit(rs)
    ensures SixteenBit(Rest(Circular, rs)) && PopCount(Circular, Rest(Circular, rs)) == PopCount(Circular, rs) - 1
  {
    PopCountRest(rs);
  }

  // what a retransmission from this state still has to do
  function Remaining(tx: Tx): Retransmission {
    RetransmitAll(Circular, tx.win, tx.missList, tx.ack2.ackSeq)
  }

  lemma Unfold(tx: Tx, i: nat)
    requires tx.missList != [] && SixteenBit(tx.missList) && i == FindNum(tx.win, tx.missList[0].first)
    ensures i == |tx.win| ==> Remaining(tx) == Retransmission(tx.win, Rest(Circular, tx.missList), [], true)
    ensures i < |tx.win| ==>
              var ackSeq := tx.ack2.ackSeq;
              var r := Remaining(tx.(win := Remark(Circular, tx.win, i, ackSeq),
                  missList := Rest(Circular, tx.missList)));
              Remaining(tx) == r.(out := Resend(tx.win[i], ackSeq) + r.out)
  {
    PopCountRest(tx.missList);
  }

  lemma NothingToRead(rx: Rx, n: nat)
    requires n == 0 || !CanRead(rx)
    ensures ReadAvailable(rx, n) == (rx, [])
  {
  }

  lemma ReadTurn(rx: Rx, n: nat)
    requires n > 0 && CanRead(rx)
    ensures
      var rx', bytes := ReadSome(Circular, rx, n), ReadBytes(rx, n);
      && |bytes| <= n
      && ReadAvailable(rx, n).0 == ReadAvailable(rx', n - |bytes|).0
      && ReadAvailable(rx, n).1 == bytes + ReadAvailable(rx', n - |bytes|).1
      && (|rx'.win| < |rx.win| || n == |bytes|)
  {
  }
}
