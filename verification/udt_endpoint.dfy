module Bytes {
  type U8 = x: int | 0 <= x < 256
}

/** One end of a UDT channel: its state and its handlers, as functions from state
    to state and to the datagrams handed to the network.  The state is kept in two
    halves, because no handler lets one half depend on the other except through the
    window start that outgoing packets carry.  The class in udt_channel.dfy performs
    the same updates in place. */
module UdtEndpoint {
  import opened Bytes
  import opened Common
  import opened MissLists
  import opened SequenceNumbers

  const MAX_PAYLOAD: nat := 1200

  datatype DataPacket = DataPacket(rxWinStart: int, num: int, data: seq<U8>, lastSentAck: int)

  datatype AckPacket = AckPacket(rxWinStart: int, rxWinSize: int, rxWinEnd: int, ackSeq: int, missed: seq<Range>)

  datatype Datagram =
    | Data(rxWinStart: int, num: int, payload: seq<U8>)
    | Ack(ack: AckPacket)
    | Nack(rxWinStart: int, first: int, last: int)
    | Ack2(ack: AckPacket)

  /** The sending half. */
  datatype Tx = Tx(
    nextTxSeq: int,
    win: seq<DataPacket>,
    winSize: int,
    remoteRxWin: int,
    lastRxAck: AckPacket,
    ack2: AckPacket,
    missList: seq<Range>,
    startUp: bool,
    decOnNack: bool,
    startedRetran: bool,
    // what a blocked write() call still holds: bytes not yet packed, and the packed
    // packet that waits for room in the window
    unsent: seq<U8>,
    pending: Option<DataPacket>,
    // the retransmitter met a number it no longer holds, which ends the process
    exited: bool)

  /** The receiving half. */
  datatype Rx = Rx(
    ack: AckPacket,
    win: seq<DataPacket>,
    ack2: AckPacket,
    // one of the two "THIS SHOULD NOT HAPPEN" branches was taken
    overran: bool)

  datatype Endpoint = Endpoint(tx: Tx, rx: Rx)

  datatype TxEffect = TxEffect(tx: Tx, out: seq<Datagram>)
  datatype RxEffect = RxEffect(rx: Rx, out: seq<Datagram>)
  datatype Effect = Effect(ep: Endpoint, out: seq<Datagram>)

  function NoAck(rxWinStart: int, rxWinSize: int): AckPacket {
    AckPacket(rxWinStart, rxWinSize, 0, 0, [])
  }

  function Fresh(maxWindow: int): Endpoint {
    Endpoint(Tx(0, [], 1, 1, NoAck(1, 1), NoAck(1, 0), [], true, true, false, [], None, false),
             Rx(NoAck(1, maxWindow), [], NoAck(0, 0), false))
  }

  // ------------------------------------------------------------------- sending

  predicate CanSend(ar: Arith, tx: Tx) {
    Lt(ar, tx.nextTxSeq, Norm(ar, tx.lastRxAck.rxWinStart + tx.winSize))
  }

  predicate CanPack(tx: Tx) {
    tx.unsent != [] && tx.pending.None?
  }

  // the head of the write loop: take a number and fill a packet
  function Pack(ar: Arith, tx: Tx, rxWinStart: int): Tx
    requires CanPack(tx)
  {
    var plen := Min(|tx.unsent|, MAX_PAYLOAD);
    var num := Norm(ar, tx.nextTxSeq + 1);
    tx.(nextTxSeq := num,
        unsent := tx.unsent[plen..],
        pending := Some(DataPacket(rxWinStart, num, tx.unsent[..plen], Norm(ar, tx.ack2.ackSeq - 5))))
  }

  predicate CanCommit(ar: Arith, tx: Tx) {
    tx.pending.Some? && CanSend(ar, tx)
  }

  function Frame(p: DataPacket): Datagram {
    Data(p.rxWinStart, p.num, p.data)
  }

  // the tail of the write loop: the window has room, remember the packet and send it
  function Commit(tx: Tx): TxEffect
    requires tx.pending.Some?
  {
    var p := tx.pending.value;
    TxEffect(tx.(pending := None, win := tx.win + [p]), [Frame(p)])
  }

  function DropBelow(ar: Arith, win: seq<DataPacket>, s: int): seq<DataPacket> {
    if win == [] || !Lt(ar, win[0].num, s) then win else DropBelow(ar, win[1..], s)
  }

  function AdvanceTx(ar: Arith, tx: Tx, s: int): Tx {
    tx.(ack2 := tx.ack2.(rxWinStart := s), win := DropBelow(ar, tx.win, s))
  }

  function Grow(startUp: bool, w: int, remote: int): int {
    if startUp then Min((w * 3 / 2 + 1) % MODULUS, remote)
    else if remote > w then w + 1
    else w
  }

  function HandleAck(ar: Arith, tx: Tx, ap: AckPacket): TxEffect {
    var grown := tx.(
      decOnNack := true,
      missList := ap.missed,
      startedRetran := tx.startedRetran || ReportedSize(ar, ap.missed) != 0,
      remoteRxWin := ap.rxWinSize,
      winSize := Grow(tx.startUp, tx.winSize, ap.rxWinSize),
      lastRxAck := if Ge(ar, ap.ackSeq, tx.lastRxAck.ackSeq) then ap else tx.lastRxAck);
    var advanced := AdvanceTx(ar, grown, ap.rxWinStart);
    var answered := advanced.(ack2 := advanced.ack2.(rxWinStart := tx.nextTxSeq, ackSeq := ap.ackSeq));
    TxEffect(answered, if CanSend(ar, tx) then [Ack2(answered.ack2)] else [])
  }

  function Shrink(startUp: bool, w: int): int {
    var s := if startUp then w * 3 / 4 else w * 9 / 10;
    if s == 0 then 1 else s
  }

  function HandleNack(ar: Arith, tx: Tx, start: int, first: int, last: int): Tx {
    AdvanceTx(ar, tx, start).(
      winSize := if tx.decOnNack then Shrink(tx.startUp, tx.winSize) else tx.winSize,
      startUp := tx.startUp && !tx.decOnNack,
      decOnNack := false,
      missList := Add(ar, tx.missList, first, last),
      startedRetran := true)
  }

  function FindNum(win: seq<DataPacket>, n: int): (i: nat)
    ensures i <= |win|
    ensures i < |win| ==> win[i].num == n
    ensures forall j :: 0 <= j < i ==> win[j].num != n
  {
    if win == [] || win[0].num == n then 0 else 1 + FindNum(win[1..], n)
  }

  datatype Retransmission = Retransmission(win: seq<DataPacket>, rest: seq<Range>, out: seq<Datagram>, exited: bool)

  // ack numbers are compared in 16 bits in either arithmetic: how often a packet is repeated
  // may depend on their wrapping round, and nothing else does
  predicate DueAgain(p: DataPacket, ackSeq: int) {
    Lt(Circular, Wrap(p.lastSentAck + 2), Wrap(ackSeq))
  }

  // one packet of the window goes out again, unless it went out too recently
  function Remark(ar: Arith, win: seq<DataPacket>, i: nat, ackSeq: int): seq<DataPacket>
    requires i < |win|
  {
    if DueAgain(win[i], ackSeq) then win[i := win[i].(lastSentAck := Norm(ar, ackSeq + 1))] else win
  }

  function Resend(p: DataPacket, ackSeq: int): seq<Datagram> {
    if DueAgain(p, ackSeq) then [Frame(p)] else []
  }

  // popping shortens every list the program can hold; the second guard only makes
  // the function total on unwrapped ranges that run backwards
  function RetransmitAll(ar: Arith, win: seq<DataPacket>, rs: seq<Range>, ackSeq: int): Retransmission
    decreases PopCount(ar, rs)
  {
    if rs == [] || PopCount(ar, Rest(ar, rs)) >= PopCount(ar, rs) then Retransmission(win, rs, [], false)
    else
      var i := FindNum(win, rs[0].first);
      if i == |win| then Retransmission(win, Rest(ar, rs), [], true)
      else
        var r := RetransmitAll(ar, Remark(ar, win, i, ackSeq), Rest(ar, rs), ackSeq);
        r.(out := Resend(win[i], ackSeq) + r.out)
  }

  function Retransmit(ar: Arith, tx: Tx): TxEffect {
    var r := RetransmitAll(ar, tx.win, tx.missList, tx.ack2.ackSeq);
    TxEffect(tx.(startedRetran := false, win := r.win, missList := r.rest, exited := tx.exited || r.exited), r.out)
  }

  // ----------------------------------------------------------------- receiving

  // both scans walk past the smaller numbers at the front of the window
  predicate Present(ar: Arith, win: seq<DataPacket>, n: int) {
    win != [] && (if Lt(ar, win[0].num, n) then Present(ar, win[1..], n) else Eq(ar, win[0].num, n))
  }

  function Insert(ar: Arith, win: seq<DataPacket>, p: DataPacket): seq<DataPacket> {
    if win != [] && Lt(ar, win[0].num, p.num) then [win[0]] + Insert(ar, win[1..], p) else [p] + win
  }

  predicate BeyondWindow(ar: Arith, ack: AckPacket, n: int) {
    Gt(ar, n, Norm(ar, ack.rxWinStart + ack.rxWinSize))
  }

  function Accept(ar: Arith, rx: Rx, p: DataPacket): RxEffect {
    var missed := Remove(ar, rx.ack.missed, p.num);
    var next := Norm(ar, rx.ack.rxWinEnd + 1);
    var noted := rx.(ack := rx.ack.(missed := missed));
    if Eq(ar, p.num, next) then
      if BeyondWindow(ar, rx.ack, p.num) then RxEffect(noted.(overran := true), [])
      else RxEffect(rx.(win := rx.win + [p], ack := rx.ack.(missed := missed, rxWinEnd := p.num)), [])
    else if Gt(ar, p.num, next) then
      if BeyondWindow(ar, rx.ack, p.num) then RxEffect(noted.(overran := true), [])
      else
        var last := Norm(ar, p.num - 1);
        RxEffect(rx.(win := rx.win + [p], ack := rx.ack.(missed := Add(ar, missed, next, last), rxWinEnd := p.num)),
                 [Nack(rx.ack.rxWinStart, next, last)])
    else if Lt(ar, p.num, rx.ack.rxWinStart) || Present(ar, rx.win, p.num) then RxEffect(noted, [])
    else RxEffect(rx.(win := Insert(ar, rx.win, p), ack := rx.ack.(missed := Remove(ar, missed, p.num))), [])
  }

  function SendAck(ar: Arith, rx: Rx): RxEffect {
    var ack := rx.ack.(ackSeq := Norm(ar, rx.ack.ackSeq + 1));
    RxEffect(rx.(ack := ack), [Ack(ack.(missed := OnWire(ack.missed)))])
  }

  predicate CanRead(rx: Rx) {
    rx.win != [] && rx.win[0].num == rx.ack.rxWinStart
  }

  // the bytes one turn of the read loop copies out
  function ReadBytes(rx: Rx, n: nat): seq<U8>
    requires CanRead(rx)
  {
    rx.win[0].data[..Min(n, |rx.win[0].data|)]
  }

  function ReadSome(ar: Arith, rx: Rx, n: nat): Rx
    requires CanRead(rx)
  {
    var p := rx.win[0];
    var left := p.data[Min(n, |p.data|)..];
    if left == []
    then rx.(win := rx.win[1..], ack := rx.ack.(rxWinStart := Norm(ar, rx.ack.rxWinStart + 1)))
    else rx.(win := rx.win[0 := p.(data := left)])
  }

  function Handle(ar: Arith, ep: Endpoint, d: Datagram): Effect {
    match d
    case Data(start, num, payload) =>
      var e := Accept(ar, ep.rx, DataPacket(start, num, payload, 0));
      Effect(Endpoint(AdvanceTx(ar, ep.tx, start), e.rx), e.out)
    case Ack(ap) =>
      var e := HandleAck(ar, ep.tx, ap);
      Effect(ep.(tx := e.tx), e.out)
    case Nack(start, first, last) => Effect(ep.(tx := HandleNack(ar, ep.tx, start, first, last)), [])
    case Ack2(ap) => Effect(ep.(rx := ep.rx.(ack2 := ap)), [])
  }
}

/** Two ends joined by an unreliable network, run step by step. */
module UdtWorld {
  import opened Bytes
  import opened Common
  import opened SequenceNumbers
  import opened UdtEndpoint

  /** One end together with the datagrams in flight towards it, the bytes its user
      has written and read, the payloads it has given a sequence number (payload k
      carries number k + 1), and the window start in each ack it has sent. */
  datatype Side = Side(
    tx: Tx,
    rx: Rx,
    inbox: seq<Datagram>,
    written: seq<U8>,
    delivered: seq<U8>,
    log: seq<seq<U8>>,
    ackStarts: seq<int>)

  datatype World = World(a: Side, b: Side)

  datatype Action =
    | Write(b: seq<U8>)
    | PackNext
    | CommitPending
    | Read(n: nat)
    | OnSyn
    | RunRetransmit
    | Receive(i: nat)

  datatype Step =
    | Act(atA: bool, action: Action)
    | Lose(toA: bool, i: nat)
    | Duplicate(toA: bool, i: nat)

  datatype Turn = Turn(side: Side, out: seq<Datagram>)

  function InitSide(maxWindow: int): Side {
    var ep := Fresh(maxWindow);
    Side(ep.tx, ep.rx, [], [], [], [], [])
  }

  function Init(windowA: int, windowB: int): World {
    World(InitSide(windowA), InitSide(windowB))
  }

  predicate Enabled(ar: Arith, s: Side, act: Action) {
    && !s.tx.exited
    && match act
       case Write(b) => s.tx.unsent == [] && s.tx.pending.None?
       case PackNext => CanPack(s.tx)
       case CommitPending => CanCommit(ar, s.tx)
       case Read(n) => n > 0 && CanRead(s.rx)
       case OnSyn => true
       case RunRetransmit => s.tx.startedRetran
       case Receive(i) => i < |s.inbox|
  }

  function Deliver(ar: Arith, s: Side, d: Datagram): Turn {
    var e := Handle(ar, Endpoint(s.tx, s.rx), d);
    Turn(s.(tx := e.ep.tx, rx := e.ep.rx), e.out)
  }

  function StartWrite(s: Side, b: seq<U8>): Side {
    s.(tx := s.tx.(unsent := b), written := s.written + b)
  }

  function PackPacket(ar: Arith, s: Side): Side
    requires CanPack(s.tx)
  {
    var tx := Pack(ar, s.tx, s.rx.ack.rxWinStart);
    s.(tx := tx, log := s.log + [tx.pending.value.data])
  }

  function CommitPacket(s: Side): Turn
    requires s.tx.pending.Some?
  {
    var e := Commit(s.tx);
    Turn(s.(tx := e.tx), e.out)
  }

  function ReadChunk(ar: Arith, s: Side, n: nat): Side
    requires CanRead(s.rx)
  {
    s.(rx := ReadSome(ar, s.rx, n), delivered := s.delivered + ReadBytes(s.rx, n))
  }

  function Acknowledge(ar: Arith, s: Side): Turn {
    var e := SendAck(ar, s.rx);
    Turn(s.(rx := e.rx, ackStarts := s.ackStarts + [s.rx.ack.rxWinStart]), e.out)
  }

  function SendAgain(ar: Arith, s: Side): Turn {
    var e := Retransmit(ar, s.tx);
    Turn(s.(tx := e.tx), e.out)
  }

  function Perform(ar: Arith, s: Side, act: Action): Turn
    requires Enabled(ar, s, act)
  {
    match act
    case Write(b) => Turn(StartWrite(s, b), [])
    case PackNext => Turn(PackPacket(ar, s), [])
    case CommitPending => CommitPacket(s)
    case Read(n) => Turn(ReadChunk(ar, s, n), [])
    case OnSyn => Acknowledge(ar, s)
    case RunRetransmit => SendAgain(ar, s)
    case Receive(i) => Deliver(ar, s.(inbox := Without(s.inbox, i)), s.inbox[i])
  }

  // `me` acts, and what it sends is in flight towards `peer`
  function Meet(ar: Arith, me: Side, peer: Side, act: Action): (Side, Side) {
    if Enabled(ar, me, act) then
      var t := Perform(ar, me, act);
      (t.side, peer.(inbox := peer.inbox + t.out))
    else (me, peer)
  }

  function Network(s: Side, lose: bool, i: nat): Side {
    if i >= |s.inbox| then s
    else if lose then s.(inbox := Without(s.inbox, i))
    else s.(inbox := s.inbox + [s.inbox[i]])
  }

  function Next(ar: Arith, w: World, step: Step): World {
    match step
    case Act(true, act) => var (a, b) := Meet(ar, w.a, w.b, act); World(a, b)
    case Act(false, act) => var (b, a) := Meet(ar, w.b, w.a, act); World(a, b)
    case Lose(toA, i) => if toA then w.(a := Network(w.a, true, i)) else w.(b := Network(w.b, true, i))
    case Duplicate(toA, i) => if toA then w.(a := Network(w.a, false, i)) else w.(b := Network(w.b, false, i))
  }

  /** The world after a run of steps.  A step that is not enabled changes nothing. */
  function Exec(ar: Arith, w: World, steps: seq<Step>): World {
    if steps == [] then w else Next(ar, Exec(ar, w, steps[..|steps| - 1]), steps[|steps| - 1])
  }
}
