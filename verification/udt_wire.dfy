/** Packets in memory and on the wire: views of one shared buffer, the header written in
    front of the payload, and the layout of each kind of datagram. */
module UdtWire {
  import opened Bytes
  import opened Common
  import opened MissLists
  import opened SequenceNumbers
  import opened UdtEndpoint

  // ------------------------------------------------------------ shared buffers

  const BUFFER_SIZE: nat := 2048
  const HEADER: nat := 5

  /** A view of a shared packet buffer. */
  datatype Buffer = Buffer(store: array<U8>, start: int, len: int) {
    predicate Valid() {
      0 <= start && 0 <= len && start + len <= store.Length
    }

    function Content(): seq<U8>
      requires Valid()
      reads store
    {
      store[start..start + len]
    }

    // the view s bytes further on, or further back when s is negative
    function Subbuf(s: int): Buffer {
      Buffer(store, start + s, len - s)
    }

    function MoveStart(s: int): Buffer {
      Buffer(store, start + s, if s > len then 0 else len - s)
    }

    function Resize(s: nat): Option<Buffer> {
      if s <= len then Some(Buffer(store, start, s)) else None
    }
  }

  /** Moving the start of a copy of a view leaves the original as it was, and what the
      copy shows is the rest of the content. */
  lemma MoveStartDrops(b: Buffer, s: nat)
    requires b.Valid() && s <= b.len
    ensures b.MoveStart(s).Valid() && b.MoveStart(s).Content() == b.Content()[s..]
    ensures b.MoveStart(s).Subbuf(0 - s) == b
  {
  }

  /** Moving past the end leaves an empty view; resizing only ever shortens. */
  lemma ViewsNeverGrow(b: Buffer, s: nat)
    requires b.Valid()
    ensures b.start + s <= b.store.Length && b.len <= s ==> b.MoveStart(s).Valid() && b.MoveStart(s).Content() == []
    ensures b.Resize(s).Some? <==> s <= |b.Content()|
    ensures b.Resize(s).Some? ==> b.Resize(s).value.Valid() && b.Resize(s).value.Content() == b.Content()[..s]
  {
  }

  function LittleEndian(n: U16): seq<U8> {
    [n % 256, n / 256]
  }

  function FromLittleEndian(b: seq<U8>): U16
    requires |b| == 2
  {
    var lo: int, hi: int := b[0], b[1];
    lo + 256 * hi
  }

  lemma LittleEndianRoundTrip(n: U16)
    ensures FromLittleEndian(LittleEndian(n)) == n
  {
  }

  // 16-bit numbers one after the other
  function Numbers(ns: seq<U16>): seq<U8> {
    if ns == [] then [] else LittleEndian(ns[0]) + Numbers(ns[1..])
  }

  function DataHeader(rxWinStart: U16, num: U16): seq<U8> {
    [0] + Numbers([rxWinStart, num])
  }

  /** Fills a packet as write() does.  The view kept for retransmission, taken back over
      the header, is the very view that is sent: as long as the shared buffer is not
      written again, a retransmission sends the same bytes. */
  method FillPacket(rxWinStart: U16, num: U16, payload: seq<U8>) returns (pbuf: Buffer, data: Buffer)
    requires |payload| <= MAX_PAYLOAD
    ensures fresh(pbuf.store) && pbuf.Valid() && data.Valid()
    ensures pbuf.Content() == DataHeader(rxWinStart, num) + payload
    ensures data.Content() == payload
    ensures data.Subbuf(0 - HEADER) == pbuf
  {
    var store := new U8[BUFFER_SIZE](_ => 0);
    pbuf := Buffer(store, 0, BUFFER_SIZE);
    data := pbuf.Subbuf(HEADER);
    data := data.Resize(|payload|).value;
    var i := 0;
    while i < |payload|
      invariant 0 <= i <= |payload|
      invariant store[HEADER..HEADER + i] == payload[..i]
    {
      store[HEADER + i] := payload[i];
      i := i + 1;
    }
    var header := DataHeader(rxWinStart, num);
    NumbersRoundTrip([rxWinStart, num], []);
    store[0], store[1], store[2], store[3], store[4] := header[0], header[1], header[2], header[3], header[4];
    pbuf := pbuf.Resize(HEADER + |payload|).value;
    assert store[HEADER..HEADER + |payload|] == payload;
    assert pbuf.Content() == store[..HEADER] + store[HEADER..HEADER + |payload|];
    assert store[..HEADER] == header;
  }

  // -------------------------------------------------------------- wire layout

  // n numbers from the front of a packet, or None when it is too short
  function ReadNumbers(b: seq<U8>, n: nat): Option<seq<U16>> {
    if n == 0 then Some([])
    else if |b| < 2 then None
    else
      var rest := ReadNumbers(b[2..], n - 1);
      if rest.None? then None else Some([FromLittleEndian(b[..2])] + rest.value)
  }

  lemma ReadFirst(n: U16, tail: seq<U8>, k: nat, ns: seq<U16>)
    requires ReadNumbers(tail, k) == Some(ns)
    ensures ReadNumbers(LittleEndian(n) + tail, k + 1) == Some([n] + ns)
  {
    var b := LittleEndian(n) + tail;
    assert b[..2] == LittleEndian(n) && b[2..] == tail;
    LittleEndianRoundTrip(n);
  }

  lemma {:induction false} NumbersRoundTrip(ns: seq<U16>, rest: seq<U8>)
    ensures |Numbers(ns)| == 2 * |ns|
    ensures ReadNumbers(Numbers(ns) + rest, |ns|) == Some(ns)
    ensures (Numbers(ns) + rest)[2 * |ns|..] == rest
  {
    if ns != [] {
      NumbersRoundTrip(ns[1..], rest);
      ReadFirst(ns[0], Numbers(ns[1..]) + rest, |ns| - 1, ns[1..]);
      Regroup(LittleEndian(ns[0]), Numbers(ns[1..]), rest);
      assert ns == [ns[0]] + ns[1..];
    }
  }

  // the ends of the ranges of a list, in order
  function Ends(rs: seq<Range>): seq<U16> {
    if rs == [] then [] else [Wrap(rs[0].first), Wrap(rs[0].last)] + Ends(rs[1..])
  }

  function Pairs(ns: seq<U16>): seq<Range> {
    if |ns| < 2 then [] else [Range(ns[0], ns[1])] + Pairs(ns[2..])
  }

  lemma {:induction false} PairsOfEnds(rs: seq<Range>)
    requires SixteenBit(rs)
    ensures Pairs(Ends(rs)) == rs && |Ends(rs)| == 2 * |rs|
  {
    if rs != [] {
      PairsOfEnds(rs[1..]);
      assert Ends(rs)[2..] == Ends(rs[1..]);
    }
  }

  function EncodeMissList(rs: seq<Range>): seq<U8> {
    [|OnWire(rs)|] + Numbers(Ends(OnWire(rs)))
  }

  function DecodeMissList(b: seq<U8>): Option<seq<Range>> {
    if b == [] then None
    else
      var ns := ReadNumbers(b[1..], 2 * b[0] as int);
      if ns.None? then None else Some(Pairs(ns.value))
  }

  lemma MissListRoundTrip(rs: seq<Range>)
    requires SixteenBit(rs)
    ensures DecodeMissList(EncodeMissList(rs)) == Some(OnWire(rs))
  {
    PairsOfEnds(OnWire(rs));
    NumbersRoundTrip(Ends(OnWire(rs)), []);
    assert EncodeMissList(rs)[1..] == Numbers(Ends(OnWire(rs))) + [];
  }

  const STAMP: nat := 8

  function EncodeAck(ap: AckPacket, stamp: seq<U8>): seq<U8> {
    Numbers([Wrap(ap.rxWinStart), Wrap(ap.rxWinSize), Wrap(ap.rxWinEnd), Wrap(ap.ackSeq)]) +
        (stamp + EncodeMissList(ap.missed))
  }

  function DecodeAck(b: seq<U8>): Option<AckPacket> {
    var ns := ReadNumbers(b, 4);
    if ns.None? || |b| < 8 + STAMP || |ns.value| < 4 then None
    else
      var missed := DecodeMissList(b[8..][STAMP..]);
      if missed.None? then None
      else Some(AckPacket(ns.value[0], ns.value[1], ns.value[2], ns.value[3], missed.value))
  }

  /** The bytes of a datagram; `stamp` is the time an ack carries. */
  function Encode(d: Datagram, stamp: seq<U8>): seq<U8> {
    match d
    case Data(start, num, payload) => DataHeader(Wrap(start), Wrap(num)) + payload
    case Ack(ap) => [1] + EncodeAck(ap, stamp)
    case Nack(start, first, last) => [2] + Numbers([Wrap(start), Wrap(first), Wrap(last)])
    case Ack2(ap) => [3] + EncodeAck(ap, stamp)
  }

  function DecodeData(b: seq<U8>): Option<Datagram> {
    var ns := ReadNumbers(b, 2);
    if ns.None? || |b| < 4 || |ns.value| < 2 then None else Some(Data(ns.value[0], ns.value[1], b[4..]))
  }

  function DecodeNack(b: seq<U8>): Option<Datagram> {
    var ns := ReadNumbers(b, 3);
    if ns.None? || |ns.value| < 3 then None else Some(Nack(ns.value[0], ns.value[1], ns.value[2]))
  }

  function Decode(b: seq<U8>): Option<Datagram> {
    if b == [] then None
    else if b[0] == 0 then DecodeData(b[1..])
    else if b[0] == 2 then DecodeNack(b[1..])
    else if b[0] == 1 || b[0] == 3 then
      var ap := DecodeAck(b[1..]);
      if ap.None? then None else if b[0] == 1 then Some(Ack(ap.value)) else Some(Ack2(ap.value))
    else None
  }

  predicate Sixteen(x: int) {
    0 <= x < MODULUS
  }

  predicate WireAck(ap: AckPacket) {
    Sixteen(ap.rxWinStart) && Sixteen(ap.rxWinSize) && Sixteen(ap.rxWinEnd) && Sixteen(ap.ackSeq) &&
        SixteenBit(ap.missed)
  }

  predicate WireDatagram(d: Datagram) {
    match d
    case Data(start, num, _) => Sixteen(start) && Sixteen(num)
    case Ack(ap) => WireAck(ap)
    case Nack(start, first, last) => Sixteen(start) && Sixteen(first) && Sixteen(last)
    case Ack2(ap) => WireAck(ap)
  }

  lemma AckRoundTrip(ap: AckPacket, stamp: seq<U8>)
    requires WireAck(ap) && |stamp| == STAMP
    ensures DecodeAck(EncodeAck(ap, stamp)) == Some(ap.(missed := OnWire(ap.missed)))
  {
    var tail := EncodeMissList(ap.missed);
    NumbersRoundTrip([ap.rxWinStart, ap.rxWinSize, ap.rxWinEnd, ap.ackSeq], stamp + tail);
    assert (stamp + tail)[STAMP..] == tail;
    MissListRoundTrip(ap.missed);
  }

  // what a datagram loses on the wire: ranges past the first 128
  function Truncated(d: Datagram): Datagram {
    match d
    case Ack(ap) => Ack(ap.(missed := OnWire(ap.missed)))
    case Ack2(ap) => Ack2(ap.(missed := OnWire(ap.missed)))
    case _ => d
  }

  lemma BodyOf(flag: U8, b: seq<U8>)
    ensures ([flag] + b)[1..] == b
  {
  }

  lemma DataRoundTrip(start: U16, num: U16, payload: seq<U8>)
    ensures DecodeData(Numbers([start, num]) + payload) == Some(Data(start, num, payload))
  {
    NumbersRoundTrip([start, num], payload);
  }

  lemma NackRoundTrip(start: U16, first: U16, last: U16)
    ensures DecodeNack(Numbers([start, first, last])) == Some(Nack(start, first, last))
  {
    var b := Numbers([start, first, last]);
    NumbersRoundTrip([start, first, last], []);
    assert b + [] == b;
  }

  lemma DecodeByFlag(flag: U8, b: seq<U8>)
    ensures
      var ap := DecodeAck(b);
      && (flag == 0 ==> Decode([flag] + b) == DecodeData(b))
      && (flag == 2 ==> Decode([flag] + b) == DecodeNack(b))
      && (flag == 1 && ap.Some? ==> Decode([flag] + b) == Some(Ack(ap.value)))
      && (flag == 3 && ap.Some? ==> Decode([flag] + b) == Some(Ack2(ap.value)))
  {
    BodyOf(flag, b);
  }

  /** Reading back the bytes of any 16-bit datagram gives the datagram. */
  lemma WireRoundTrip(d: Datagram, stamp: seq<U8>)
    requires WireDatagram(d) && |stamp| == STAMP
    ensures Decode(Encode(d, stamp)) == Some(Truncated(d))
  {
    match d
    case Data(start, num, payload) =>
      DataRoundTrip(start, num, payload);
      DecodeByFlag(0, Numbers([start, num]) + payload);
      Regroup([0], Numbers([start, num]), payload);
    case Ack(ap) =>
      AckRoundTrip(ap, stamp);
      DecodeByFlag(1, EncodeAck(ap, stamp));
    case Nack(start, first, last) =>
      NackRoundTrip(start, first, last);
      DecodeByFlag(2, Numbers([start, first, last]));
    case Ack2(ap) =>
      AckRoundTrip(ap, stamp);
      DecodeByFlag(3, EncodeAck(ap, stamp));
  }

  /** Where everything lies on the wire, byte by byte: the kind, then 16-bit numbers with the
      low byte first. */
  lemma DataLayout(start: U16, num: U16, payload: seq<U8>, stamp: seq<U8>)
    ensures Encode(Data(start, num, payload), stamp) ==
            [0, start % 256, start / 256, num % 256, num / 256] + payload
  {
    NumbersLayout2(start, num);
    assert DataHeader(start, num) == [0, start % 256, start / 256, num % 256, num / 256];
  }

  lemma NackLayout(start: U16, first: U16, last: U16, stamp: seq<U8>)
    ensures Encode(Nack(start, first, last), stamp) ==
            [2, start % 256, start / 256, first % 256, first / 256, last % 256, last / 256]
  {
    NumbersLayout2(start, first);
    NumbersAppend([start, first], [last]);
    assert [start, first] + [last] == [start, first, last];
    NumbersOne(last);
  }

  /** Window start, window size, window end, ack number, eight bytes of time, the count of ranges
      and the first and last number of each. */
  lemma AckLayout(ap: AckPacket, stamp: seq<U8>)
    requires WireAck(ap) && |stamp| == STAMP
    ensures
      var head := [ap.rxWinStart % 256, ap.rxWinStart / 256, ap.rxWinSize % 256, ap.rxWinSize / 256,
                   ap.rxWinEnd % 256, ap.rxWinEnd / 256, ap.ackSeq % 256, ap.ackSeq / 256];
      var tail := stamp + ([|OnWire(ap.missed)|] + Numbers(Ends(OnWire(ap.missed))));
      Encode(Ack(ap), stamp) == [1] + (head + tail) && Encode(Ack2(ap), stamp) == [3] + (head + tail)
  {
    NumbersLayout4(ap.rxWinStart, ap.rxWinSize, ap.rxWinEnd, ap.ackSeq);
  }

  lemma NumbersLayout4(a: U16, b: U16, c: U16, d: U16)
    ensures Numbers([a, b, c, d]) == [a % 256, a / 256, b % 256, b / 256, c % 256, c / 256, d % 256, d / 256]
  {
    NumbersLayout2(a, b);
    NumbersLayout2(c, d);
    NumbersAppend([a, b], [c, d]);
    assert [a, b] + [c, d] == [a, b, c, d];
  }

  lemma NumbersOne(n: U16)
    ensures Numbers([n]) == [n % 256, n / 256]
  {
    assert [n][1..] == [];
  }

  lemma NumbersLayout2(a: U16, b: U16)
    ensures Numbers([a, b]) == [a % 256, a / 256, b % 256, b / 256]
  {
    NumbersOne(b);
    assert [a, b][1..] == [b];
  }

  lemma {:induction false} NumbersAppend(xs: seq<U16>, ys: seq<U16>)
    ensures Numbers(xs + ys) == Numbers(xs) + Numbers(ys)
  {
    if xs == [] {
      assert xs + ys == ys;
    } else {
      NumbersAppend(xs[1..], ys);
      assert (xs + ys)[0] == xs[0] && (xs + ys)[1..] == xs[1..] + ys;
      Regroup(LittleEndian(xs[0]), Numbers(xs[1..]), Numbers(ys));
    }
  }

  // ------------------------------------------------------- miss lists, in place

  method WriteMissList(rs: seq<Range>) returns (b: seq<U8>)
    ensures b == EncodeMissList(rs)
  {
    var len: int := Min(MAX_WIRE_RANGES, |rs|);
    b := [len];
    var i := 0;
    ghost var wire := OnWire(rs);
    while i < |rs| && len > 0
      invariant 0 <= i <= |wire| && len == |wire| - i
      invariant b + Numbers(Ends(wire[i..])) == EncodeMissList(rs)
    {
      var one := LittleEndian(Wrap(rs[i].first)) + LittleEndian(Wrap(rs[i].last));
      NumbersOfRange(wire, i);
      Regroup(b, one, Numbers(Ends(wire[i + 1..])));
      b := b + one;
      len := len - 1;
      i := i + 1;
    }
    assert wire[i..] == [];
  }

  lemma NumbersOfRange(rs: seq<Range>, i: nat)
    requires i < |rs|
    ensures Numbers(Ends(rs[i..])) == LittleEndian(Wrap(rs[i].first)) + LittleEndian(Wrap(rs[i].last)) +
            Numbers(Ends(rs[i + 1..]))
  {
    var ns := Ends(rs[i..]);
    assert rs[i..][1..] == rs[i + 1..];
    assert ns[1..][1..] == Ends(rs[i + 1..]);
  }
}
