/** The connection handshake: handlers that fall back on each other when a packet cannot be
    decoded, over the table of known peers. */
module Connections {
  import opened Common

  type Byte = bv8
  type Packet = seq<Byte>
  type Endpoint = nat
  type Id = nat

  const NO_ENDPOINT: Endpoint := 0
  const NO_KEY: nat := 0

  /** What is kept about a peer.  The table is keyed by id and indexed by endpoint. */
  datatype Record = Record(lastEp: Endpoint, publicKey: nat, bfKey: nat, rank: nat, published: nat, connected: bool) {
    predicate Valid() {
      publicKey != NO_KEY
    }
  }

  const EMPTY_RECORD := Record(NO_ENDPOINT, NO_KEY, 0, 0, 0, false)

  type Peers = map<Id, Record>

  datatype State = Failed | Uninit | GeneratedDh | ReceivedDh | Authenticated | Connected

  datatype Message =
    | Data
    | Auth(key: nat, genuine: bool, rank: nat)
    | AuthResponse(rank: nat)
    | Service
    | Close
    | UpdateRank(newRank: Option<nat>)

  // None when the checksum fails; the packet is decrypted in place either way
  datatype Decoded = Decoded(message: Option<Message>, bytes: Packet)

  datatype DiffieHellman = DiffieHellman(secret: nat, shared: nat)

  /** The cipher, the key agreement, the id of a public key, and which of several records
      under one endpoint the index returns. */
  datatype Env = Env(
    decode: (nat, Packet) -> Decoded,
    agree: (nat, Packet) -> nat,
    idOf: nat -> Id,
    pick: set<Id> -> Id)

  ghost predicate Sound(env: Env) {
    && (forall s :: s != {} ==> env.pick(s) in s)
    && (forall a, b :: env.idOf(a) == env.idOf(b) ==> a == b)
    && (forall k, b :: |env.decode(k, b).bytes| == |b|)
    && (forall k, b :: Genuine(env.decode(k, b).message))
  }

  predicate Genuine(m: Option<Message>) {
    m.Some? && m.value.Auth? && m.value.genuine ==> m.value.key != NO_KEY
  }

  datatype Conn = Conn(
    state: State,
    ep: Endpoint,
    id: Id,
    record: Record,
    cipher: Option<nat>,
    dh: Option<DiffieHellman>,
    peers: Peers,
    broken: bool)   // an exception or a null pointer ended the handler

  /** The ids of the records filed under an endpoint. */
  function Under(peers: Peers, ep: Endpoint): set<Id> {
    set id | id in peers && peers[id].lastEp == ep
  }

  // ------------------------------------------------------------ steps

  // the table refuses a record under an id that is not its key's
  function Stored(env: Env, c: Conn): Conn {
    if env.idOf(c.record.publicKey) == c.id then c.(peers := c.peers[c.id := c.record]) else c.(broken := true)
  }

  function Reset(env: Env, c: Conn): Conn {
    var s := if c.record.Valid() then Stored(env, c.(record := c.record.(connected := false))) else c;
    s.(state := Uninit)
  }

  datatype Verdict = Verdict(ok: bool, conn: Conn)

  /** The handlers of a decoded message; false sends the packet back to the start. */
  function Receive(env: Env, c: Conn, m: Message): Verdict {
    match m
    case Data => if c.state.Connected? then Verdict(true, c) else Verdict(false, Reset(env, c))
    case Auth(key, genuine, rank) =>
      if c.dh.None? then Verdict(true, c.(broken := true))
      else if !genuine then Verdict(false, c)
      else
        var id := env.idOf(key);
        var base := if id in c.peers then c.peers[id] else c.record;
        var record := base.(bfKey := c.dh.value.shared, publicKey := key, lastEp := c.ep, rank := rank,
            connected := true);
        Verdict(true, Stored(env, c.(id := id, record := record)).(state := Connected))
    case AuthResponse(rank) =>
      if rank != 0 then Verdict(true, c.(record := c.record.(published := rank), state := Connected))
      else Verdict(false, Reset(env, c))
    case Service => Verdict(true, c)
    case Close => Verdict(true, Reset(env, c))
    case UpdateRank(newRank) =>
      if newRank.None? then Verdict(false, c)
      else if newRank.value > c.record.rank
      then Verdict(true, Stored(env, c.(record := c.record.(rank := newRank.value))))
      else Verdict(true, c)
  }

  function Decode(env: Env, c: Conn, b: Packet): (Verdict, Packet)
    requires c.cipher.Some?
  {
    var d := env.decode(c.cipher.value, b);
    (if d.message.None? then Verdict(false, c) else Receive(env, c, d.message.value), d.bytes)
  }

  predicate IsKey(length: nat) {
    length % 8 != 0 && length > 56
  }

  function ProcessDh(env: Env, c: Conn, b: Packet): Conn
    requires c.dh.Some?
  {
    var shared := env.agree(c.dh.value.secret, b);
    c.(dh := Some(c.dh.value.(shared := shared)), cipher := Some(shared), record := c.record.(bfKey := shared))
  }

  /** No record under the endpoint: a key exchange starts. */
  function Fresh(env: Env, c: Conn, b: Packet, secret: nat): Conn {
    var g := c.(dh := Some(DiffieHellman(secret, 0)));
    if IsKey(|b|) then ProcessDh(env, g, b).(state := ReceivedDh) else g.(state := GeneratedDh)
  }

  /** The record under the endpoint is taken up and the connection revived. */
  function Revived(env: Env, c: Conn, id: Id): Conn
    requires id in c.peers
  {
    var record := c.peers[id].(connected := true);
    Stored(env, c.(id := id, record := record, cipher := Some(record.bfKey))).(state := Connected)
  }

  /** The record turned out to be somebody else's: it loses endpoint and key. */
  function Disowned(env: Env, c: Conn): Conn {
    var s := if c.record.Valid()
             then Stored(env, c.(record := c.record.(lastEp := NO_ENDPOINT, bfKey := 0, connected := false)))
             else c;
    Reset(env, s.(record := EMPTY_RECORD.(lastEp := c.ep)))
  }

  // ------------------------------------------------------------ the recursion, one round at a time

  datatype Turn = Settled(conn: Conn) | Again(conn: Conn, packet: Packet)

  /** handle_connected up to its call of handle_uninit. */
  function ConnectedTurn(env: Env, c: Conn, b: Packet): Turn
    requires c.cipher.Some?
  {
    if |b| % 8 == 0 then
      var (v, b') := Decode(env, c, b);
      if v.ok then Settled(v.conn) else Again(Disowned(env, v.conn), b')
    else Again(Disowned(env, c), b)
  }

  /** handle_uninit and the handle_connected it calls. */
  function Round(env: Env, c: Conn, b: Packet, secret: nat): Turn
    requires Sound(env)
  {
    var known := Under(c.peers, c.ep);
    if known == {} then Settled(Fresh(env, c, b, secret))
    else ConnectedTurn(env, Revived(env, c, env.pick(known)), b)
  }

  function Onward(env: Env, t: Turn, secret: nat): Turn
    requires Sound(env)
  {
    if t.Again? then Round(env, t.conn, t.packet, secret) else t
  }

  function Rounds(env: Env, c: Conn, b: Packet, secret: nat, n: nat): Turn
    requires Sound(env)
  {
    if n == 0 then Again(c, b) else Onward(env, Rounds(env, c, b, secret, n - 1), secret)
  }

  ghost predicate Ends(env: Env, c: Conn, b: Packet, secret: nat)
    requires Sound(env)
  {
    exists n :: Rounds(env, c, b, secret, n).Settled?
  }

  /** Every record is filed under the id of its key. */
  ghost predicate Filed(env: Env, peers: Peers) {
    forall id :: id in peers ==> env.idOf(peers[id].publicKey) == id
  }

  /** What a caller can look up beforehand: the endpoint is a real one and every record under
      it has a key; or there is no record at all. */
  ghost predicate Clearable(peers: Peers, ep: Endpoint) {
    Under(peers, ep) == {} || (ep != NO_ENDPOINT && forall id :: id in Under(peers, ep) ==> peers[id].Valid())
  }

  // `now` is `was` with the endpoint, the cipher key and the connected flag of these ids cleared
  ghost predicate Cleared(was: Peers, now: Peers, ids: set<Id>) {
    && now.Keys == was.Keys
    && (forall id :: id in was && id in ids ==>
          now[id] == was[id].(lastEp := NO_ENDPOINT, bfKey := 0, connected := false))
    && (forall id :: id in was && id !in ids ==> now[id] == was[id])
  }

  // ------------------------------------------------------------ what one round does

  /** The connection holds a record from the table. */
  ghost predicate Holding(env: Env, c: Conn) {
    env.idOf(c.record.publicKey) == c.id
  }

  lemma RefusalKeeps(env: Env, c: Conn, b: Packet)
    requires c.cipher.Some? && c.state.Connected? && Holding(env, c)
    ensures var v := Decode(env, c, b).0;
            !v.ok ==>
              && v.conn.id == c.id && v.conn.ep == c.ep && v.conn.broken == c.broken
              && (v.conn.record == c.record || v.conn.record == c.record.(connected := false))
              && (v.conn.peers == c.peers || v.conn.peers == c.peers[c.id := v.conn.record])
  {
  }

  lemma DisownedClears(env: Env, c: Conn)
    requires Holding(env, c)
    ensures var d := Disowned(env, c);
            && d == c.(state := Uninit, record := EMPTY_RECORD.(lastEp := c.ep), peers := d.peers)
            && d.peers == if c.record.Valid()
                          then c.peers[c.id := c.record.(lastEp := NO_ENDPOINT, bfKey := 0, connected := false)]
                          else c.peers
  {
  }

  /** A round that has to go on leaves the table as it was, except for the record it took up. */
  lemma RoundAgain(env: Env, c: Conn, b: Packet, secret: nat)
    requires Sound(env) && Filed(env, c.peers)
    ensures var t := Round(env, c, b, secret);
            t.Again? ==>
              var id := env.pick(Under(c.peers, c.ep));
              && Under(c.peers, c.ep) != {} && id in c.peers && c.peers[id].lastEp == c.ep
              && t.conn.ep == c.ep && t.conn.broken == c.broken && t.conn.state.Uninit?
              && t.conn.record == EMPTY_RECORD.(lastEp := c.ep) && t.conn.dh == c.dh
              && |t.packet| == |b|
              && t.conn.peers.Keys == c.peers.Keys
              && (forall other :: other in c.peers && other != id ==> t.conn.peers[other] == c.peers[other])
              && (c.peers[id].Valid() ==>
                    t.conn.peers[id] == c.peers[id].(lastEp := NO_ENDPOINT, bfKey := 0, connected := false))
              && (!c.peers[id].Valid() ==>
                    t.conn.peers[id].lastEp == c.ep && t.conn.peers[id].publicKey == c.peers[id].publicKey)
  {
    var known := Under(c.peers, c.ep);
    if known != {} {
      var id := env.pick(known);
      var r := Revived(env, c, id);
      assert Holding(env, r);
      RefusalKeeps(env, r, b);
      if |b| % 8 == 0 {
        var v := Decode(env, r, b).0;
        if !v.ok {
          DisownedClears(env, v.conn);
        }
      } else {
        DisownedClears(env, r);
      }
    }
  }

  lemma UnderAfter(was: Peers, now: Peers, ep: Endpoint, id: Id)
    requires id in Under(was, ep) && now.Keys == was.Keys
    requires forall other :: other in was && other != id ==> now[other] == was[other]
    ensures Under(now, ep) == if now[id].lastEp == ep then Under(was, ep) else Under(was, ep) - {id}
  {
  }

  /** While every record under the endpoint can be cleared, each round clears one. */
  lemma RoundClears(env: Env, c: Conn, b: Packet, secret: nat)
    requires Sound(env) && Filed(env, c.peers) && Clearable(c.peers, c.ep)
    ensures var t := Round(env, c, b, secret);
            t.Again? ==>
              var id := env.pick(Under(c.peers, c.ep));
              && id in Under(c.peers, c.ep) && Under(t.conn.peers, c.ep) == Under(c.peers, c.ep) - {id}
              && |Under(t.conn.peers, c.ep)| < |Under(c.peers, c.ep)|
              && Cleared(c.peers, t.conn.peers, {id})
              && Filed(env, t.conn.peers) && Clearable(t.conn.peers, c.ep)
  {
    var t := Round(env, c, b, secret);
    RoundAgain(env, c, b, secret);
    if t.Again? {
      var id := env.pick(Under(c.peers, c.ep));
      UnderAfter(c.peers, t.conn.peers, c.ep, id);
    }
  }

  lemma RoundsNext(env: Env, c: Conn, b: Packet, secret: nat, n: nat)
    requires Sound(env)
    ensures Rounds(env, c, b, secret, n + 1) == Onward(env, Rounds(env, c, b, secret, n), secret)
  {
  }

  /** No more than k rounds are left, each with a record to clear. */
  ghost predicate Going(env: Env, t: Turn, ep: Endpoint, k: int) {
    t.Again? ==>
      t.conn.ep == ep && Filed(env, t.conn.peers) && Clearable(t.conn.peers, ep) && |Under(t.conn.peers, ep)| <= k
  }

  lemma OnwardGoes(env: Env, t: Turn, ep: Endpoint, k: int, secret: nat)
    requires Sound(env) && Going(env, t, ep, k)
    ensures Going(env, Onward(env, t, secret), ep, k - 1)
  {
    if t.Again? {
      RoundAgain(env, t.conn, t.packet, secret);
      RoundClears(env, t.conn, t.packet, secret);
    }
  }

  lemma RoundsStart(env: Env, c: Conn, b: Packet, secret: nat, n: nat)
    requires Sound(env) && n == 0
    ensures Rounds(env, c, b, secret, n) == Again(c, b)
  {
  }

  lemma RoundsGoOn(env: Env, c: Conn, b: Packet, secret: nat, k: int, n: nat)
    requires Sound(env) && Going(env, Rounds(env, c, b, secret, n), c.ep, k)
    ensures Going(env, Rounds(env, c, b, secret, n + 1), c.ep, k - 1)
  {
    RoundsNext(env, c, b, secret, n);
    OnwardGoes(env, Rounds(env, c, b, secret, n), c.ep, k, secret);
  }

  lemma {:induction false} RoundsGo(env: Env, c: Conn, b: Packet, secret: nat, k: int, n: nat)
    requires Sound(env) && Going(env, Again(c, b), c.ep, k)
    ensures Going(env, Rounds(env, c, b, secret, n), c.ep, k - n)
  {
    if n == 0 {
      RoundsStart(env, c, b, secret, n);
    } else {
      var m: nat, j := n - 1, k - (n - 1);
      assert m + 1 == n && j - 1 == k - n && k - m == j;
      RoundsGo(env, c, b, secret, k, m);
      RoundsGoOn(env, c, b, secret, j, m);
    }
  }

  /** The recursion ends for every packet, after at most one round per record and one more. */
  lemma RecursionEnds(env: Env, c: Conn, b: Packet, secret: nat)
    requires Sound(env) && Filed(env, c.peers) && Clearable(c.peers, c.ep)
    ensures exists n: nat :: n <= |Under(c.peers, c.ep)| + 1 && Rounds(env, c, b, secret, n).Settled?
  {
    var n := |Under(c.peers, c.ep)| + 1;
    RoundsGo(env, c, b, secret, n - 1, n);
    assert Rounds(env, c, b, secret, n).Settled?;
  }

  // ------------------------------------------------------------ packets that do not decode

  /** The table and the packet between attempts to decode it. */
  datatype Trial = Trial(peers: Peers, packet: Packet)

  // what a failed attempt leaves of the record it took up
  function GivenUp(r: Record): Record {
    if r.Valid() then r.(lastEp := NO_ENDPOINT, bfKey := 0, connected := false) else r.(connected := true)
  }

  /** The next attempt, with the key of the next record under the endpoint, decodes nothing. */
  predicate Undecoded(env: Env, ep: Endpoint, t: Trial) {
    var known := Under(t.peers, ep);
    |t.packet| % 8 != 0 || known == {} || env.pick(known) !in known ||
    env.decode(t.peers[env.pick(known)].bfKey, t.packet).message.None?
  }

  /** After it, the record is given up and the packet has been decrypted once more. */
  function NextTrial(env: Env, ep: Endpoint, t: Trial): Trial {
    var known := Under(t.peers, ep);
    var id := env.pick(known);
    if id !in known then t else
      Trial(t.peers[id := GivenUp(t.peers[id])],
            if |t.packet| % 8 == 0 then env.decode(t.peers[id].bfKey, t.packet).bytes else t.packet)
  }

  function Trials(env: Env, ep: Endpoint, t: Trial, n: nat): Trial {
    if n == 0 then t else NextTrial(env, ep, Trials(env, ep, t, n - 1))
  }

  predicate UndecodedTimes(env: Env, ep: Endpoint, t: Trial, n: nat) {
    n == 0 || (UndecodedTimes(env, ep, t, n - 1) && Undecoded(env, ep, Trials(env, ep, t, n - 1)))
  }

  /** This packet is decoded by none of the keys tried on it, one after the other, each on the
      bytes the one before has left. */
  ghost predicate Undecodable(env: Env, ep: Endpoint, t: Trial) {
    forall n: nat :: UndecodedTimes(env, ep, t, n)
  }

  /** A round on such a packet is one more failed attempt. */
  lemma RoundFails(env: Env, c: Conn, b: Packet, secret: nat)
    requires Sound(env) && Filed(env, c.peers) && Undecoded(env, c.ep, Trial(c.peers, b)) && Under(c.peers, c.ep) != {}
    ensures var t := Round(env, c, b, secret);
            t.Again? && Trial(t.conn.peers, t.packet) == NextTrial(env, c.ep, Trial(c.peers, b))
  {
    var id := env.pick(Under(c.peers, c.ep));
    var r := Revived(env, c, id);
    assert Holding(env, r);
    DisownedClears(env, r);
  }

  /** There is another round to come, and a record that cannot be cleared. */
  ghost predicate Stuck(env: Env, t: Turn, ep: Endpoint) {
    t.Again? && t.conn.ep == ep && Filed(env, t.conn.peers) && !Clearable(t.conn.peers, ep)
  }

  lemma StaysStuck(env: Env, t: Turn, ep: Endpoint, secret: nat)
    requires Sound(env) && Stuck(env, t, ep) && Undecoded(env, ep, Trial(t.conn.peers, t.packet))
    ensures var next := Onward(env, t, secret);
            && Stuck(env, next, ep)
            && Trial(next.conn.peers, next.packet) == NextTrial(env, ep, Trial(t.conn.peers, t.packet))
  {
    var c := t.conn;
    var next := Round(env, c, t.packet, secret);
    RoundFails(env, c, t.packet, secret);
    RoundAgain(env, c, t.packet, secret);
    var id := env.pick(Under(c.peers, ep));
    UnderAfter(c.peers, next.conn.peers, ep, id);
    if ep != NO_ENDPOINT {
      var bad :| bad in Under(c.peers, ep) && !c.peers[bad].Valid();
      assert bad in Under(next.conn.peers, ep) && !next.conn.peers[bad].Valid();
    }
  }

  lemma {:induction false} RecursionSticks(env: Env, c: Conn, b: Packet, secret: nat, n: nat)
    requires Sound(env) && UndecodedTimes(env, c.ep, Trial(c.peers, b), n) && Stuck(env, Again(c, b), c.ep)
    ensures var t := Rounds(env, c, b, secret, n);
            Stuck(env, t, c.ep) && Trial(t.conn.peers, t.packet) == Trials(env, c.ep, Trial(c.peers, b), n)
  {
    if n > 0 {
      RecursionSticks(env, c, b, secret, n - 1);
      RoundsNext(env, c, b, secret, n - 1);
      StaysStuck(env, Rounds(env, c, b, secret, n - 1), c.ep, secret);
    }
  }

  /** For a packet that none of the keys tried on it decodes, the recursion ends exactly when
      every record under the endpoint can be cleared. */
  lemma RecursionEndsIff(env: Env, c: Conn, b: Packet, secret: nat)
    requires Sound(env) && Filed(env, c.peers) && Undecodable(env, c.ep, Trial(c.peers, b))
    ensures Ends(env, c, b, secret) <==> Clearable(c.peers, c.ep)
  {
    if Clearable(c.peers, c.ep) {
      RecursionEnds(env, c, b, secret);
      assert exists n: nat :: Rounds(env, c, b, secret, n).Settled?;
    } else {
      forall n: nat
        ensures Rounds(env, c, b, secret, n).Again?
      {
        RecursionSticks(env, c, b, secret, n);
      }
    }
  }

  lemma {:induction false} OddTrials(env: Env, ep: Endpoint, t: Trial, n: nat)
    requires Sound(env) && |t.packet| % 8 != 0
    ensures |Trials(env, ep, t, n).packet| == |t.packet| && UndecodedTimes(env, ep, t, n)
  {
    if n > 0 {
      OddTrials(env, ep, t, n - 1);
    }
  }

  /** A packet that is not a whole number of cipher blocks is never even tried. */
  lemma OddSizesAreUndecodable(env: Env, ep: Endpoint, t: Trial)
    requires Sound(env) && |t.packet| % 8 != 0
    ensures Undecodable(env, ep, t)
  {
    forall n: nat
      ensures UndecodedTimes(env, ep, t, n)
    {
      OddTrials(env, ep, t, n);
    }
  }

  /** One stored record without a key is enough: a packet of one byte is passed back and forth
      between the two handlers for ever. */
  lemma KeylessRecordNeverEnds(env: Env, c: Conn, secret: nat)
    requires Sound(env) && c.peers == map[env.idOf(NO_KEY) := EMPTY_RECORD.(lastEp := c.ep)]
    ensures !Ends(env, c, [0], secret)
  {
    var b: Packet := [0];
    assert |b| % 8 != 0;
    assert env.idOf(NO_KEY) in Under(c.peers, c.ep);
    OddSizesAreUndecodable(env, c.ep, Trial(c.peers, b));
    RecursionEndsIff(env, c, b, secret);
  }

  /** So is any record without an endpoint, on a connection to the null endpoint. */
  lemma NullEndpointNeverEnds(env: Env, c: Conn, key: nat, secret: nat)
    requires Sound(env) && c.ep == NO_ENDPOINT && c.peers == map[env.idOf(key) := EMPTY_RECORD.(publicKey := key)]
    ensures !Ends(env, c, [0], secret)
  {
    var b: Packet := [0];
    assert |b| % 8 != 0;
    assert env.idOf(key) in Under(c.peers, c.ep);
    OddSizesAreUndecodable(env, c.ep, Trial(c.peers, b));
    RecursionEndsIff(env, c, b, secret);
  }

  // ------------------------------------------------------------ the handlers

  /** handle_uninit: round after round, one record fewer under the endpoint each time. */
  function HandleUninit(env: Env, c: Conn, b: Packet, secret: nat): Conn
    requires Sound(env) && Filed(env, c.peers) && Clearable(c.peers, c.ep)
    decreases |Under(c.peers, c.ep)|
  {
    RoundAgain(env, c, b, secret);
    RoundClears(env, c, b, secret);
    match Round(env, c, b, secret)
    case Settled(d) => d
    case Again(d, b') => HandleUninit(env, d, b', secret)
  }

  // where a turn leads to in the end
  ghost predicate LeadsTo(env: Env, t: Turn, secret: nat, d: Conn)
    requires Sound(env)
  {
    match t
    case Settled(e) => e == d
    case Again(e, b) => Filed(env, e.peers) && Clearable(e.peers, e.ep) && HandleUninit(env, e, b, secret) == d
  }

  lemma OnwardLeads(env: Env, t: Turn, secret: nat, d: Conn)
    requires Sound(env) && LeadsTo(env, t, secret, d)
    ensures LeadsTo(env, Onward(env, t, secret), secret, d)
  {
    if t.Again? {
      RoundAgain(env, t.conn, t.packet, secret);
      RoundClears(env, t.conn, t.packet, secret);
    }
  }

  lemma RoundsLeadOn(env: Env, c: Conn, b: Packet, secret: nat, n: nat, d: Conn)
    requires Sound(env) && LeadsTo(env, Rounds(env, c, b, secret, n), secret, d)
    ensures LeadsTo(env, Rounds(env, c, b, secret, n + 1), secret, d)
  {
    RoundsNext(env, c, b, secret, n);
    OnwardLeads(env, Rounds(env, c, b, secret, n), secret, d);
  }

  lemma {:induction false} RoundsLead(env: Env, c: Conn, b: Packet, secret: nat, n: nat, d: Conn)
    requires Sound(env) && LeadsTo(env, Again(c, b), secret, d)
    ensures LeadsTo(env, Rounds(env, c, b, secret, n), secret, d)
  {
    if n == 0 {
      RoundsStart(env, c, b, secret, n);
    } else {
      var m: nat := n - 1;
      assert m + 1 == n;
      RoundsLead(env, c, b, secret, m, d);
      RoundsLeadOn(env, c, b, secret, m, d);
    }
  }

  /** What handle_uninit returns is where the rounds settle. */
  lemma HandleUninitIsRounds(env: Env, c: Conn, b: Packet, secret: nat)
    requires Sound(env) && Filed(env, c.peers) && Clearable(c.peers, c.ep)
    ensures exists n: nat :: Rounds(env, c, b, secret, n) == Settled(HandleUninit(env, c, b, secret))
  {
    RecursionEnds(env, c, b, secret);
    var n: nat :| Rounds(env, c, b, secret, n).Settled?;
    RoundsLead(env, c, b, secret, n, HandleUninit(env, c, b, secret));
  }

  lemma ClearedTwice(a: Peers, b: Peers, c: Peers, s: set<Id>, t: set<Id>)
    requires Cleared(a, b, s) && Cleared(b, c, t)
    ensures Cleared(a, c, s + t)
  {
  }

  /** `ids` lost endpoint and key, the other records stayed, and a key exchange has started
      with this secret. */
  ghost predicate StartedOver(was: Conn, now: Conn, ids: set<Id>, length: nat, secret: nat) {
    && now.state == (if length % 8 != 0 && length > 56 then ReceivedDh else GeneratedDh)
    && Cleared(was.peers, now.peers, ids) && Under(now.peers, was.ep) == {}
    && now.ep == was.ep && now.broken == was.broken && now.dh.Some? && now.dh.value.secret == secret
  }

  lemma FreshStartsOver(env: Env, c: Conn, b: Packet, secret: nat)
    requires Under(c.peers, c.ep) == {}
    ensures StartedOver(c, Fresh(env, c, b, secret), {}, |b|, secret)
  {
  }

  lemma StartedOverEarlier(was: Conn, mid: Conn, now: Conn, id: Id, ids: set<Id>, length: nat, secret: nat)
    requires StartedOver(mid, now, ids - {id}, length, secret) && Cleared(was.peers, mid.peers, {id}) && id in ids
    requires mid.ep == was.ep && mid.broken == was.broken
    ensures StartedOver(was, now, ids, length, secret)
  {
    ClearedTwice(was.peers, mid.peers, now.peers, {id}, ids - {id});
    assert {id} + (ids - {id}) == ids;
  }

  /** None of the keys of these records, tried in the order of the index on the bytes the one
      before has left, decodes the packet: a check of the table and the packet alone. */
  predicate NoneDecodes(env: Env, peers: Peers, ids: set<Id>, b: Packet)
    requires ids <= peers.Keys
    decreases |ids|
  {
    |b| % 8 != 0 || ids == {} || env.pick(ids) !in ids ||
    (var id := env.pick(ids);
     var d := env.decode(peers[id].bfKey, b);
     d.message.None? && NoneDecodes(env, peers, ids - {id}, d.bytes))
  }

  lemma {:induction false} NoneDecodesSame(env: Env, was: Peers, now: Peers, ids: set<Id>, b: Packet)
    requires ids <= was.Keys && ids <= now.Keys && forall id :: id in ids ==> now[id] == was[id]
    ensures NoneDecodes(env, was, ids, b) == NoneDecodes(env, now, ids, b)
    decreases |ids|
  {
    if ids != {} && env.pick(ids) in ids {
      var id := env.pick(ids);
      NoneDecodesSame(env, was, now, ids - {id}, env.decode(was[id].bfKey, b).bytes);
    }
  }

  /** A packet that no record under the endpoint decodes: each of them loses endpoint and key,
      every other record stays, and a key exchange starts with whoever is there. */
  lemma {:induction false} UndecodedStartsOver(env: Env, c: Conn, b: Packet, secret: nat)
    requires Sound(env) && Filed(env, c.peers) && Clearable(c.peers, c.ep)
    requires NoneDecodes(env, c.peers, Under(c.peers, c.ep), b)
    ensures StartedOver(c, HandleUninit(env, c, b, secret), Under(c.peers, c.ep), |b|, secret)
    decreases |Under(c.peers, c.ep)|
  {
    var known, t := Under(c.peers, c.ep), Round(env, c, b, secret);
    if known == {} {
      FreshStartsOver(env, c, b, secret);
    } else {
      RoundFails(env, c, b, secret);
      RoundAgain(env, c, b, secret);
      RoundClears(env, c, b, secret);
      var rest := known - {env.pick(known)};
      NoneDecodesSame(env, c.peers, t.conn.peers, rest, t.packet);
      UndecodedStartsOver(env, t.conn, t.packet, secret);
      StartedOverEarlier(c, t.conn, HandleUninit(env, t.conn, t.packet, secret), env.pick(known), known, |b|, secret);
    }
  }
}
