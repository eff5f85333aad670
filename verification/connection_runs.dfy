/** Every packet, in every state, over whole runs of a connection. */
module ConnectionRuns {
  import opened Common
  import opened Connections

  ghost predicate AllValid(peers: Peers) {
    forall id :: id in peers ==> peers[id].Valid()
  }

  /** What every handler relies on: the table is filed by key, a valid record in hand is the one
      its id names, and the cipher and the key exchange exist in the states that use them. */
  ghost predicate Wired(env: Env, c: Conn) {
    && c.ep != NO_ENDPOINT && Filed(env, c.peers) && AllValid(c.peers)
    && (c.record.Valid() ==> Holding(env, c) && c.id in c.peers) && env.idOf(NO_KEY) != c.id
    && (c.state in {ReceivedDh, Authenticated, Connected} ==> c.cipher.Some?)
    && (c.state in {GeneratedDh, ReceivedDh} ==> c.dh.Some?)
  }

  lemma WiredIsClearable(env: Env, c: Conn)
    requires Wired(env, c)
    ensures Clearable(c.peers, c.ep)
  {
  }

  /** The handler either ended as before, or tripped over a missing key exchange or over a
      rank update from a peer that never authenticated. */
  predicate Tripped(c: Conn, d: Conn, m: Message) {
    d.broken ==> c.broken || (m.Auth? && c.dh.None?) || (m.UpdateRank? && !c.record.Valid())
  }

  lemma StoredKeeps(env: Env, c: Conn)
    requires Wired(env, c.(peers := c.peers[c.id := c.record])) && c.record.Valid()
    requires Filed(env, c.peers) && AllValid(c.peers)
    ensures var d := Stored(env, c);
            Wired(env, d) && d.broken == c.broken && d.peers.Keys == c.peers.Keys + {c.id} && d == c.(peers := d.peers)
  {
  }

  lemma ResetKeeps(env: Env, c: Conn)
    requires Wired(env, c)
    ensures var d := Reset(env, c); Wired(env, d) && d.broken == c.broken && c.peers.Keys <= d.peers.Keys
    ensures Reset(env, c).ep == c.ep
  {
    if c.record.Valid() {
      StoredKeeps(env, c.(record := c.record.(connected := false)));
    }
  }

  lemma AuthKeeps(env: Env, c: Conn, m: Message)
    requires Sound(env) && Wired(env, c) && c.cipher.Some? && m.Auth? && Genuine(Some(m)) && m.genuine && c.dh.Some?
    ensures var d := Receive(env, c, m).conn;
            Wired(env, d) && d.broken == c.broken && c.peers.Keys <= d.peers.Keys && d.ep == c.ep
  {
    var id := env.idOf(m.key);
    var base := if id in c.peers then c.peers[id] else c.record;
    var record := base.(bfKey := c.dh.value.shared, publicKey := m.key, lastEp := c.ep, rank := m.rank,
        connected := true);
    StoredKeeps(env, c.(id := id, record := record));
  }

  lemma RankKeeps(env: Env, c: Conn, m: Message)
    requires Wired(env, c) && m.UpdateRank?
    ensures Kept(env, c, Receive(env, c, m), m)
  {
    if m.newRank.Some? && c.record.Valid() {
      StoredKeeps(env, c.(record := c.record.(rank := m.newRank.value)));
    }
  }

  /** A message leaves the connection wired and the table without losses. */
  ghost predicate Kept(env: Env, c: Conn, v: Verdict, m: Message) {
    && Wired(env, v.conn) && Tripped(c, v.conn, m) && (!v.ok ==> v.conn.broken == c.broken)
    && c.peers.Keys <= v.conn.peers.Keys && v.conn.ep == c.ep
  }

  lemma ReceiveKeeps(env: Env, c: Conn, m: Message)
    requires Sound(env) && Wired(env, c) && c.cipher.Some? && Genuine(Some(m))
    ensures Kept(env, c, Receive(env, c, m), m)
  {
    match m {
      case Data => ResetKeeps(env, c);
      case Auth(_, genuine, _) =>
        if genuine && c.dh.Some? {
          AuthKeeps(env, c, m);
        }
      case AuthResponse(_) => ResetKeeps(env, c);
      case Service =>
      case Close => ResetKeeps(env, c);
      case UpdateRank(_) => RankKeeps(env, c, m);
    }
  }

  lemma DecodeKeeps(env: Env, c: Conn, b: Packet)
    requires Sound(env) && Wired(env, c) && c.cipher.Some?
    ensures var d := Decode(env, c, b).0; Wired(env, d.conn) && c.peers.Keys <= d.conn.peers.Keys && d.conn.ep == c.ep
  {
    var d := env.decode(c.cipher.value, b);
    if d.message.Some? {
      ReceiveKeeps(env, c, d.message.value);
    }
  }

  lemma DisownedKeeps(env: Env, c: Conn)
    requires Wired(env, c)
    ensures var d := Disowned(env, c); Wired(env, d) && c.peers.Keys <= d.peers.Keys && d.ep == c.ep
  {
    if c.record.Valid() {
      StoredKeeps(env, c.(record := c.record.(lastEp := NO_ENDPOINT, bfKey := 0, connected := false)));
    }
  }

  lemma RevivedKeeps(env: Env, c: Conn, id: Id)
    requires Sound(env) && Wired(env, c) && id in c.peers
    ensures var d := Revived(env, c, id);
            Wired(env, d) && c.peers.Keys <= d.peers.Keys && d.ep == c.ep && d.cipher.Some?
  {
    var record := c.peers[id].(connected := true);
    StoredKeeps(env, c.(id := id, record := record, cipher := Some(record.bfKey)));
  }

  ghost predicate Carries(env: Env, c: Conn, d: Conn) {
    Wired(env, d) && c.peers.Keys <= d.peers.Keys && d.ep == c.ep
  }

  lemma ConnectedTurnKeeps(env: Env, c: Conn, b: Packet)
    requires Sound(env) && Wired(env, c) && c.cipher.Some?
    ensures Carries(env, c, ConnectedTurn(env, c, b).conn)
  {
    if |b| % 8 == 0 {
      DecodeKeeps(env, c, b);
      var v := Decode(env, c, b).0;
      if !v.ok {
        DisownedKeeps(env, v.conn);
      }
    } else {
      DisownedKeeps(env, c);
    }
  }

  lemma RoundKeeps(env: Env, c: Conn, b: Packet, secret: nat)
    requires Sound(env) && Wired(env, c)
    ensures Carries(env, c, Round(env, c, b, secret).conn)
  {
    var known := Under(c.peers, c.ep);
    if known != {} {
      var id := env.pick(known);
      RevivedKeeps(env, c, id);
      ConnectedTurnKeeps(env, Revived(env, c, id), b);
    }
  }

  lemma {:induction false} UninitKeeps(env: Env, c: Conn, b: Packet, secret: nat)
    requires Sound(env) && Wired(env, c)
    ensures Clearable(c.peers, c.ep) && Carries(env, c, HandleUninit(env, c, b, secret))
    decreases |Under(c.peers, c.ep)|
  {
    WiredIsClearable(env, c);
    RoundKeeps(env, c, b, secret);
    RoundClears(env, c, b, secret);
    var t := Round(env, c, b, secret);
    if t.Again? {
      UninitKeeps(env, t.conn, t.packet, secret);
    }
  }

  // ------------------------------------------------------------ handle_packet

  function Restart(env: Env, c: Conn, b: Packet, secret: nat): Conn
    requires Sound(env) && Wired(env, c)
  {
    WiredIsClearable(env, c);
    HandleUninit(env, c, b, secret)
  }

  function HandleGeneratedDh(env: Env, c: Conn, b: Packet): Conn
    requires c.dh.Some?
  {
    if IsKey(|b|) then ProcessDh(env, c, b).(state := ReceivedDh) else c
  }

  function HandleReceivedDh(env: Env, c: Conn, b: Packet, secret: nat): Conn
    requires Sound(env) && Wired(env, c) && c.state.ReceivedDh?
  {
    if IsKey(|b|) then ProcessDh(env, c, b)
    else if |b| % 8 == 0 then
      var (v, b') := Decode(env, c, b);
      DecodeKeeps(env, c, b);
      if v.ok then v.conn else Restart(env, v.conn.(state := Uninit), b', secret)
    else c
  }

  function HandleAuthenticated(env: Env, c: Conn, b: Packet, secret: nat): Conn
    requires Sound(env) && Wired(env, c) && c.state.Authenticated?
  {
    if |b| % 8 == 0 then
      var (v, b') := Decode(env, c, b);
      DecodeKeeps(env, c, b);
      ResetKeeps(env, v.conn);
      if v.ok then v.conn else Restart(env, Reset(env, v.conn), b', secret)
    else if |b| > 56 then
      ResetKeeps(env, c);
      Restart(env, Reset(env, c), b, secret)
    else c
  }

  function HandleConnected(env: Env, c: Conn, b: Packet, secret: nat): Conn
    requires Sound(env) && Wired(env, c) && c.cipher.Some?
  {
    ConnectedTurnKeeps(env, c, b);
    match ConnectedTurn(env, c, b)
    case Settled(d) => d
    case Again(d, b') => Restart(env, d, b', secret)
  }

  function HandlePacket(env: Env, c: Conn, b: Packet, secret: nat): Conn
    requires Sound(env) && Wired(env, c)
  {
    match c.state
    case Failed => c
    case Uninit => Restart(env, c, b, secret)
    case GeneratedDh => HandleGeneratedDh(env, c, b)
    case ReceivedDh => HandleReceivedDh(env, c, b, secret)
    case Authenticated => HandleAuthenticated(env, c, b, secret)
    case Connected => HandleConnected(env, c, b, secret)
  }

  lemma ReceivedDhKeeps(env: Env, c: Conn, b: Packet, secret: nat)
    requires Sound(env) && Wired(env, c) && c.state.ReceivedDh?
    ensures Carries(env, c, HandleReceivedDh(env, c, b, secret))
  {
    DecodeKeeps(env, c, b);
    var (v, b') := Decode(env, c, b);
    if |b| % 8 == 0 && !v.ok {
      UninitKeeps(env, v.conn.(state := Uninit), b', secret);
    }
  }

  lemma AuthenticatedKeeps(env: Env, c: Conn, b: Packet, secret: nat)
    requires Sound(env) && Wired(env, c) && c.state.Authenticated?
    ensures Carries(env, c, HandleAuthenticated(env, c, b, secret))
  {
    DecodeKeeps(env, c, b);
    var (v, b') := Decode(env, c, b);
    ResetKeeps(env, v.conn);
    ResetKeeps(env, c);
    if |b| % 8 == 0 && !v.ok {
      UninitKeeps(env, Reset(env, v.conn), b', secret);
    } else if |b| % 8 != 0 && |b| > 56 {
      UninitKeeps(env, Reset(env, c), b, secret);
    }
  }

  /** Every packet in every state is handled to the end and leaves the connection wired; no
      peer is lost from the table. */
  lemma PacketKeeps(env: Env, c: Conn, b: Packet, secret: nat)
    requires Sound(env) && Wired(env, c)
    ensures Carries(env, c, HandlePacket(env, c, b, secret))
  {
    match c.state {
      case Failed =>
      case Uninit => UninitKeeps(env, c, b, secret);
      case GeneratedDh =>
      case ReceivedDh => ReceivedDhKeeps(env, c, b, secret);
      case Authenticated => AuthenticatedKeeps(env, c, b, secret);
      case Connected =>
        ConnectedTurnKeeps(env, c, b);
        var t := ConnectedTurn(env, c, b);
        if t.Again? {
          UninitKeeps(env, t.conn, t.packet, secret);
        }
    }
  }

  datatype Arrival = Arrival(packet: Packet, secret: nat)

  /** A whole run of packets. */
  function Run(env: Env, c: Conn, arrivals: seq<Arrival>): (d: Conn)
    requires Sound(env) && Wired(env, c)
    ensures Carries(env, c, d)
    decreases |arrivals|
  {
    if arrivals == [] then c else
      PacketKeeps(env, c, arrivals[0].packet, arrivals[0].secret);
      Run(env, HandlePacket(env, c, arrivals[0].packet, arrivals[0].secret), arrivals[1..])
  }

  /** Public keys never change and never disappear, over every run. */
  lemma KeysArePermanent(env: Env, c: Conn, arrivals: seq<Arrival>, id: Id)
    requires Sound(env) && Wired(env, c) && id in c.peers
    ensures var d := Run(env, c, arrivals);
            id in d.peers && d.peers[id].publicKey == c.peers[id].publicKey && d.peers[id].Valid()
  {
    var d := Run(env, c, arrivals);
    assert id in d.peers && env.idOf(d.peers[id].publicKey) == id && env.idOf(c.peers[id].publicKey) == id;
  }
}
