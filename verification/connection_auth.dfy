/** Who gets into the table of peers, and what the messages mean for it. */
module ConnectionAuth {
  import opened Common
  import opened Connections
  import opened ConnectionRuns

  // ------------------------------------------------------------ single messages

  /** A signature that does not verify is refused and leaves everything as it was. */
  lemma ForgedIsRefused(env: Env, c: Conn, key: nat, rank: nat)
    requires c.dh.Some?
    ensures Receive(env, c, Auth(key, false, rank)) == Verdict(false, c)
  {
  }

  /** A genuine one files the peer under the id of its key: at this endpoint, with the agreed
      cipher key, the rank it proved, and as connected; nobody else's record changes. */
  lemma GenuineIsFiled(env: Env, c: Conn, key: nat, rank: nat, other: Id)
    requires c.dh.Some?
    ensures
      var v, id := Receive(env, c, Auth(key, true, rank)), env.idOf(key);
      && v.ok && v.conn.state == Connected && v.conn.id == id && v.conn.broken == c.broken && id in v.conn.peers
      && v.conn.peers[id].publicKey == key && v.conn.peers[id].lastEp == c.ep
      && v.conn.peers[id].bfKey == c.dh.value.shared && v.conn.peers[id].rank == rank
      && v.conn.peers[id].connected && v.conn.record == v.conn.peers[id]
      && v.conn.peers[id].published == (if id in c.peers then c.peers[id].published else c.record.published)
      && (other != id ==> (other in v.conn.peers <==> other in c.peers))
      && (other != id && other in c.peers ==> v.conn.peers[other] == c.peers[other])
      && v.conn.cipher == c.cipher && v.conn.dh == c.dh && v.conn.ep == c.ep
  {
  }

  /** Only a genuine signature or an accepting response makes a connection connected. */
  lemma ConnectedOnlyBy(env: Env, c: Conn, m: Message)
    requires c.state != Connected && Receive(env, c, m).conn.state == Connected
    ensures (m.Auth? && m.genuine && c.dh.Some?) || (m.AuthResponse? && m.rank != 0)
  {
  }

  /** An accepting response is kept as the rank the peer gives this node, and nothing else
      changes; a refusing one resets the connection. */
  lemma ResponseCounts(env: Env, c: Conn, rank: nat)
    ensures
      var v := Receive(env, c, AuthResponse(rank));
      && (v.ok <==> rank != 0)
      && (rank != 0 ==> v.conn.record.published == rank && v.conn.peers == c.peers && v.conn.state == Connected
                        && v.conn.record.publicKey == c.record.publicKey && v.conn.record.rank == c.record.rank
                        && v.conn.record.bfKey == c.record.bfKey && v.conn.record.lastEp == c.record.lastEp)
      && (rank == 0 ==> v.conn.state == Uninit)
  {
  }

  /** Closing, being refused, or data before its time: the state is uninit, and a peer that was
      authenticated is filed as not connected with its key, endpoint and rank kept. */
  lemma ResetMarks(env: Env, c: Conn, m: Message, other: Id)
    requires Wired(env, c) && (m.Close? || (m.Data? && c.state != Connected) || (m.AuthResponse? && m.rank == 0))
    ensures
      var v := Receive(env, c, m);
      && v.conn.state == Uninit && (v.ok <==> m.Close?)
      && (c.record.Valid() ==>
            && c.id in v.conn.peers && !v.conn.peers[c.id].connected
            && v.conn.peers[c.id] == c.record.(connected := v.conn.peers[c.id].connected))
      && (other in c.peers && (other != c.id || !c.record.Valid()) ==>
            other in v.conn.peers && v.conn.peers[other] == c.peers[other])
  {
  }

  /** Data on a connected connection is accepted and changes nothing here; so do the services. */
  lemma DataIsAccepted(env: Env, c: Conn)
    ensures c.state == Connected ==> Receive(env, c, Data) == Verdict(true, c)
    ensures Receive(env, c, Service) == Verdict(true, c)
  {
  }

  /** A peer's rank only rises by a rank update, and is filed as it rises. */
  lemma RankOnlyRises(env: Env, c: Conn, rank: nat)
    requires Wired(env, c) && c.record.Valid()
    ensures
      var v := Receive(env, c, UpdateRank(Some(rank)));
      && v.ok && v.conn.record.rank == (if rank > c.record.rank then rank else c.record.rank)
      && (rank > c.record.rank ==> v.conn.peers[c.id].rank == rank)
      && (rank <= c.record.rank ==> v.conn == c)
    ensures !Receive(env, c, UpdateRank(None)).ok
  {
  }

  // ------------------------------------------------------------ key exchange and revival

  /** A packet that is not a whole number of blocks and longer than 56 bytes is a public key: in
      the states that wait for one, the agreed key becomes cipher and record key. */
  lemma KeyIsAgreed(env: Env, c: Conn, b: Packet, secret: nat)
    requires Sound(env) && Wired(env, c) && (c.state == GeneratedDh || c.state == ReceivedDh)
    requires |b| % 8 != 0 && |b| > 56
    ensures
      var d := HandlePacket(env, c, b, secret);
      var shared := env.agree(c.dh.value.secret, b);
      && d.state == ReceivedDh && d.cipher == Some(shared) && d.record.bfKey == shared
      && d.dh == Some(DiffieHellman(c.dh.value.secret, shared)) && d.peers == c.peers && d.id == c.id
  {
  }

  /** Any other packet in generated_dh, and a malformed one in received_dh or authenticated,
      changes nothing. */
  lemma MalformedIsIgnored(env: Env, c: Conn, b: Packet, secret: nat)
    requires Sound(env) && Wired(env, c)
    ensures c.state == GeneratedDh && (|b| % 8 == 0 || |b| <= 56) ==> HandlePacket(env, c, b, secret) == c
    ensures c.state in {ReceivedDh, Authenticated} && |b| % 8 != 0 && |b| <= 56 ==> HandlePacket(env, c, b, secret) == c
    ensures c.state == Failed ==> HandlePacket(env, c, b, secret) == c
  {
  }

  /** With nobody known at the endpoint a fresh key exchange starts, from the given secret, and
      a public key is answered at once. */
  lemma UnknownStartsExchange(env: Env, c: Conn, b: Packet, secret: nat)
    requires Sound(env) && Wired(env, c) && c.state == Uninit && Under(c.peers, c.ep) == {}
    ensures
      var d, shared := HandlePacket(env, c, b, secret), env.agree(secret, b);
      && d.peers == c.peers && d.dh.Some? && d.dh.value.secret == secret
      && (|b| % 8 != 0 && |b| > 56 ==>
            && d.state == ReceivedDh && d.cipher == Some(shared)
            && d.record.bfKey == shared && d.dh.value.shared == shared)
      && (|b| % 8 == 0 || |b| <= 56 ==> d.state == GeneratedDh && d.cipher == c.cipher && d.record == c.record)
  {
    WiredIsClearable(env, c);
  }

  /** A known peer's connection is revived with the record and the cipher key on file. */
  lemma RevivedFromRecord(env: Env, c: Conn, id: Id, other: Id)
    requires Filed(env, c.peers) && id in c.peers
    ensures
      var d := Revived(env, c, id);
      && d.state == Connected && d.id == id && d.cipher == Some(c.peers[id].bfKey) && d.broken == c.broken
      && d.record == c.peers[id].(connected := true) && d.peers.Keys == c.peers.Keys && d.peers[id] == d.record
      && (other in c.peers && other != id ==> d.peers[other] == c.peers[other])
  {
  }

  // ------------------------------------------------------------ who is in the table

  /** The packet decodes to this message with the connection's present cipher key. */
  predicate DecodedHere(env: Env, c: Conn, b: Packet, m: Message) {
    |b| % 8 == 0 && c.cipher.Some? && env.decode(c.cipher.value, b).message == Some(m)
  }

  /** Some attempt of handle_uninit at this packet decodes it to this message. */
  ghost predicate DecodedByUninit(env: Env, c: Conn, b: Packet, secret: nat, m: Message)
    requires Sound(env) && Filed(env, c.peers) && Clearable(c.peers, c.ep)
    decreases |Under(c.peers, c.ep)|
  {
    RoundAgain(env, c, b, secret);
    RoundClears(env, c, b, secret);
    var known := Under(c.peers, c.ep);
    known != {} &&
    (DecodedHere(env, Revived(env, c, env.pick(known)), b, m) ||
     match Round(env, c, b, secret)
     case Settled(_) => false
     case Again(d, b') => DecodedByUninit(env, d, b', secret, m))
  }

  ghost predicate DecodedByRestart(env: Env, c: Conn, b: Packet, secret: nat, m: Message)
    requires Sound(env) && Wired(env, c)
  {
    WiredIsClearable(env, c);
    DecodedByUninit(env, c, b, secret, m)
  }

  /** Some attempt at this packet, in whatever state, decodes it to this message. */
  ghost predicate DecodedFrom(env: Env, c: Conn, b: Packet, secret: nat, m: Message)
    requires Sound(env) && Wired(env, c)
  {
    match c.state
    case Failed => false
    case GeneratedDh => false
    case Uninit => DecodedByRestart(env, c, b, secret, m)
    case ReceivedDh =>
      |b| % 8 == 0 &&
      (DecodedHere(env, c, b, m) ||
       (var (v, b') := Decode(env, c, b);
        DecodeKeeps(env, c, b);
        !v.ok && DecodedByRestart(env, v.conn.(state := Uninit), b', secret, m)))
    case Authenticated =>
      if |b| % 8 == 0 then
        DecodedHere(env, c, b, m) ||
        (var (v, b') := Decode(env, c, b);
         DecodeKeeps(env, c, b);
         ResetKeeps(env, v.conn);
         !v.ok && DecodedByRestart(env, Reset(env, v.conn), b', secret, m))
      else
        ResetKeeps(env, c);
        |b| > 56 && DecodedByRestart(env, Reset(env, c), b, secret, m)
    case Connected =>
      DecodedHere(env, c, b, m) ||
      (ConnectedTurnKeeps(env, c, b);
       match ConnectedTurn(env, c, b)
       case Settled(_) => false
       case Again(d, b') => DecodedByRestart(env, d, b', secret, m))
  }

  predicate Introduces(env: Env, m: Message, id: Id) {
    m.Auth? && m.genuine && env.idOf(m.key) == id
  }

  lemma ResetAddsNobody(env: Env, c: Conn)
    requires Wired(env, c)
    ensures Reset(env, c).peers.Keys == c.peers.Keys
  {
  }

  lemma ReceiveAdds(env: Env, c: Conn, m: Message, id: Id)
    requires Wired(env, c) && id !in c.peers && id in Receive(env, c, m).conn.peers
    ensures Introduces(env, m, id) && Receive(env, c, m).ok
  {
    ResetAddsNobody(env, c);
  }

  lemma DecodeAdds(env: Env, c: Conn, b: Packet, id: Id)
    requires Wired(env, c) && c.cipher.Some? && |b| % 8 == 0
    requires id !in c.peers && id in Decode(env, c, b).0.conn.peers
    ensures Decode(env, c, b).0.ok && exists m :: DecodedHere(env, c, b, m) && Introduces(env, m, id)
  {
    var m := env.decode(c.cipher.value, b).message.value;
    ReceiveAdds(env, c, m, id);
    assert DecodedHere(env, c, b, m);
  }

  lemma DisownedAddsNobody(env: Env, c: Conn)
    requires Wired(env, c)
    ensures Disowned(env, c).peers.Keys == c.peers.Keys
  {
  }

  lemma ConnectedTurnAdds(env: Env, c: Conn, b: Packet, id: Id)
    requires Sound(env) && Wired(env, c) && c.cipher.Some?
    requires id !in c.peers && id in ConnectedTurn(env, c, b).conn.peers
    ensures ConnectedTurn(env, c, b).Settled? && exists m :: DecodedHere(env, c, b, m) && Introduces(env, m, id)
  {
    if |b| % 8 == 0 {
      DecodeKeeps(env, c, b);
      var v := Decode(env, c, b).0;
      DisownedAddsNobody(env, v.conn);
      DecodeAdds(env, c, b, id);
    } else {
      DisownedAddsNobody(env, c);
    }
  }

  lemma {:induction false} UninitAdds(env: Env, c: Conn, b: Packet, secret: nat, id: Id)
    requires Sound(env) && Wired(env, c) && Clearable(c.peers, c.ep)
    requires id !in c.peers && id in HandleUninit(env, c, b, secret).peers
    ensures exists m :: DecodedByUninit(env, c, b, secret, m) && Introduces(env, m, id)
    decreases |Under(c.peers, c.ep)|
  {
    var known := Under(c.peers, c.ep);
    if known != {} {
      var r := Revived(env, c, env.pick(known));
      RevivedKeeps(env, c, env.pick(known));
      RevivedFromRecord(env, c, env.pick(known), id);
      RoundKeeps(env, c, b, secret);
      RoundClears(env, c, b, secret);
      var t := Round(env, c, b, secret);
      if id in t.conn.peers {
        ConnectedTurnAdds(env, r, b, id);
        var m :| DecodedHere(env, r, b, m) && Introduces(env, m, id);
        assert DecodedByUninit(env, c, b, secret, m);
      } else {
        UninitAdds(env, t.conn, t.packet, secret, id);
        var m :| DecodedByUninit(env, t.conn, t.packet, secret, m) && Introduces(env, m, id);
        assert DecodedByUninit(env, c, b, secret, m);
      }
    }
  }

  lemma RestartAdds(env: Env, c: Conn, b: Packet, secret: nat, id: Id)
    requires Sound(env) && Wired(env, c) && id !in c.peers && id in Restart(env, c, b, secret).peers
    ensures exists m :: DecodedByRestart(env, c, b, secret, m) && Introduces(env, m, id)
  {
    WiredIsClearable(env, c);
    UninitAdds(env, c, b, secret, id);
    var m :| DecodedByUninit(env, c, b, secret, m) && Introduces(env, m, id);
    assert DecodedByRestart(env, c, b, secret, m);
  }

  lemma ReceivedDhAdds(env: Env, c: Conn, b: Packet, secret: nat, id: Id)
    requires Sound(env) && Wired(env, c) && c.state == ReceivedDh
    requires id !in c.peers && id in HandleReceivedDh(env, c, b, secret).peers
    ensures exists m :: DecodedFrom(env, c, b, secret, m) && Introduces(env, m, id)
  {
    DecodeKeeps(env, c, b);
    var (v, b') := Decode(env, c, b);
    if id in v.conn.peers {
      DecodeAdds(env, c, b, id);
      var m :| DecodedHere(env, c, b, m) && Introduces(env, m, id);
      assert DecodedFrom(env, c, b, secret, m);
    } else {
      RestartAdds(env, v.conn.(state := Uninit), b', secret, id);
      var m :| DecodedByRestart(env, v.conn.(state := Uninit), b', secret, m) && Introduces(env, m, id);
      assert DecodedFrom(env, c, b, secret, m);
    }
  }

  lemma AuthenticatedAdds(env: Env, c: Conn, b: Packet, secret: nat, id: Id)
    requires Sound(env) && Wired(env, c) && c.state == Authenticated
    requires id !in c.peers && id in HandleAuthenticated(env, c, b, secret).peers
    ensures exists m :: DecodedFrom(env, c, b, secret, m) && Introduces(env, m, id)
  {
    ResetKeeps(env, c);
    ResetAddsNobody(env, c);
    if |b| % 8 != 0 {
      RestartAdds(env, Reset(env, c), b, secret, id);
      var m :| DecodedByRestart(env, Reset(env, c), b, secret, m) && Introduces(env, m, id);
      assert DecodedFrom(env, c, b, secret, m);
    } else {
      DecodeKeeps(env, c, b);
      var (v, b') := Decode(env, c, b);
      ResetKeeps(env, v.conn);
      ResetAddsNobody(env, v.conn);
      if id in v.conn.peers {
        DecodeAdds(env, c, b, id);
        var m :| DecodedHere(env, c, b, m) && Introduces(env, m, id);
        assert DecodedFrom(env, c, b, secret, m);
      } else {
        RestartAdds(env, Reset(env, v.conn), b', secret, id);
        var m :| DecodedByRestart(env, Reset(env, v.conn), b', secret, m) && Introduces(env, m, id);
        assert DecodedFrom(env, c, b, secret, m);
      }
    }
  }

  lemma ConnectedAdds(env: Env, c: Conn, b: Packet, secret: nat, id: Id)
    requires Sound(env) && Wired(env, c) && c.state == Connected
    requires id !in c.peers && id in HandleConnected(env, c, b, secret).peers
    ensures exists m :: DecodedFrom(env, c, b, secret, m) && Introduces(env, m, id)
  {
    ConnectedTurnKeeps(env, c, b);
    var t := ConnectedTurn(env, c, b);
    if id in t.conn.peers {
      ConnectedTurnAdds(env, c, b, id);
      var m :| DecodedHere(env, c, b, m) && Introduces(env, m, id);
      assert DecodedFrom(env, c, b, secret, m);
    } else {
      RestartAdds(env, t.conn, t.packet, secret, id);
      var m :| DecodedByRestart(env, t.conn, t.packet, secret, m) && Introduces(env, m, id);
      assert DecodedFrom(env, c, b, secret, m);
    }
  }

  lemma PacketAdds(env: Env, c: Conn, b: Packet, secret: nat, id: Id)
    requires Sound(env) && Wired(env, c) && id !in c.peers && id in HandlePacket(env, c, b, secret).peers
    ensures exists m :: DecodedFrom(env, c, b, secret, m) && Introduces(env, m, id)
  {
    match c.state {
      case Failed =>
      case GeneratedDh =>
      case Uninit =>
        RestartAdds(env, c, b, secret, id);
        var m :| DecodedByRestart(env, c, b, secret, m) && Introduces(env, m, id);
        assert DecodedFrom(env, c, b, secret, m);
      case ReceivedDh => ReceivedDhAdds(env, c, b, secret, id);
      case Authenticated => AuthenticatedAdds(env, c, b, secret, id);
      case Connected => ConnectedAdds(env, c, b, secret, id);
    }
  }

  /** Some packet of the run is decoded to this message. */
  ghost predicate DecodedInRun(env: Env, c: Conn, arrivals: seq<Arrival>, m: Message)
    requires Sound(env) && Wired(env, c)
    decreases |arrivals|
  {
    arrivals != [] &&
    (var (b, secret) := (arrivals[0].packet, arrivals[0].secret);
     PacketKeeps(env, c, b, secret);
     DecodedFrom(env, c, b, secret, m) || DecodedInRun(env, HandlePacket(env, c, b, secret), arrivals[1..], m))
  }

  /** Over every run: whoever is new in the table sent a packet that decoded to a genuine
      signature with the key of that id. */
  lemma {:induction false} NewPeersAreGenuine(env: Env, c: Conn, arrivals: seq<Arrival>, id: Id)
    requires Sound(env) && Wired(env, c) && id !in c.peers && id in Run(env, c, arrivals).peers
    ensures exists m :: DecodedInRun(env, c, arrivals, m) && Introduces(env, m, id)
    decreases |arrivals|
  {
    var (b, secret) := (arrivals[0].packet, arrivals[0].secret);
    PacketKeeps(env, c, b, secret);
    var d := HandlePacket(env, c, b, secret);
    if id in d.peers {
      PacketAdds(env, c, b, secret, id);
      var m :| DecodedFrom(env, c, b, secret, m) && Introduces(env, m, id);
      assert DecodedInRun(env, c, arrivals, m);
    } else {
      NewPeersAreGenuine(env, d, arrivals[1..], id);
      var m :| DecodedInRun(env, d, arrivals[1..], m) && Introduces(env, m, id);
      assert DecodedInRun(env, c, arrivals, m);
    }
  }

  // ------------------------------------------------------------ a packet nobody's key decodes

  /** The states in which a packet of this length is tried, and taken back to the start if the
      attempt fails. */
  predicate Tried(c: Conn, length: nat) {
    match c.state
    case Failed => false
    case Uninit => true
    case GeneratedDh => false
    case ReceivedDh => length % 8 == 0
    case Authenticated => length % 8 == 0 || length > 56
    case Connected => true
  }

  /** The connection's own key is tried first, except before there is one. */
  predicate OwnKeyTried(c: Conn, length: nat) {
    !c.state.Uninit? && c.cipher.Some? && length % 8 == 0
  }

  // what the attempt with the connection's own key leaves of the packet
  function LeftOver(env: Env, c: Conn, b: Packet): Packet {
    if OwnKeyTried(c, |b|) then env.decode(c.cipher.value, b).bytes else b
  }

  // what becomes of the record in hand: a connected peer loses endpoint and key, one that is
  // being authenticated is only marked as not connected
  function GivenBack(c: Conn): Peers {
    if !c.record.Valid() then c.peers
    else if c.state.Connected?
    then c.peers[c.id := c.record.(lastEp := NO_ENDPOINT, bfKey := 0, connected := false)]
    else if c.state.Authenticated? then c.peers[c.id := c.record.(connected := false)]
    else c.peers
  }

  /** Neither the key in use nor any filed under the endpoint decodes the packet. */
  predicate NobodyDecodes(env: Env, c: Conn, b: Packet) {
    && (OwnKeyTried(c, |b|) ==> env.decode(c.cipher.value, b).message.None?)
    && NoneDecodes(env, GivenBack(c), Under(GivenBack(c), c.ep), LeftOver(env, c, b))
  }

  // the connection that handle_uninit is called on when the attempt has failed
  function Retreated(env: Env, c: Conn): Conn {
    match c.state
    case ReceivedDh => c.(state := Uninit)
    case Authenticated => Reset(env, c)
    case Connected => Disowned(env, c)
    case _ => c
  }

  lemma RetreatGivesBack(env: Env, c: Conn)
    requires Wired(env, c)
    ensures
      var mid := Retreated(env, c);
      mid.peers == GivenBack(c) && mid.ep == c.ep && mid.broken == c.broken && Wired(env, mid)
  {
    ResetKeeps(env, c);
    DisownedKeeps(env, c);
  }

  lemma RetreatHandsOn(env: Env, c: Conn, b: Packet, secret: nat)
    requires Sound(env) && Wired(env, c) && Tried(c, |b|) && Wired(env, Retreated(env, c))
    requires OwnKeyTried(c, |b|) ==> env.decode(c.cipher.value, b).message.None?
    ensures HandlePacket(env, c, b, secret) == Restart(env, Retreated(env, c), LeftOver(env, c, b), secret)
  {
  }

  /** Whatever the state it arrives in, a packet that nobody's key decodes clears every record
      under the endpoint, leaves all others, and starts a key exchange. */
  lemma PacketStartsOver(env: Env, c: Conn, b: Packet, secret: nat)
    requires Sound(env) && Wired(env, c) && Tried(c, |b|) && NobodyDecodes(env, c, b)
    ensures
      var was, now := c.(peers := GivenBack(c)), HandlePacket(env, c, b, secret);
      StartedOver(was, now, Under(was.peers, c.ep), |b|, secret)
  {
    var mid, left := Retreated(env, c), LeftOver(env, c, b);
    RetreatGivesBack(env, c);
    RetreatHandsOn(env, c, b, secret);
    WiredIsClearable(env, mid);
    UndecodedStartsOver(env, mid, left, secret);
  }
}
