/** The connection as an object whose handlers call each other. */
module ConnectionObjects {
  import opened Common
  import opened C = Connections
  import opened R = ConnectionRuns

  /** How much recursion is left: the records under the endpoint, and whether the one in hand
      is among them. */
  function UninitLeft(c: Conn): nat {
    2 * |Under(c.peers, c.ep)|
  }

  function ConnectedLeft(c: Conn): nat {
    if c.record.Valid() && c.id in Under(c.peers, c.ep) then UninitLeft(c) - 1 else UninitLeft(c) + 1
  }

  lemma RevivedLeft(env: Env, c: Conn, id: Id)
    requires Wired(env, c) && id in Under(c.peers, c.ep)
    ensures ConnectedLeft(Revived(env, c, id)) < UninitLeft(c)
  {
    var d := Revived(env, c, id);
    assert Under(d.peers, d.ep) == Under(c.peers, c.ep);
  }

  lemma StoredUnder(peers: Peers, ep: Endpoint, id: Id, record: Record)
    requires ep != NO_ENDPOINT
    ensures record.lastEp == NO_ENDPOINT ==> Under(peers[id := record], ep) == Under(peers, ep) - {id}
  {
  }

  lemma DisownedLeft(env: Env, c: Conn)
    requires Wired(env, c)
    ensures var d := Disowned(env, c);
            Under(d.peers, d.ep) == if c.record.Valid() then Under(c.peers, c.ep) - {c.id} else Under(c.peers, c.ep)
  {
    var record := c.record.(lastEp := NO_ENDPOINT, bfKey := 0, connected := false);
    StoredUnder(c.peers, c.ep, c.id, record);
  }

  // a refused message leaves the table alone, but for the record in hand
  lemma RefusedUnder(env: Env, c: Conn, b: Packet)
    requires Sound(env) && Wired(env, c) && c.state.Connected?
    ensures var v := Decode(env, c, b).0;
            !v.ok ==> v.conn.id == c.id && v.conn.ep == c.ep && v.conn.record.Valid() == c.record.Valid()
                      && (c.record.Valid() ==> Under(v.conn.peers, c.ep) - {c.id} == Under(c.peers, c.ep) - {c.id})
                      && (!c.record.Valid() ==> v.conn.peers == c.peers)
  {
    if c.record.Valid() {
      RefusalKeeps(env, c, b);
    }
  }

  lemma TurnLeft(env: Env, c: Conn, b: Packet)
    requires Sound(env) && Wired(env, c) && c.state.Connected?
    ensures var t := ConnectedTurn(env, c, b); t.Again? ==> UninitLeft(t.conn) < ConnectedLeft(c)
  {
    if |b| % 8 == 0 {
      RefusedUnder(env, c, b);
      DecodeKeeps(env, c, b);
      DisownedLeft(env, Decode(env, c, b).0.conn);
    } else {
      DisownedLeft(env, c);
    }
  }

  /** The connection as it starts for an endpoint: revived when the peer is known. */
  function Opened(env: Env, ep: Endpoint, peers: Peers): Conn
    requires Sound(env)
  {
    var c := Conn(Uninit, ep, 0, EMPTY_RECORD, None, None, peers, false);
    var known := Under(peers, ep);
    if known == {} then c.(record := EMPTY_RECORD.(lastEp := ep)) else Revived(env, c, env.pick(known))
  }

  lemma OpenedIsWired(env: Env, ep: Endpoint, peers: Peers)
    requires Sound(env) && ep != NO_ENDPOINT && Filed(env, peers) && AllValid(peers) && env.idOf(NO_KEY) != 0
    ensures Carries(env, Conn(Uninit, ep, 0, EMPTY_RECORD, None, None, peers, false), Opened(env, ep, peers))
    ensures
      var d := Opened(env, ep, peers);
      if forall id :: id in peers ==> peers[id].lastEp != ep
      then d == Conn(Uninit, ep, 0, Record(ep, NO_KEY, 0, 0, 0, false), None, None, peers, false)
      else
        && d.state.Connected? && d.id in peers && peers[d.id].lastEp == ep && d.cipher == Some(peers[d.id].bfKey)
        && d.record == peers[d.id].(connected := true) && d.peers == peers[d.id := d.record]
  {
    assert forall id :: id in Under(peers, ep) <==> id in peers && peers[id].lastEp == ep;
    var known := Under(peers, ep);
    if known != {} {
      RevivedKeeps(env, Conn(Uninit, ep, 0, EMPTY_RECORD, None, None, peers, false), env.pick(known));
    }
  }

  class Connection {
    const env: Env
    var my: Conn

    ghost predicate Ready()
      reads this
    {
      Sound(env) && Wired(env, my)
    }

    constructor (env: Env, ep: Endpoint, peers: Peers)
      requires Sound(env)
      ensures this.env == env && my == Opened(env, ep, peers)
      ensures ep != NO_ENDPOINT && Filed(env, peers) && AllValid(peers) && env.idOf(NO_KEY) != 0 ==> Ready()
    {
      if ep != NO_ENDPOINT && Filed(env, peers) && AllValid(peers) && env.idOf(NO_KEY) != 0 {
        OpenedIsWired(env, ep, peers);
      }
      this.env := env;
      var known := Under(peers, ep);
      var c := Conn(Uninit, ep, 0, EMPTY_RECORD, None, None, peers, false);
      if known != {} {
        my := Revived(env, c, env.pick(known));
      } else {
        my := c.(record := c.record.(lastEp := ep));
      }
    }

    method StorePeer()
      modifies this
      ensures my == Stored(env, old(my))
    {
      if env.idOf(my.record.publicKey) != my.id {
        my := my.(broken := true);
        return;
      }
      my := my.(peers := my.peers[my.id := my.record]);
    }

    method Reset()
      modifies this
      ensures my == C.Reset(env, old(my))
    {
      if my.record.Valid() {
        my := my.(record := my.record.(connected := false));
        StorePeer();
      }
      my := my.(state := Uninit);
    }

    method GenerateDh(secret: nat)
      modifies this
      ensures my == old(my).(dh := Some(DiffieHellman(secret, 0)))
    {
      my := my.(dh := Some(DiffieHellman(secret, 0)));
    }

    method ProcessDh(b: Packet)
      requires my.dh.Some?
      modifies this
      ensures my == C.ProcessDh(env, old(my), b)
    {
      var shared := env.agree(my.dh.value.secret, b);
      my := my.(dh := Some(my.dh.value.(shared := shared)));
      my := my.(cipher := Some(shared));
      my := my.(record := my.record.(bfKey := shared));
    }

    method HandleAuthMsg(m: Message) returns (ok: bool)
      requires m.Auth?
      modifies this
      ensures Verdict(ok, my) == Receive(env, old(my), m)
      ensures old(my).dh.Some? && !m.genuine ==> !ok && my == old(my)
      ensures old(my).dh.Some? && m.genuine ==>
                var id, r := env.idOf(m.key), my.record;
                && ok && my.state.Connected? && my.id == id && my.peers == old(my).peers[id := r]
                && r.publicKey == m.key && r.bfKey == old(my).dh.value.shared && r.lastEp == old(my).ep
                && r.rank == m.rank && r.connected
    {
      if my.dh.None? {
        my := my.(broken := true);
        return true;
      }
      if !m.genuine {
        return false;
      }
      my := my.(id := env.idOf(m.key));
      if my.id in my.peers {
        my := my.(record := my.peers[my.id]);
      }
      my := my.(record := my.record.(bfKey := my.dh.value.shared, publicKey := m.key, lastEp := my.ep,
          rank := m.rank, connected := true));
      StorePeer();
      my := my.(state := Connected);
      return true;
    }

    method DecodePacket(b: Packet) returns (ok: bool, b': Packet)
      requires my.cipher.Some?
      modifies this
      ensures (Verdict(ok, my), b') == Decode(env, old(my), b)
    {
      var d := env.decode(my.cipher.value, b);
      b', ok := d.bytes, true;
      if d.message.None? {
        return false, b';
      }
      match d.message.value {
        case Data =>
          if !my.state.Connected? {
            Reset();
            ok := false;
          }
        case Auth(_, _, _) =>
          ok := HandleAuthMsg(d.message.value);
        case AuthResponse(rank) =>
          if rank != 0 {
            my := my.(record := my.record.(published := rank));
            my := my.(state := Connected);
          } else {
            Reset();
            ok := false;
          }
        case Service =>
        case Close =>
          Reset();
        case UpdateRank(rank) =>
          if rank.None? {
            ok := false;
          } else if rank.value > my.record.rank {
            my := my.(record := my.record.(rank := rank.value));
            StorePeer();
          }
      }
    }

    method HandleUninit(b: Packet, secret: nat)
      requires Ready()
      modifies this
      ensures Ready() && my == Restart(env, old(my), b, secret)
      decreases UninitLeft(my)
    {
      ghost var c := my;
      UninitKeeps(env, c, b, secret);
      var known := Under(my.peers, my.ep);
      if known != {} {
        var id := env.pick(known);
        RevivedKeeps(env, c, id);
        RevivedLeft(env, c, id);
        my := my.(id := id, record := my.peers[id].(connected := true));
        my := my.(cipher := Some(my.record.bfKey));
        StorePeer();
        my := my.(state := Connected);
        HandleConnected(b, secret);
        return;
      }
      GenerateDh(secret);
      if IsKey(|b|) {
        ProcessDh(b);
        my := my.(state := ReceivedDh);
      } else {
        my := my.(state := GeneratedDh);
      }
    }

    method HandleConnected(b: Packet, secret: nat)
      requires Ready() && my.state.Connected?
      modifies this
      ensures Ready() && my == R.HandleConnected(env, old(my), b, secret)
      decreases ConnectedLeft(my)
    {
      ghost var c := my;
      ConnectedTurnKeeps(env, c, b);
      TurnLeft(env, c, b);
      var packet := b;
      if |b| % 8 == 0 {
        var ok;
        ok, packet := DecodePacket(b);
        if ok {
          return;
        }
      }
      if my.record.Valid() {
        my := my.(record := my.record.(lastEp := NO_ENDPOINT, bfKey := 0, connected := false));
        StorePeer();
      }
      my := my.(record := EMPTY_RECORD.(lastEp := my.ep));
      Reset();
      HandleUninit(packet, secret);
    }

    method HandleGeneratedDh(b: Packet)
      requires my.dh.Some?
      modifies this
      ensures my == R.HandleGeneratedDh(env, old(my), b)
    {
      if IsKey(|b|) {
        ProcessDh(b);
        my := my.(state := ReceivedDh);
      }
    }

    method HandleReceivedDh(b: Packet, secret: nat)
      requires Ready() && my.state.ReceivedDh?
      modifies this
      ensures my == R.HandleReceivedDh(env, old(my), b, secret)
    {
      if IsKey(|b|) {
        ProcessDh(b);
        return;
      }
      if |b| % 8 == 0 {
        DecodeKeeps(env, my, b);
        var ok, packet := DecodePacket(b);
        if !ok {
          my := my.(state := Uninit);
          HandleUninit(packet, secret);
        }
      }
    }

    method HandleAuthenticated(b: Packet, secret: nat)
      requires Ready() && my.state.Authenticated?
      modifies this
      ensures my == R.HandleAuthenticated(env, old(my), b, secret)
    {
      ResetKeeps(env, my);
      if |b| % 8 == 0 {
        DecodeKeeps(env, my, b);
        var ok, packet := DecodePacket(b);
        if !ok {
          ResetKeeps(env, my);
          Reset();
          HandleUninit(packet, secret);
        }
      } else if |b| > 56 {
        Reset();
        HandleUninit(b, secret);
      }
    }

    /** handle_packet: ends for every packet in every state. */
    method HandlePacket(b: Packet, secret: nat)
      requires Ready()
      modifies this
      ensures Ready() && my == R.HandlePacket(env, old(my), b, secret)
    {
      PacketKeeps(env, my, b, secret);
      match my.state {
        case Failed =>
        case Uninit => HandleUninit(b, secret);
        case GeneratedDh => HandleGeneratedDh(b);
        case ReceivedDh => HandleReceivedDh(b, secret);
        case Authenticated => HandleAuthenticated(b, secret);
        case Connected => HandleConnected(b, secret);
      }
    }
  }
}
