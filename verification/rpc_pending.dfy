/** Calls waiting for their replies: what a run of the pending list does to every call. */
module RpcPending {
  import opened Common

  const IDS: nat := 65536

  /** A call: its place in the order of all calls, and the 16-bit id it was sent with. */
  datatype Call = Call(serial: nat, id: nat)

  datatype Fate = Answered | Refused | Canceled
  datatype Gone = Gone(call: Call, fate: Fate)

  datatype Ledger = Ledger(issued: nat, lastId: nat, pending: seq<Call>, gone: seq<Gone>)

  datatype Event = Invoke | Result(id: nat) | Error(id: nat) | Teardown

  const START := Ledger(0, 0, [], [])

  /** The place of the oldest call with this id, or the number of calls. */
  function Oldest(pending: seq<Call>, id: nat): (k: nat)
    ensures k <= |pending|
    ensures k < |pending| ==> pending[k].id == id
    ensures forall i :: 0 <= i < k ==> pending[i].id != id
  {
    if pending == [] then 0 else if pending[0].id == id then 0 else 1 + Oldest(pending[1..], id)
  }

  function Invoked(l: Ledger): Ledger {
    var id := (l.lastId + 1) % IDS;
    l.(issued := l.issued + 1, lastId := id, pending := l.pending + [Call(l.issued, id)])
  }

  function Popped(l: Ledger, id: nat, fate: Fate): Ledger {
    var k := Oldest(l.pending, id);
    if k == |l.pending| then l
    else l.(pending := Without(l.pending, k), gone := l.gone + [Gone(l.pending[k], fate)])
  }

  function AllGone(calls: seq<Call>): (g: seq<Gone>)
    ensures |g| == |calls|
  {
    seq(|calls|, i requires 0 <= i < |calls| => Gone(calls[i], Canceled))
  }

  function TornDown(l: Ledger): Ledger {
    l.(pending := [], gone := l.gone + AllGone(l.pending))
  }

  function Step(l: Ledger, e: Event): Ledger {
    match e
    case Invoke => Invoked(l)
    case Result(id) => Popped(l, id, Answered)
    case Error(id) => Popped(l, id, Refused)
    case Teardown => TornDown(l)
  }

  function Run(l: Ledger, events: seq<Event>): Ledger {
    if events == [] then l else Step(Run(l, events[..|events| - 1]), events[|events| - 1])
  }

  // ------------------------------------------------------------ every call exactly once

  predicate InOrder(pending: seq<Call>) {
    forall i, j :: 0 <= i < j < |pending| ==> pending[i].serial < pending[j].serial
  }

  function CountPending(pending: seq<Call>, serial: nat): nat {
    if pending == [] then 0 else
      (if pending[|pending| - 1].serial == serial then 1 else 0) + CountPending(pending[..|pending| - 1], serial)
  }

  function CountGone(gone: seq<Gone>, serial: nat): nat {
    if gone == [] then 0 else
      (if gone[|gone| - 1].call.serial == serial then 1 else 0) + CountGone(gone[..|gone| - 1], serial)
  }

  function IdOf(serial: nat): nat {
    (serial + 1) % IDS
  }

  /** The calls still pending are in the order of their calls, with the ids they were given. */
  ghost predicate Orderly(l: Ledger) {
    && InOrder(l.pending) && l.lastId == l.issued % IDS
    && (forall i :: 0 <= i < |l.pending| ==>
          l.pending[i].serial < l.issued && l.pending[i].id == IdOf(l.pending[i].serial))
  }

  /** Every call issued is pending once or gone once, never both, never twice. */
  ghost predicate Balanced(l: Ledger) {
    forall s: nat :: CountPending(l.pending, s) + CountGone(l.gone, s) == (if s < l.issued then 1 else 0)
  }

  lemma CountWithout(pending: seq<Call>, k: nat, serial: nat)
    requires k < |pending|
    ensures CountPending(pending, serial) ==
            CountPending(Without(pending, k), serial) + (if pending[k].serial == serial then 1 else 0)
    decreases |pending|
  {
    var n := |pending| - 1;
    var init := pending[..n];
    if k < n {
      CountWithout(init, k, serial);
      assert Without(pending, k)[..n - 1] == Without(init, k);
      assert Without(pending, k)[n - 1] == pending[n];
    } else {
      assert Without(pending, k) == init;
    }
  }

  lemma {:induction false} CountAllGone(gone: seq<Gone>, calls: seq<Call>, serial: nat)
    ensures CountGone(gone + AllGone(calls), serial) == CountGone(gone, serial) + CountPending(calls, serial)
    decreases |calls|
  {
    var all := gone + AllGone(calls);
    if calls == [] {
      assert all == gone;
    } else {
      var n := |calls| - 1;
      CountAllGone(gone, calls[..n], serial);
      assert all[..|all| - 1] == gone + AllGone(calls[..n]);
    }
  }

  lemma StepBalances(l: Ledger, e: Event)
    requires Balanced(l)
    ensures Balanced(Step(l, e))
  {
    var d := Step(l, e);
    forall s: nat
      ensures CountPending(d.pending, s) + CountGone(d.gone, s) == (if s < d.issued then 1 else 0)
    {
      assert CountPending(l.pending, s) + CountGone(l.gone, s) == (if s < l.issued then 1 else 0);
      match e {
        case Invoke => assert d.pending[..|l.pending|] == l.pending;
        case Teardown => CountAllGone(l.gone, l.pending, s);
        case Result(id) => PopBalances(l, id, Answered, s);
        case Error(id) => PopBalances(l, id, Refused, s);
      }
    }
  }

  lemma PopBalances(l: Ledger, id: nat, fate: Fate, s: nat)
    ensures var d := Popped(l, id, fate);
            CountPending(d.pending, s) + CountGone(d.gone, s) == CountPending(l.pending, s) + CountGone(l.gone, s)
  {
    var d, k := Popped(l, id, fate), Oldest(l.pending, id);
    if k < |l.pending| {
      CountWithout(l.pending, k, s);
      assert d.gone[..|l.gone|] == l.gone;
    }
  }

  lemma StepKeepsOrder(l: Ledger, e: Event)
    requires Orderly(l)
    ensures Orderly(Step(l, e))
  {
    match e {
      case Invoke => assert (l.issued % IDS + 1) % IDS == (l.issued + 1) % IDS;
      case Result(id) => WithoutKeepsOrder(l, Oldest(l.pending, id));
      case Error(id) => WithoutKeepsOrder(l, Oldest(l.pending, id));
      case Teardown =>
    }
  }

  lemma WithoutKeepsOrder(l: Ledger, k: nat)
    requires Orderly(l)
    ensures k < |l.pending| ==> Orderly(l.(pending := Without(l.pending, k)))
  {
    if k < |l.pending| {
      var w := Without(l.pending, k);
      forall i, j | 0 <= i < j < |w|
        ensures w[i].serial < w[j].serial
      {
        var a, b := if i < k then i else i + 1, if j < k then j else j + 1;
        assert w[i] == l.pending[a] && w[j] == l.pending[b];
      }
    }
  }

  /** Over every run: pending calls in order with their ids, and every call leaves at most once. */
  lemma {:induction false} RunsBalance(events: seq<Event>)
    ensures Orderly(Run(START, events)) && Balanced(Run(START, events))
    decreases |events|
  {
    if events != [] {
      var n := |events| - 1;
      RunsBalance(events[..n]);
      StepKeepsOrder(Run(START, events[..n]), events[n]);
      StepBalances(Run(START, events[..n]), events[n]);
    }
  }

  // ------------------------------------------------------------ which call a reply finds

  /** A reply takes the oldest pending call with its id, and only that one. */
  lemma ReplyTakesOldest(l: Ledger, id: nat, fate: Fate, i: nat)
    requires Orderly(l) && i < |l.pending| && l.pending[i].id == id
    ensures var d := Popped(l, id, fate);
            |d.gone| == |l.gone| + 1 && d.gone[|l.gone|].call.id == id && d.gone[|l.gone|].fate == fate
            && d.gone[|l.gone|].call.serial <= l.pending[i].serial
            && |d.pending| == |l.pending| - 1
  {
  }

  lemma SameIdIff(a: nat, b: nat)
    requires a <= b
    ensures IdOf(a) == IdOf(b) <==> (b - a) % IDS == 0
  {
    assert b + 1 == (a + 1) + (b - a);
    ModShift(a + 1, b - a);
  }

  lemma ModShift(x: nat, d: nat)
    ensures (x + d) % IDS == x % IDS <==> d % IDS == 0
  {
    var q, r := x / IDS, x % IDS;
    var p, t := d / IDS, d % IDS;
    assert x + d == IDS * (q + p) + (r + t);
    assert (x + d) % IDS == (r + t) % IDS;
  }

  /** The reply to a pending call takes that very call exactly when no older pending call was
      issued a multiple of 2^16 calls before it. */
  lemma ReplyTakesItsCallIff(l: Ledger, i: nat, fate: Fate)
    requires Orderly(l) && i < |l.pending|
    ensures var d := Popped(l, l.pending[i].id, fate);
            (d.gone == l.gone + [Gone(l.pending[i], fate)] && d.pending == Without(l.pending, i))
            <==> forall j :: 0 <= j < i ==> (l.pending[i].serial - l.pending[j].serial) % IDS != 0
  {
    var k := Oldest(l.pending, l.pending[i].id);
    var d := Popped(l, l.pending[i].id, fate);
    assert k <= i;
    forall j | 0 <= j < i
      ensures l.pending[j].id == l.pending[i].id <==> (l.pending[i].serial - l.pending[j].serial) % IDS == 0
    {
      SameIdIff(l.pending[j].serial, l.pending[i].serial);
    }
    assert d.gone[|l.gone|] == Gone(l.pending[k], fate);
    assert k < i ==> l.pending[k].serial < l.pending[i].serial;
  }

  /** In particular when no pending call is 2^16 calls old. */
  lemma RecentRepliesMatch(l: Ledger, i: nat, fate: Fate)
    requires Orderly(l) && i < |l.pending|
    requires forall j :: 0 <= j < |l.pending| ==> l.issued - l.pending[j].serial <= IDS
    ensures Popped(l, l.pending[i].id, fate).gone == l.gone + [Gone(l.pending[i], fate)]
  {
    ReplyTakesItsCallIff(l, i, fate);
  }

  // ------------------------------------------------------------ why a call is gone

  /** The event accounts for the call's fate: a result or an error with its own id, or the end. */
  predicate Explains(e: Event, g: Gone) {
    match g.fate
    case Answered => e == Result(g.call.id)
    case Refused => e == Error(g.call.id)
    case Canceled => e == Teardown
  }

  lemma StepExplains(l: Ledger, e: Event, g: Gone)
    requires g in Step(l, e).gone
    ensures g in l.gone || Explains(e, g)
  {
  }

  /** Over every run: nothing is answered, refused or canceled without the event that says so. */
  lemma {:induction false} FatesAreExplained(events: seq<Event>, g: Gone)
    requires g in Run(START, events).gone
    ensures exists i :: 0 <= i < |events| && Explains(events[i], g)
    decreases |events|
  {
    var n := |events| - 1;
    StepExplains(Run(START, events[..n]), events[n], g);
    if g in Run(START, events[..n]).gone {
      FatesAreExplained(events[..n], g);
      var i :| 0 <= i < n && Explains(events[..n][i], g);
      assert events[i] == events[..n][i];
    }
  }
}
