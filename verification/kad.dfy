/** The Kademlia lookup: a queue of nodes to contact and the n closest nodes found so
    far, both ordered by the XOR distance to the target. */
module Kademlia {
  import opened Common

  // ------------------------------------------------------------- XOR distance

  function Xor(a: nat, b: nat): nat
    decreases a + b
  {
    if a == 0 && b == 0 then 0
    else (if a % 2 == b % 2 then 0 else 1) + 2 * Xor(a / 2, b / 2)
  }

  /** XOR undoes itself, so a distance names exactly one node. */
  lemma {:induction false} XorInverts(a: nat, b: nat)
    ensures Xor(Xor(a, b), b) == a
    decreases a + b
  {
    if a != 0 || b != 0 {
      var low := if a % 2 == b % 2 then 0 else 1;
      var x := Xor(a, b);
      assert x % 2 == low && x / 2 == Xor(a / 2, b / 2);
      XorInverts(a / 2, b / 2);
    }
  }

  lemma DistanceIsInjective(a: nat, b: nat, target: nat)
    requires Xor(a, target) == Xor(b, target)
    ensures a == b
  {
    XorInverts(a, target);
    XorInverts(b, target);
  }

  // --------------------------------------------------- first and last of a map

  lemma {:induction false} LeastOf(s: set<nat>) returns (x: nat)
    requires s != {}
    ensures x in s && forall y :: y in s ==> x <= y
  {
    x :| x in s;
    if s != {x} {
      var z := LeastOf(s - {x});
      assert forall y :: y in s ==> y == x || y in s - {x};
      x := if x < z then x else z;
    }
  }

  lemma {:induction false} GreatestOf(s: set<nat>) returns (x: nat)
    requires s != {}
    ensures x in s && forall y :: y in s ==> y <= x
  {
    x :| x in s;
    if s != {x} {
      var z := GreatestOf(s - {x});
      assert forall y :: y in s ==> y == x || y in s - {x};
      x := if x < z then z else x;
    }
  }

  lemma LeastExists(s: set<nat>)
    requires s != {}
    ensures exists x :: x in s && forall y :: y in s ==> x <= y
  {
    var x := LeastOf(s);
  }

  lemma GreatestExists(s: set<nat>)
    requires s != {}
    ensures exists x :: x in s && forall y :: y in s ==> y <= x
  {
    var x := GreatestOf(s);
  }

  function First(s: set<nat>): (x: nat)
    requires s != {}
    ensures x in s && forall y :: y in s ==> x <= y
  {
    LeastExists(s);
    var x :| x in s && forall y :: y in s ==> x <= y;
    x
  }

  function Last(s: set<nat>): (x: nat)
    requires s != {}
    ensures x in s && forall y :: y in s ==> y <= x
  {
    GreatestExists(s);
    var x :| x in s && forall y :: y in s ==> y <= x;
    x
  }

  // ----------------------------------------------------------------- the search

  type Address = nat

  datatype Status = Idle | Searching | Canceled | Done

  datatype Search = Search(
    target: nat,
    n: nat,
    queue: map<nat, Address>,
    results: map<nat, nat>,
    status: Status)

  predicate CanPop(s: Search) {
    s.queue != map[] && s.status == Searching
  }

  function Popped(s: Search): Search
    requires s.queue.Keys != {}
  {
    s.(queue := s.queue - {First(s.queue.Keys)})
  }

  // a node answered and passed the filter
  function Recorded(s: Search, rtn: nat): Search {
    var added := s.results[Xor(s.target, rtn) := rtn];
    var kept := if |added| > s.n then added - {Last(added.Keys)} else added;
    s.(results := kept, status := if rtn == s.target then Done else s.status)
  }

  // the distance a reported node has to beat, once the results are full
  function Limit(s: Search): Option<nat>
    requires s.n >= 1
  {
    if |s.results| < s.n then None
    else
      assert s.results.Keys != {};
      Some(Last(s.results.Keys))
  }

  // is a reported node worth contacting?
  predicate Wanted(results: map<nat, nat>, limit: Option<nat>, d: nat) {
    d !in results && (limit.None? || d < limit.value)
  }

  // the queue when the distances in `left` of a reply are still to be looked at
  function MergedQueue(queue: map<nat, Address>, results: map<nat, nat>, limit: Option<nat>,
                       reply: map<nat, Address>, left: set<nat>): map<nat, Address>
  {
    queue + map d | d in reply && d !in left && Wanted(results, limit, d) :: reply[d]
  }

  function Merged(s: Search, reply: map<nat, Address>): Search
    requires s.n >= 1
  {
    s.(queue := MergedQueue(s.queue, s.results, Limit(s), reply, {}))
  }

  // ------------------------------------------------------------ the n closest

  /** `best` is the set of the n smallest members of `all`, or all of them. */
  predicate Closest(best: set<nat>, all: set<nat>, n: nat) {
    && best <= all
    && |best| <= n
    && (|best| < n ==> best == all)
    && forall b :: b in best ==> Below(b, all - best)
  }

  predicate Below(b: nat, others: set<nat>) {
    forall c :: c in others ==> b < c
  }

  lemma {:induction false} SubsetSize(a: set<nat>, b: set<nat>)
    requires a <= b
    ensures |a| <= |b|
    ensures |a| == |b| ==> a == b
  {
    if a != {} {
      var x :| x in a;
      SubsetSize(a - {x}, b - {x});
      assert b == (b - {x}) + {x} && a == (a - {x}) + {x};
    }
  }

  /** The n closest are a cut of the whole set at their last member. */
  lemma ClosestIsCut(best: set<nat>, all: set<nat>, n: nat)
    requires Closest(best, all, n) && best != {}
    ensures best == set d | d in all && d <= Last(best)
  {
    var w := Last(best);
    forall d | d in all && d <= w
      ensures d in best
    {
      assert d in all - best ==> w < d;
    }
  }

  lemma ClosestSize(best: set<nat>, all: set<nat>, n: nat)
    requires Closest(best, all, n)
    ensures |best| == if |all| < n then |all| else n
  {
    SubsetSize(best, all);
  }

  /** There is only one such set. */
  lemma ClosestIsUnique(best: set<nat>, best': set<nat>, all: set<nat>, n: nat)
    requires Closest(best, all, n) && Closest(best', all, n)
    ensures best == best'
  {
    ClosestSize(best, all, n);
    ClosestSize(best', all, n);
    if best != {} && best' != {} {
      ClosestIsCut(best, all, n);
      ClosestIsCut(best', all, n);
      if Last(best) <= Last(best') {
        SubsetSize(best, best');
      } else {
        SubsetSize(best', best);
      }
    }
  }

  lemma ClosestAfterInsert(best: set<nat>, all: set<nat>, n: nat, d: nat)
    requires Closest(best, all, n)
    ensures
      var added := best + {d};
      var kept := if |added| > n then added - {Last(added)} else added;
      Closest(kept, all + {d}, n)
  {
    var added := best + {d};
    if |added| > n {
      var out := Last(added);
      var kept := added - {out};
      assert |best| == n && |kept| == n;
      forall b, c | b in kept && c in (all + {d}) - kept
        ensures b < c
      {
        if c != out {
          assert c in all - best;
          if b == d {
            if best == {} {
            } else {
              assert out in best;
              assert out < c;
            }
          }
        }
      }
    } else {
      if d in best {
        assert added == best && all + {d} == all;
      } else {
        assert |added| == |best| + 1;
        assert added == all + {d};
      }
    }
  }

  // every result is filed under its distance
  predicate Named(results: map<nat, nat>, target: nat) {
    forall d :: d in results ==> Xor(target, results[d]) == d
  }

  /** The search state against the nodes that answered and passed the filter. */
  predicate BestSoFar(s: Search, found: set<nat>) {
    Closest(s.results.Keys, found, s.n) && Named(s.results, s.target)
  }

  lemma RecordedKeys(s: Search, d: nat, rtn: nat)
    requires d == Xor(s.target, rtn)
    ensures
      var added := s.results.Keys + {d};
      Recorded(s, rtn).results.Keys == if |added| > s.n then added - {Last(added)} else added
  {
    var added := s.results[d := rtn];
    assert added.Keys == s.results.Keys + {d} && |added| == |added.Keys|;
    assert forall x :: (added - {x}).Keys == added.Keys - {x};
  }

  lemma NamedSubmap(results: map<nat, nat>, target: nat, gone: set<nat>)
    requires Named(results, target)
    ensures Named(results - gone, target)
  {
  }

  lemma RecordKeepsBest(s: Search, found: set<nat>, rtn: nat, d: nat)
    requires BestSoFar(s, found) && d == Xor(s.target, rtn)
    ensures BestSoFar(Recorded(s, rtn), found + {d})
  {
    ClosestAfterInsert(s.results.Keys, found, s.n, d);
    RecordedKeys(s, d, rtn);
    var added := s.results[d := rtn];
    assert Named(added, s.target);
    NamedSubmap(added, s.target, {Last(added.Keys)});
  }

  /** Once full, the worst result only gets closer as more nodes are found. */
  lemma WorstNeverGrows(best: set<nat>, all: set<nat>, best': set<nat>, all': set<nat>, n: nat)
    requires Closest(best, all, n) && Closest(best', all', n) && all <= all' && |best| == n >= 1
    ensures |best'| == n && best' != {} && Last(best') <= Last(best)
  {
    SubsetSize(best, all');
    ClosestSize(best', all', n);
    ClosestIsCut(best, all, n);
    ClosestIsCut(best', all', n);
    if Last(best) < Last(best') {
      SubsetSize(best, best');
    }
  }

  /** A found target is a result, and the first one. */
  lemma FoundTargetIsFirst(s: Search, found: set<nat>)
    requires BestSoFar(s, found) && s.n >= 1 && 0 in found
    ensures 0 in s.results && First(s.results.Keys) == 0
  {
    ClosestSize(s.results.Keys, found, s.n);
    assert s.results.Keys != {};
    var b := First(s.results.Keys);
    assert 0 in found - s.results.Keys ==> b < 0;
  }

  // -------------------------------------------- many strands, any interleaving

  /** Where one of the P coroutines stands: between turns, waiting for a connection to the
      node at distance d and for the filter, or waiting for the nodes a found node knows. */
  datatype Strand = Ready | Connecting(d: nat) | Asking | Exited

  /** The search with its strands and what it has learnt, by distance: the nodes that answered
      and passed the filter, those whose last attempt failed, and those it was told of. */
  datatype Lookup = Lookup(search: Search, strands: seq<Strand>, found: set<nat>, failed: set<nat>, reported: set<nat>)

  datatype Move = Pop | Leave | Refused | Answers(rtn: nat) | NoReply | Replies(reply: map<nat, Address>) | Cancel

  function Resumed(l: Lookup, i: nat, at: Strand): Lookup
    requires i < |l.strands|
  {
    l.(strands := l.strands[i := at])
  }

  // strand i makes a move; one that does not fit where it stands changes nothing
  function Moved(l: Lookup, i: nat, move: Move): (r: Lookup)
    requires l.search.n >= 1
    ensures r.search.n == l.search.n && r.search.target == l.search.target && l.found <= r.found
  {
    if i >= |l.strands| then l
    else
      match move
      case Pop =>
        if l.strands[i].Ready? && CanPop(l.search)
        then Resumed(l, i, Connecting(First(l.search.queue.Keys))).(search := Popped(l.search)) else l
      case Leave => if l.strands[i].Ready? && !CanPop(l.search) then Resumed(l, i, Exited) else l
      case Refused =>
        if l.strands[i].Connecting? then Resumed(l, i, Ready).(failed := l.failed + {l.strands[i].d}) else l
      case Answers(rtn) => if l.strands[i].Connecting? then Answered(l, i, rtn) else l
      case NoReply => if l.strands[i].Asking? then Resumed(l, i, Ready) else l
      case Replies(reply) =>
        if l.strands[i].Asking?
        then Resumed(l, i, Ready).(search := Merged(l.search, reply), reported := l.reported + reply.Keys) else l
      case Cancel => l.(search := l.search.(status := Canceled))
  }

  function Answered(l: Lookup, i: nat, rtn: nat): Lookup
    requires i < |l.strands|
  {
    var s, d := Recorded(l.search, rtn), Xor(l.search.target, rtn);
    Resumed(l, i, if s.status == Done then Exited else Asking).(
      search := s, found := l.found + {d}, failed := l.failed - {d})
  }

  function MovedAll(l: Lookup, moves: seq<(nat, Move)>): (r: Lookup)
    requires l.search.n >= 1
    ensures r.search.n == l.search.n && r.search.target == l.search.target && l.found <= r.found
  {
    if moves == [] then l
    else
      var before := MovedAll(l, moves[..|moves| - 1]);
      Moved(before, moves[|moves| - 1].0, moves[|moves| - 1].1)
  }

  function Started(target: nat, n: nat, queue: map<nat, Address>, p: nat): Lookup {
    Lookup(Search(target, n, queue, map[], Searching), seq(p, _ => Ready), {}, {}, queue.Keys)
  }

  lemma MoveKeepsBest(l: Lookup, i: nat, move: Move)
    requires l.search.n >= 1 && BestSoFar(l.search, l.found)
    ensures BestSoFar(Moved(l, i, move).search, Moved(l, i, move).found)
  {
    if move.Answers? {
      RecordKeepsBest(l.search, l.found, move.rtn, Xor(l.search.target, move.rtn));
    }
  }

  /** Under any interleaving the results are exactly the n closest of the nodes that
      answered and passed the filter so far. */
  lemma {:induction false} ResultsAreClosest(l: Lookup, moves: seq<(nat, Move)>)
    requires l.search.n >= 1 && BestSoFar(l.search, l.found)
    ensures BestSoFar(MovedAll(l, moves).search, MovedAll(l, moves).found)
  {
    if moves != [] {
      ResultsAreClosest(l, moves[..|moves| - 1]);
      MoveKeepsBest(MovedAll(l, moves[..|moves| - 1]), moves[|moves| - 1].0, moves[|moves| - 1].1);
    }
  }

  /** From the start of a search and at every later point: the results only improve,
      and a found target stays the first of them. */
  lemma SearchOnlyImproves(target: nat, n: nat, queue: map<nat, Address>, p: nat, moves: seq<(nat, Move)>,
                           later: seq<(nat, Move)>)
    requires n >= 1
    ensures
      var l := MovedAll(Started(target, n, queue, p), moves);
      var m := MovedAll(l, later);
      && BestSoFar(l.search, l.found) && BestSoFar(m.search, m.found)
      && (|l.search.results| == n ==>
            |m.search.results| == n && m.search.results.Keys != {} && l.search.results.Keys != {}
            && Last(m.search.results.Keys) <= Last(l.search.results.Keys))
      && (0 in l.found ==> 0 in m.search.results && First(m.search.results.Keys) == 0 && m.search.results[0] == target)
  {
    var l := MovedAll(Started(target, n, queue, p), moves);
    var m := MovedAll(l, later);
    ResultsAreClosest(Started(target, n, queue, p), moves);
    ResultsAreClosest(l, later);
    if |l.search.results| == n {
      WorstNeverGrows(l.search.results.Keys, l.found, m.search.results.Keys, m.found, n);
    }
    if 0 in l.found {
      FoundTargetIsFirst(m.search, m.found);
      TargetAtZero(target, m.search.results[0]);
    }
  }

  lemma {:induction false} XorZero(a: nat)
    ensures Xor(a, a) == 0
  {
    if a != 0 { XorZero(a / 2); }
  }

  lemma {:induction false} XorCommutes(a: nat, b: nat)
    ensures Xor(a, b) == Xor(b, a)
    decreases a + b
  {
    if a != 0 || b != 0 { XorCommutes(a / 2, b / 2); }
  }

  lemma TargetAtZero(target: nat, id: nat)
    requires Xor(target, id) == 0
    ensures id == target
  {
    XorZero(target);
    XorCommutes(target, id);
    DistanceIsInjective(id, target, target);
  }

  // ------------------------------------------------------- one strand, to the end

  /** How one contact attempt turned out; a node that answered may or may not go on to
      report the nodes it knows. */
  datatype Attempt = Failed | Reached(rtn: nat, reply: Option<map<nat, Address>>)

  /** The node at distance d has been dealt with: it is a result, it is still queued, its
      last attempt failed, or the results are full and it is no closer than the worst. */
  predicate Settled(s: Search, failed: set<nat>, d: nat) {
    d in s.results || d in s.queue || d in failed
    || (|s.results| == s.n && s.results.Keys != {} && Last(s.results.Keys) <= d)
  }

  predicate Progress(s: Search, found: set<nat>, failed: set<nat>, reported: set<nat>, nodes: set<nat>) {
    && s.n >= 1
    && BestSoFar(s, found)
    && s.queue.Keys <= nodes && found <= nodes
    && s.queue.Keys !! found
    && (s.status == Searching ==> 0 !in found)
    && forall d :: d in reported ==> Settled(s, failed, d)
  }

  lemma PopFailedKeeps(s: Search, found: set<nat>, failed: set<nat>, reported: set<nat>, nodes: set<nat>)
    requires Progress(s, found, failed, reported, nodes) && s.queue.Keys != {}
    ensures Progress(Popped(s), found, failed + {First(s.queue.Keys)}, reported, nodes)
  {
    var d := First(s.queue.Keys);
    forall x | x in reported
      ensures Settled(Popped(s), failed + {d}, x)
    {
      assert Settled(s, failed, x);
    }
  }

  lemma PopFoundKeeps(s: Search, found: set<nat>, failed: set<nat>, reported: set<nat>, nodes: set<nat>, rtn: nat)
    requires Progress(s, found, failed, reported, nodes) && s.queue.Keys != {}
    requires Xor(s.target, rtn) == First(s.queue.Keys)
    ensures
      var d := First(s.queue.Keys);
      Progress(Recorded(Popped(s), rtn), found + {d}, failed - {d}, reported, nodes)
  {
    var d := First(s.queue.Keys);
    var s' := Recorded(Popped(s), rtn);
    RecordKeepsBest(Popped(s), found, rtn, d);
    if d == 0 { TargetAtZero(s.target, rtn); }
    forall x | x in reported
      ensures Settled(s', failed - {d}, x)
    {
      assert Settled(s, failed, x);
      FoundIsSettled(s', found + {d}, x);
      if |s.results| == s.n {
        WorstNeverGrows(s.results.Keys, found, s'.results.Keys, found + {d}, s.n);
      }
      assert x in s.results ==> x in found + {d};
      assert x == d ==> x in found + {d};
    }
  }

  lemma FoundIsSettled(s: Search, found: set<nat>, x: nat)
    requires BestSoFar(s, found) && s.n >= 1
    ensures x in found ==> x in s.results || (|s.results| == s.n && s.results.Keys != {} && Last(s.results.Keys) <= x)
  {
    if x in found && x !in s.results {
      assert x in found - s.results.Keys;
    }
  }

  lemma WantedIsNew(s: Search, found: set<nat>, d: nat)
    requires BestSoFar(s, found) && s.n >= 1 && Wanted(s.results, Limit(s), d)
    ensures d !in found
  {
    FoundIsSettled(s, found, d);
  }

  lemma MergeKeeps(s: Search, found: set<nat>, failed: set<nat>, reported: set<nat>, nodes: set<nat>,
                   reply: map<nat, Address>)
    requires Progress(s, found, failed, reported, nodes) && reply.Keys <= nodes
    ensures Progress(Merged(s, reply), found, failed, reported + reply.Keys, nodes)
  {
    var s', limit := Merged(s, reply), Limit(s);
    forall d | d in s'.queue.Keys
      ensures d !in found && d in nodes
    {
      if Wanted(s.results, limit, d) { WantedIsNew(s, found, d); }
    }
    forall d | d in reported + reply.Keys
      ensures Settled(s', failed, d)
    {
      if d in reported { assert Settled(s, failed, d); }
    }
  }

  // one whole turn of the loop
  function AfterTurn(s: Search, a: Attempt): Search
    requires s.queue.Keys != {} && s.n >= 1
  {
    if a.Failed? then Popped(s)
    else
      var r := Recorded(Popped(s), a.rtn);
      if r.status == Done || a.reply.None? then r else Merged(r, a.reply.value)
  }

  /** What a search has learnt so far, by distance: the nodes that answered and passed
      the filter, those whose last attempt failed, and those it was told of. */
  datatype Ledger = Ledger(found: set<nat>, failed: set<nat>, reported: set<nat>)

  function Noted(s: Search, l: Ledger, a: Attempt): Ledger
    requires s.queue.Keys != {}
  {
    var d := First(s.queue.Keys);
    if a.Failed? then l.(failed := l.failed + {d})
    else
      var r := Ledger(l.found + {d}, l.failed - {d}, l.reported);
      if Recorded(Popped(s), a.rtn).status == Done || a.reply.None? then r
      else r.(reported := r.reported + a.reply.value.Keys)
  }

  predicate OnTrack(s: Search, l: Ledger, nodes: set<nat>) {
    Progress(s, l.found, l.failed, l.reported, nodes)
  }

  predicate Honest(a: Attempt, id: nat, nodes: set<nat>) {
    a.Reached? ==> a.rtn == id && (a.reply.Some? ==> a.reply.value.Keys <= nodes)
  }

  // fewer nodes left to find, or as many and a shorter queue
  predicate Advanced(s: Search, l: Ledger, s': Search, l': Ledger, nodes: set<nat>) {
    |nodes - l'.found| < |nodes - l.found| || (l'.found == l.found && |s'.queue| < |s.queue|)
  }

  lemma FailedTurnKeeps(s: Search, l: Ledger, nodes: set<nat>)
    requires OnTrack(s, l, nodes) && s.queue.Keys != {}
    ensures
      var s', l' := AfterTurn(s, Failed), Noted(s, l, Failed);
      OnTrack(s', l', nodes) && Advanced(s, l, s', l', nodes)
  {
    PopFailedKeeps(s, l.found, l.failed, l.reported, nodes);
    var d := First(s.queue.Keys);
    assert s.queue.Keys == (s.queue - {d}).Keys + {d};
  }

  lemma ReachedTurnKeeps(s: Search, l: Ledger, nodes: set<nat>, a: Attempt)
    requires OnTrack(s, l, nodes) && s.queue.Keys != {}
    requires a.Reached? && Honest(a, Xor(First(s.queue.Keys), s.target), nodes)
    ensures OnTrack(AfterTurn(s, a), Noted(s, l, a), nodes)
  {
    var d := First(s.queue.Keys);
    DistanceOf(d, s.target);
    PopFoundKeeps(s, l.found, l.failed, l.reported, nodes, a.rtn);
    var r := Recorded(Popped(s), a.rtn);
    if r.status != Done && a.reply.Some? {
      MergeKeeps(r, l.found + {d}, l.failed - {d}, l.reported, nodes, a.reply.value);
    }
  }

  /** A turn keeps the invariant and makes progress: a node found for the first time, or
      one node fewer in the queue. */
  lemma TurnKeeps(s: Search, l: Ledger, nodes: set<nat>, a: Attempt)
    requires OnTrack(s, l, nodes) && s.queue.Keys != {} && Honest(a, Xor(First(s.queue.Keys), s.target), nodes)
    ensures
      var s', l' := AfterTurn(s, a), Noted(s, l, a);
      OnTrack(s', l', nodes) && Advanced(s, l, s', l', nodes)
  {
    if a.Failed? {
      FailedTurnKeeps(s, l, nodes);
    } else {
      ReachedTurnKeeps(s, l, nodes, a);
      SmallerRest(nodes, l.found, First(s.queue.Keys));
    }
  }

  ghost predicate CanRun(s: Search, l: Ledger, attempt: (nat, nat) -> Attempt, nodes: set<nat>) {
    OnTrack(s, l, nodes) && forall t: nat, id: nat :: Honest(attempt(t, id), id, nodes)
  }

  function NextAttempt(s: Search, attempt: (nat, nat) -> Attempt, turn: nat): Attempt
    requires s.queue.Keys != {}
  {
    attempt(turn, Xor(First(s.queue.Keys), s.target))
  }

  /** A search by a single strand, run to its end: `attempt` says how the contact made at
      each turn with each node works out.  That this function is defined is the proof that
      every such search ends, whatever fails and whatever is reported. */
  ghost function Searched(s: Search, l: Ledger, attempt: (nat, nat) -> Attempt, turn: nat, nodes: set<nat>)
    : (Search, Ledger)
    requires CanRun(s, l, attempt, nodes)
    decreases |nodes - l.found|, |s.queue|
  {
    if s.queue.Keys == {} || s.status != Searching then (s, l)
    else
      var a := NextAttempt(s, attempt, turn);
      TurnKeeps(s, l, nodes, a);
      Searched(AfterTurn(s, a), Noted(s, l, a), attempt, turn + 1, nodes)
  }

  lemma SearchedTurn(s: Search, l: Ledger, attempt: (nat, nat) -> Attempt, turn: nat, nodes: set<nat>, a: Attempt)
    requires CanRun(s, l, attempt, nodes) && s.queue.Keys != {} && s.status == Searching
    requires a == NextAttempt(s, attempt, turn)
    ensures
      var s1, l1 := AfterTurn(s, a), Noted(s, l, a);
      && CanRun(s1, l1, attempt, nodes) && Advanced(s, l, s1, l1, nodes)
      && Searched(s, l, attempt, turn, nodes) == Searched(s1, l1, attempt, turn + 1, nodes)
  {
    TurnKeeps(s, l, nodes, a);
  }

  lemma TurnLearns(s: Search, l: Ledger, a: Attempt)
    requires s.queue.Keys != {} && s.n >= 1
    ensures l.reported <= Noted(s, l, a).reported && l.found <= Noted(s, l, a).found
    ensures AfterTurn(s, a).target == s.target && AfterTurn(s, a).n == s.n
  {
  }

  predicate Outcome(s: Search, l: Ledger, s': Search, l': Ledger, nodes: set<nat>) {
    && OnTrack(s', l', nodes)
    && l.reported <= l'.reported && l.found <= l'.found
    && s'.target == s.target && s'.n == s.n
    && (s'.queue.Keys == {} || s'.status == Done)
    && (s'.status == Done <==> 0 in l'.found)
  }

  lemma OutcomeChains(s: Search, l: Ledger, s1: Search, l1: Ledger, s': Search, l': Ledger, nodes: set<nat>)
    requires Outcome(s1, l1, s', l', nodes)
    requires l.reported <= l1.reported && l.found <= l1.found && s1.target == s.target && s1.n == s.n
    ensures Outcome(s, l, s', l', nodes)
  {
  }

  /** When the search ends with an empty queue, every node that any contacted node ever
      reported is a result, or failed its last attempt, or lies no closer than the worst of
      a full set of results; and it ends early only with the target as its first result. */
  lemma {:induction false} SearchSettlesEverything(s: Search, l: Ledger, attempt: (nat, nat) -> Attempt, turn: nat,
                                                   nodes: set<nat>)
    requires CanRun(s, l, attempt, nodes) && s.status == Searching
    ensures
      var (s', l') := Searched(s, l, attempt, turn, nodes);
      Outcome(s, l, s', l', nodes)
    decreases |nodes - l.found|, |s.queue|
  {
    if s.queue.Keys != {} {
      var a := NextAttempt(s, attempt, turn);
      var s1, l1 := AfterTurn(s, a), Noted(s, l, a);
      TurnKeeps(s, l, nodes, a);
      DoneMeansFound(s, l, a, nodes);
      TurnLearns(s, l, a);
      var (s', l') := Searched(s1, l1, attempt, turn + 1, nodes);
      if s1.status == Searching {
        SearchSettlesEverything(s1, l1, attempt, turn + 1, nodes);
        OutcomeChains(s, l, s1, l1, s', l', nodes);
      }
    }
  }

  lemma DoneMeansFound(s: Search, l: Ledger, a: Attempt, nodes: set<nat>)
    requires s.queue.Keys != {} && s.n >= 1 && s.status == Searching
    requires Honest(a, Xor(First(s.queue.Keys), s.target), nodes)
    ensures
      var s' := AfterTurn(s, a);
      s'.status == Searching || (s'.status == Done && 0 in Noted(s, l, a).found)
  {
    if a.Reached? { TargetIsZero(s.target, First(s.queue.Keys), a.rtn); }
  }

  lemma TargetTurn(s: Search, l: Ledger, a: Attempt)
    requires s.queue.Keys != {} && s.n >= 1 && a.Reached? && a.rtn == s.target
    ensures
      var s', l' := AfterTurn(s, a), Noted(s, l, a);
      && s' == Recorded(Popped(s), s.target) && s'.status == Done && s'.queue == Popped(s).queue
      && l'.reported == l.reported && First(s.queue.Keys) in l'.found
  {
  }

  lemma SearchedStops(s: Search, l: Ledger, attempt: (nat, nat) -> Attempt, turn: nat, nodes: set<nat>)
    requires CanRun(s, l, attempt, nodes) && s.status == Done
    ensures Searched(s, l, attempt, turn, nodes) == (s, l)
  {
  }

  /** The answer of the target ends the search there and then: no reply is merged, no node
      popped, and the target is the first result. */
  lemma TargetEndsSearch(s: Search, l: Ledger, attempt: (nat, nat) -> Attempt, turn: nat, nodes: set<nat>)
    requires CanRun(s, l, attempt, nodes) && s.status == Searching && s.queue.Keys != {}
    requires var a := NextAttempt(s, attempt, turn); a.Reached? && a.rtn == s.target
    ensures
      var (s', l') := Searched(s, l, attempt, turn, nodes);
      && s'.status == Done && s'.queue == Popped(s).queue && l'.reported == l.reported
      && 0 in s'.results && First(s'.results.Keys) == 0
  {
    var a := NextAttempt(s, attempt, turn);
    var s1, l1 := AfterTurn(s, a), Noted(s, l, a);
    SearchedTurn(s, l, attempt, turn, nodes, a);
    TargetTurn(s, l, a);
    SearchedStops(s1, l1, attempt, turn + 1, nodes);
    HonestTarget(s, a, nodes);
    FoundTargetIsFirst(s1, l1.found);
  }

  lemma HonestTarget(s: Search, a: Attempt, nodes: set<nat>)
    requires s.queue.Keys != {} && Honest(a, Xor(First(s.queue.Keys), s.target), nodes)
    requires a.Reached? && a.rtn == s.target
    ensures First(s.queue.Keys) == 0
  {
    TargetIsZero(s.target, First(s.queue.Keys), a.rtn);
  }

  /** A turn contacts the closest node in the queue and takes it out, and no other. */
  lemma PopTakesClosest(s: Search, d: nat)
    requires CanPop(s)
    ensures
      var gone := s.queue.Keys - Popped(s).queue.Keys;
      && |gone| == 1 && Popped(s).queue.Keys <= s.queue.Keys
      && (d in gone ==> forall e :: e in s.queue ==> d <= e)
      && (d in gone ==> First(s.queue.Keys) == d)
  {
    var f := First(s.queue.Keys);
    assert s.queue.Keys - Popped(s).queue.Keys == {f};
  }

  /** If an endpoint may answer with another node's id, the search can run for ever: the
      turn below, with such an answer, leads back to the state it started from. */
  lemma WrongIdsCanLoop()
    ensures
      var s := Search(0, 2, map[1 := 7], map[2 := 2], Searching);
      CanPop(s) && Merged(Recorded(Popped(s), 2), map[1 := 7]) == s
  {
    var s := Search(0, 2, map[1 := 7], map[2 := 2], Searching);
    assert 1 in s.queue;
    assert First(s.queue.Keys) == 1;
    assert s.queue - {1} == map[];
    assert Xor(0, 2) == 2;
    var t := Recorded(Popped(s), 2);
    assert t.results == map[2 := 2];
    var m := Merged(t, map[1 := 7]);
    assert m.queue == map[1 := 7];
  }

  class KadSearch {
    const target: nat
    const n: nat
    var queue: map<nat, Address>
    var results: map<nat, nat>
    var status: Status
    ghost var ledger: Ledger

    ghost function State(): Search
      reads this
    {
      Search(target, n, queue, results, status)
    }

    constructor (target: nat, n: nat)
      ensures State() == Search(target, n, map[], map[], Idle)
    {
      this.target, this.n := target, n;
      queue, results, status := map[], map[], Idle;
      ledger := Ledger({}, {}, {});
    }

    method Start(near: map<nat, Address>)
      modifies this
      ensures State() == Search(target, n, near, map[], Searching)
      ensures ledger == Ledger({}, {}, near.Keys)
      ensures n >= 1 ==> OnTrack(State(), ledger, near.Keys)
    {
      results := map[];
      status := Searching;
      queue := near;
      ledger := Ledger({}, {}, near.Keys);
    }

    // the walk over a reply, nearest node first
    method MergeReply(reply: map<nat, Address>)
      requires n >= 1
      modifies this`queue
      ensures State() == Merged(old(State()), reply)
    {
      ghost var limit := Limit(State());
      var keys := reply.Keys;
      AllLeft(queue, results, limit, reply);
      while keys != {}
        invariant keys <= reply.Keys
        invariant queue == MergedQueue(old(queue), results, limit, reply, keys)
        decreases |keys|
      {
        var d := First(keys);
        MergeTurn(old(queue), results, limit, reply, keys, d);
        if d !in results {
          if |results| < n {
            queue := queue[d := reply[d]];
          } else {
            assert results.Keys != {};
            if Last(results.Keys) > d {
              queue := queue[d := reply[d]];
            }
          }
        }
        keys := keys - {d};
      }
    }

    method RecordNode(rtn: nat)
      modifies this`results, this`status
      ensures State() == Recorded(old(State()), rtn)
      ensures status == if rtn == target then Done else old(status)
    {
      results := results[Xor(target, rtn) := rtn];
      if |results| > n {
        results := results - {Last(results.Keys)};
      }
      if rtn == target {
        status := Done;
      }
    }

    // one turn: take the nearest queued node and deal with the outcome
    method TakeTurn(a: Attempt)
      requires n >= 1 && CanPop(State()) && queue.Keys != {}
      modifies this`queue, this`results, this`status
      ensures State() == AfterTurn(old(State()), a)
    {
      queue := queue - {First(queue.Keys)};
      if a.Failed? {
        return;
      }
      RecordNode(a.rtn);
      if status == Done {
        return;
      }
      if a.reply.Some? {
        MergeReply(a.reply.value);
      }
    }

    method RunTurn(attempt: (nat, nat) -> Attempt, turn: nat, ghost nodes: set<nat>)
      requires CanRun(State(), ledger, attempt, nodes) && queue.Keys != {} && status == Searching
      modifies this
      ensures CanRun(State(), ledger, attempt, nodes) && Advanced(old(State()), old(ledger), State(), ledger, nodes)
      ensures Searched(State(), ledger, attempt, turn + 1, nodes) ==
              Searched(old(State()), old(ledger), attempt, turn, nodes)
    {
      var a := attempt(turn, Xor(First(queue.Keys), target));
      ghost var s1, l1 := AfterTurn(State(), a), Noted(State(), ledger, a);
      SearchedTurn(State(), ledger, attempt, turn, nodes, a);
      TakeTurn(a);
      assert State() == s1;
      ledger := l1;
    }

    /** search_thread run by a single strand, with any pattern of failures and replies,
        over nodes that answer with the id under which they are queued. */
    method SearchThread(attempt: (nat, nat) -> Attempt, ghost nodes: set<nat>)
      requires CanRun(State(), ledger, attempt, nodes)
      modifies this
      ensures (State(), ledger) == Searched(old(State()), old(ledger), attempt, 0, nodes)
    {
      var turn := 0;
      while |queue.Keys| > 0 && status == Searching
        invariant turn >= 0 && CanRun(State(), ledger, attempt, nodes)
        invariant Searched(State(), ledger, attempt, turn, nodes) ==
                Searched(old(State()), old(ledger), attempt, 0, nodes)
        decreases |nodes - ledger.found|, |queue|
      {
        RunTurn(attempt, turn, nodes);
        turn := turn + 1;
      }
    }
  }

  lemma AllLeft(queue: map<nat, Address>, results: map<nat, nat>, limit: Option<nat>, reply: map<nat, Address>)
    ensures MergedQueue(queue, results, limit, reply, reply.Keys) == queue
  {
  }

  lemma MergeTurn(queue: map<nat, Address>, results: map<nat, nat>, limit: Option<nat>, reply: map<nat, Address>,
                  left: set<nat>, d: nat)
    requires d in left && left <= reply.Keys
    ensures
      var q := MergedQueue(queue, results, limit, reply, left);
      MergedQueue(queue, results, limit, reply, left - {d}) == if Wanted(results, limit, d) then q[d := reply[d]] else q
  {
  }

  lemma DistanceOf(d: nat, target: nat)
    ensures Xor(target, Xor(d, target)) == d
  {
    XorInverts(d, target);
    XorCommutes(target, Xor(d, target));
  }

  lemma SmallerRest(nodes: set<nat>, found: set<nat>, d: nat)
    requires d in nodes && d !in found
    ensures |nodes - (found + {d})| < |nodes - found|
  {
    assert nodes - found == (nodes - (found + {d})) + {d};
  }

  lemma TargetIsZero(target: nat, d: nat, nid: nat)
    requires nid == Xor(d, target)
    ensures nid == target ==> d == 0
  {
    XorZero(target);
    XorInverts(d, target);
  }
}
