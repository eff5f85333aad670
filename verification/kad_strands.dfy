/** A search by P strands, to its end: the moves are bounded whatever fails and whatever is
    reported, and when all strands have left every node the search was told of is settled. */
module KademliaStrands {
  import opened Common
  import opened Kademlia

  /** An endpoint answers with the id it was queued under, and only nodes of the network are
      reported. */
  predicate Honest(l: Lookup, i: nat, move: Move, nodes: set<nat>) {
    i < |l.strands| ==>
      match move
      case Answers(rtn) => l.strands[i].Connecting? ==> Xor(l.search.target, rtn) == l.strands[i].d
      case Replies(reply) => l.strands[i].Asking? ==> reply.Keys <= nodes
      case _ => true
  }

  predicate HonestRun(l: Lookup, moves: seq<(nat, Move)>, nodes: set<nat>)
    requires l.search.n >= 1
  {
    if moves == [] then true else
      var k := |moves| - 1;
      HonestRun(l, moves[..k], nodes) && Honest(MovedAll(l, moves[..k]), moves[k].0, moves[k].1, nodes)
  }

  // ------------------------------------------------------------ what every move keeps

  predicate Contacting(strands: seq<Strand>, d: nat) {
    exists i :: 0 <= i < |strands| && strands[i] == Connecting(d)
  }

  /** Settled, or about to be: a strand is connecting to it. */
  predicate InHand(l: Lookup, d: nat) {
    Settled(l.search, l.failed, d) || Contacting(l.strands, d)
  }

  predicate AllIn(strands: seq<Strand>, nodes: set<nat>) {
    forall i :: 0 <= i < |strands| && strands[i].Connecting? ==> strands[i].d in nodes
  }

  predicate AllExited(strands: seq<Strand>) {
    forall i :: 0 <= i < |strands| ==> strands[i].Exited?
  }

  predicate Lawful(l: Lookup, nodes: set<nat>) {
    && l.search.n >= 1 && BestSoFar(l.search, l.found)
    && l.search.queue.Keys <= nodes && l.found <= nodes && AllIn(l.strands, nodes)
    && (forall d :: d in l.reported ==> InHand(l, d))
    && (CanPop(l.search) ==> !AllExited(l.strands))
    && (l.search.status == Done ==> 0 in l.found) && (0 in l.found ==> l.search.status != Searching)
    && l.search.status != Idle
  }

  lemma PopKeeps(l: Lookup, i: nat, nodes: set<nat>)
    requires Lawful(l, nodes) && i < |l.strands| && l.strands[i].Ready? && CanPop(l.search)
    ensures Lawful(Moved(l, i, Pop), nodes)
  {
    var l', d := Moved(l, i, Pop), First(l.search.queue.Keys);
    assert l'.strands[i] == Connecting(d);
    forall x | x in l.reported
      ensures InHand(l', x)
    {
      ContactsKept(l, i, Connecting(d), x);
    }
  }

  // a strand that was not connecting may move without losing a contact
  lemma ContactsKept(l: Lookup, i: nat, at: Strand, x: nat)
    requires i < |l.strands| && InHand(l, x)
    ensures l.strands[i] != Connecting(x) && Contacting(l.strands, x) ==> Contacting(l.strands[i := at], x)
  {
    if l.strands[i] != Connecting(x) && Contacting(l.strands, x) {
      var j :| 0 <= j < |l.strands| && l.strands[j] == Connecting(x);
      assert l.strands[i := at][j] == Connecting(x);
    }
  }

  lemma LeaveKeeps(l: Lookup, i: nat, nodes: set<nat>)
    requires Lawful(l, nodes) && i < |l.strands| && l.strands[i].Ready? && !CanPop(l.search)
    ensures Lawful(Moved(l, i, Leave), nodes)
  {
    forall x | x in l.reported
      ensures InHand(Moved(l, i, Leave), x)
    {
      ContactsKept(l, i, Exited, x);
    }
  }

  lemma RefusedKeeps(l: Lookup, i: nat, nodes: set<nat>)
    requires Lawful(l, nodes) && i < |l.strands| && l.strands[i].Connecting?
    ensures Lawful(Moved(l, i, Refused), nodes)
  {
    var l' := Moved(l, i, Refused);
    assert l'.strands[i] == Ready;
    forall x | x in l.reported
      ensures InHand(l', x)
    {
      ContactsKept(l, i, Ready, x);
    }
  }

  // recording a node keeps the settled ones settled
  lemma RecordSettles(l: Lookup, i: nat, rtn: nat, x: nat)
    requires l.search.n >= 1 && BestSoFar(l.search, l.found) && i < |l.strands|
    requires l.strands[i] == Connecting(Xor(l.search.target, rtn)) && InHand(l, x)
    ensures InHand(Answered(l, i, rtn), x)
  {
    var d, s, l' := Xor(l.search.target, rtn), l.search, Answered(l, i, rtn);
    RecordKeepsBest(s, l.found, rtn, d);
    FoundIsSettled(l'.search, l'.found, x);
    ContactsKept(l, i, l'.strands[i], x);
    if |s.results| == s.n {
      WorstNeverGrows(s.results.Keys, l.found, l'.search.results.Keys, l'.found, s.n);
    }
    assert x in s.results ==> x in l'.found;
  }

  lemma AnswersKeeps(l: Lookup, i: nat, rtn: nat, nodes: set<nat>)
    requires Lawful(l, nodes) && i < |l.strands| && l.strands[i] == Connecting(Xor(l.search.target, rtn))
    ensures Lawful(Moved(l, i, Answers(rtn)), nodes)
  {
    var l', d := Answered(l, i, rtn), Xor(l.search.target, rtn);
    RecordKeepsBest(l.search, l.found, rtn, d);
    forall x | x in l.reported
      ensures InHand(l', x)
    {
      RecordSettles(l, i, rtn, x);
    }
    if rtn == l.search.target {
      XorZero(rtn);
    }
    if d == 0 {
      TargetAtZero(l.search.target, rtn);
    }
    assert !l'.strands[i].Exited? || l'.search.status == Done;
  }

  lemma NoReplyKeeps(l: Lookup, i: nat, nodes: set<nat>)
    requires Lawful(l, nodes) && i < |l.strands| && l.strands[i].Asking?
    ensures Lawful(Moved(l, i, NoReply), nodes)
  {
    assert Moved(l, i, NoReply).strands[i] == Ready;
    forall x | x in l.reported
      ensures InHand(Moved(l, i, NoReply), x)
    {
      ContactsKept(l, i, Ready, x);
    }
  }

  lemma MergeSettles(s: Search, failed: set<nat>, reply: map<nat, Address>, x: nat)
    requires s.n >= 1 && |s.results| <= s.n
    ensures x in reply || Settled(s, failed, x) ==> Settled(Merged(s, reply), failed, x)
    ensures Merged(s, reply).queue.Keys <= s.queue.Keys + reply.Keys
  {
  }

  lemma RepliesKeeps(l: Lookup, i: nat, reply: map<nat, Address>, nodes: set<nat>)
    requires Lawful(l, nodes) && i < |l.strands| && l.strands[i].Asking? && reply.Keys <= nodes
    ensures Lawful(Moved(l, i, Replies(reply)), nodes)
  {
    var l' := Moved(l, i, Replies(reply));
    assert l'.strands[i] == Ready;
    assert |l.search.results| == |l.search.results.Keys|;
    MergeSettles(l.search, l.failed, reply, 0);
    forall x | x in l'.reported
      ensures InHand(l', x)
    {
      MergeSettles(l.search, l.failed, reply, x);
      if x in l.reported {
        ContactsKept(l, i, Ready, x);
      }
    }
  }

  lemma MoveKeeps(l: Lookup, i: nat, move: Move, nodes: set<nat>)
    requires Lawful(l, nodes) && Honest(l, i, move, nodes)
    ensures Lawful(Moved(l, i, move), nodes)
  {
    if i < |l.strands| && Moved(l, i, move) != l {
      match move
      case Pop => PopKeeps(l, i, nodes);
      case Leave => LeaveKeeps(l, i, nodes);
      case Refused => RefusedKeeps(l, i, nodes);
      case Answers(rtn) => AnswersKeeps(l, i, rtn, nodes);
      case NoReply => NoReplyKeeps(l, i, nodes);
      case Replies(reply) => RepliesKeeps(l, i, reply, nodes);
      case Cancel =>
    }
  }

  lemma {:induction false} RunKeeps(l: Lookup, moves: seq<(nat, Move)>, nodes: set<nat>)
    requires Lawful(l, nodes) && HonestRun(l, moves, nodes)
    ensures Lawful(MovedAll(l, moves), nodes)
  {
    if moves != [] {
      var k := |moves| - 1;
      RunKeeps(l, moves[..k], nodes);
      MoveKeeps(MovedAll(l, moves[..k]), moves[k].0, moves[k].1, nodes);
    }
  }

  lemma StartIsLawful(target: nat, n: nat, queue: map<nat, Address>, p: nat, nodes: set<nat>)
    requires n >= 1 && p >= 1 && queue.Keys <= nodes
    ensures Lawful(Started(target, n, queue, p), nodes)
  {
    var l := Started(target, n, queue, p);
    assert l.strands[0] == Ready;
  }

  // ------------------------------------------------------------ why it ends

  // a reply may still come of this strand though nothing new is found
  function Owed(s: Strand, found: set<nat>): nat {
    if s.Asking? || (s.Connecting? && s.d in found) then 1 else 0
  }

  function AllOwed(strands: seq<Strand>, found: set<nat>): nat {
    if strands == [] then 0 else Owed(strands[0], found) + AllOwed(strands[1..], found)
  }

  // how far a strand is from having left, within a turn
  function Rank(s: Strand): nat {
    match s case Connecting(_) => 3 case Asking => 2 case Ready => 1 case Exited => 0
  }

  function Ranks(strands: seq<Strand>): nat {
    if strands == [] then 0 else Rank(strands[0]) + Ranks(strands[1..])
  }

  lemma {:induction false} StrandMoves(strands: seq<Strand>, i: nat, at: Strand, found: set<nat>)
    requires i < |strands|
    ensures Ranks(strands[i := at]) == Ranks(strands) - Rank(strands[i]) + Rank(at)
    ensures AllOwed(strands[i := at], found) == AllOwed(strands, found) - Owed(strands[i], found) + Owed(at, found)
    decreases |strands|
  {
    var moved := strands[i := at];
    if i == 0 {
      assert moved[1..] == strands[1..];
    } else {
      StrandMoves(strands[1..], i - 1, at, found);
      assert moved[1..] == strands[1..][i - 1 := at] && moved[0] == strands[0];
    }
  }

  lemma {:induction false} StrandBounds(strands: seq<Strand>, found: set<nat>)
    ensures AllOwed(strands, found) <= |strands| && Ranks(strands) <= 3 * |strands|
  {
    if strands != [] {
      StrandBounds(strands[1..], found);
    }
  }

  /** The measure: nodes still to be found; replies that can come without finding one; the
      queue and the strands. */
  function ToFind(l: Lookup, nodes: set<nat>): nat {
    |nodes - l.found|
  }

  function ToHear(l: Lookup): nat {
    AllOwed(l.strands, l.found) + |l.search.queue.Keys * l.found|
  }

  function ToDo(l: Lookup): nat {
    4 * |l.search.queue.Keys| + Ranks(l.strands)
  }

  predicate Nearer(l: Lookup, l': Lookup, nodes: set<nat>) {
    || ToFind(l', nodes) < ToFind(l, nodes)
    || (ToFind(l', nodes) == ToFind(l, nodes) && ToHear(l') < ToHear(l))
    || (ToFind(l', nodes) == ToFind(l, nodes) && ToHear(l') == ToHear(l) && ToDo(l') < ToDo(l))
  }

  lemma PopNearer(l: Lookup, i: nat, nodes: set<nat>)
    requires i < |l.strands| && l.strands[i].Ready? && CanPop(l.search) && l.search.n >= 1
    ensures Nearer(l, Moved(l, i, Pop), nodes)
  {
    var d, queue := First(l.search.queue.Keys), l.search.queue.Keys;
    StrandMoves(l.strands, i, Connecting(d), l.found);
    assert (l.search.queue - {d}).Keys == queue - {d};
    assert (queue - {d}) * l.found == queue * l.found - {d};
  }

  lemma StepNearer(l: Lookup, i: nat, move: Move, nodes: set<nat>)
    requires i < |l.strands| && (move.Leave? || move.Refused? || move.NoReply?) && l.search.n >= 1
    ensures Moved(l, i, move) != l ==> Nearer(l, Moved(l, i, move), nodes)
  {
    StrandMoves(l.strands, i, Exited, l.found);
    StrandMoves(l.strands, i, Ready, l.found);
  }

  lemma KnownAnswerNearer(l: Lookup, l': Lookup, i: nat, at: Strand, nodes: set<nat>)
    requires i < |l.strands| && l.strands[i].Connecting? && l.strands[i].d in l.found && (at == Asking || at == Exited)
    requires l'.found == l.found && l'.search.queue == l.search.queue && l'.strands == l.strands[i := at]
    ensures Nearer(l, l', nodes)
  {
    StrandMoves(l.strands, i, at, l.found);
  }

  lemma NewAnswerNearer(l: Lookup, l': Lookup, d: nat, nodes: set<nat>)
    requires d in nodes && d !in l.found && l'.found == l.found + {d}
    ensures Nearer(l, l', nodes)
  {
    SmallerRest(nodes, l.found, d);
  }

  lemma AnswersNearer(l: Lookup, i: nat, rtn: nat, nodes: set<nat>)
    requires l.search.n >= 1 && i < |l.strands| && l.strands[i] == Connecting(Xor(l.search.target, rtn))
    requires l.strands[i].d in nodes
    ensures Nearer(l, Moved(l, i, Answers(rtn)), nodes)
  {
    var d, l' := l.strands[i].d, Moved(l, i, Answers(rtn));
    if d in l.found {
      assert l.found + {d} == l.found;
      KnownAnswerNearer(l, l', i, l'.strands[i], nodes);
    } else {
      NewAnswerNearer(l, l', d, nodes);
    }
  }

  // what a reply adds to the queue has not been found
  lemma RepliesAreNew(s: Search, found: set<nat>, reply: map<nat, Address>)
    requires s.n >= 1 && BestSoFar(s, found)
    ensures Merged(s, reply).queue.Keys * found == s.queue.Keys * found
  {
    forall d | d in Merged(s, reply).queue.Keys && d in found
      ensures d in s.queue.Keys
    {
      if Wanted(s.results, Limit(s), d) {
        WantedIsNew(s, found, d);
      }
    }
  }

  lemma RestNearer(l: Lookup, l': Lookup, i: nat, nodes: set<nat>)
    requires i < |l.strands| && l.strands[i].Asking? && l'.strands == l.strands[i := Ready] && l'.found == l.found
    requires l'.search.queue.Keys * l.found == l.search.queue.Keys * l.found
    ensures Nearer(l, l', nodes)
  {
    StrandMoves(l.strands, i, Ready, l.found);
  }

  lemma RepliesNearer(l: Lookup, i: nat, reply: map<nat, Address>, nodes: set<nat>)
    requires l.search.n >= 1 && BestSoFar(l.search, l.found) && i < |l.strands| && l.strands[i].Asking?
    ensures Nearer(l, Moved(l, i, Replies(reply)), nodes)
  {
    RepliesAreNew(l.search, l.found, reply);
    RestNearer(l, Moved(l, i, Replies(reply)), i, nodes);
  }

  /** Every move that changes anything, but for a cancellation, brings the end nearer. */
  lemma MoveNearer(l: Lookup, i: nat, move: Move, nodes: set<nat>)
    requires Lawful(l, nodes) && Honest(l, i, move, nodes) && !move.Cancel? && Moved(l, i, move) != l
    ensures Nearer(l, Moved(l, i, move), nodes)
  {
    match move
    case Pop => PopNearer(l, i, nodes);
    case Answers(rtn) => AnswersNearer(l, i, rtn, nodes);
    case Replies(reply) => RepliesNearer(l, i, reply, nodes);
    case _ => StepNearer(l, i, move, nodes);
  }

  // ------------------------------------------------------------ how many moves there are

  // most replies to hear, and most to do, with n nodes and p strands
  function MostToHear(n: nat, p: nat): nat {
    n + p
  }

  function MostToDo(n: nat, p: nat): nat {
    4 * n + 3 * p
  }

  function Packed(find: nat, hear: nat, todo: nat, mostHear: nat, mostDo: nat): nat {
    (find * (mostHear + 1) + hear) * (mostDo + 1) + todo
  }

  lemma Times(a: nat, b: nat, w: nat)
    requires a <= b
    ensures a * w <= b * w
  {
  }

  // a smaller leading digit outweighs what follows it
  lemma Carry(a: nat, b: nat, x: nat, y: nat, most: nat)
    requires x <= most && (a < b || (a == b && x < y))
    ensures a * (most + 1) + x < b * (most + 1) + y
  {
    if a < b {
      Times(a + 1, b, most + 1);
      assert (a + 1) * (most + 1) == a * (most + 1) + (most + 1);
    }
  }

  lemma PackedLess(find: nat, hear: nat, todo: nat, find': nat, hear': nat, todo': nat, mostHear: nat, mostDo: nat)
    requires hear' <= mostHear && todo' <= mostDo
    requires find' < find || (find' == find && (hear' < hear || (hear' == hear && todo' < todo)))
    ensures Packed(find', hear', todo', mostHear, mostDo) < Packed(find, hear, todo, mostHear, mostDo)
  {
    var a, b := find' * (mostHear + 1) + hear', find * (mostHear + 1) + hear;
    if find' < find || hear' < hear {
      Carry(find', find, hear', hear, mostHear);
    }
    Carry(a, b, todo', todo, mostDo);
  }

  lemma PackedMost(find: nat, hear: nat, todo: nat, mostFind: nat, mostHear: nat, mostDo: nat)
    requires find <= mostFind && hear <= mostHear && todo <= mostDo
    ensures Packed(find, hear, todo, mostHear, mostDo) <= Packed(mostFind, mostHear, mostDo, mostHear, mostDo)
  {
    Times(find, mostFind, mostHear + 1);
    Times(find * (mostHear + 1) + hear, mostFind * (mostHear + 1) + mostHear, mostDo + 1);
  }

  function Value(l: Lookup, nodes: set<nat>): nat {
    var n, p := |nodes|, |l.strands|;
    Packed(ToFind(l, nodes), ToHear(l), ToDo(l), MostToHear(n, p), MostToDo(n, p))
  }

  /** No more moves than this, with n nodes and p strands. */
  function MostMoves(n: nat, p: nat): nat {
    Packed(n, MostToHear(n, p), MostToDo(n, p), MostToHear(n, p), MostToDo(n, p))
  }

  lemma Bounds(l: Lookup, nodes: set<nat>)
    requires Lawful(l, nodes)
    ensures ToFind(l, nodes) <= |nodes|
    ensures ToHear(l) <= MostToHear(|nodes|, |l.strands|) && ToDo(l) <= MostToDo(|nodes|, |l.strands|)
  {
    StrandBounds(l.strands, l.found);
    SubsetSize(l.search.queue.Keys, nodes);
    SubsetSize(l.search.queue.Keys * l.found, nodes);
    SubsetSize(nodes - l.found, nodes);
  }

  /** The moves of a run that change anything, cancellations not counted. */
  function Effective(l: Lookup, moves: seq<(nat, Move)>): nat
    requires l.search.n >= 1
  {
    if moves == [] then 0 else
      var k := |moves| - 1;
      var before := MovedAll(l, moves[..k]);
      Effective(l, moves[..k]) + if moves[k].1.Cancel? || Moved(before, moves[k].0, moves[k].1) == before then 0 else 1
  }

  lemma NearerCosts(l: Lookup, l': Lookup, nodes: set<nat>)
    requires Lawful(l', nodes) && Nearer(l, l', nodes) && |l'.strands| == |l.strands|
    ensures Value(l', nodes) < Value(l, nodes)
  {
    var n, p := |nodes|, |l.strands|;
    Bounds(l', nodes);
    PackedLess(ToFind(l, nodes), ToHear(l), ToDo(l), ToFind(l', nodes), ToHear(l'), ToDo(l'),
               MostToHear(n, p), MostToDo(n, p));
  }

  lemma MoveCosts(l: Lookup, i: nat, move: Move, nodes: set<nat>)
    requires Lawful(l, nodes) && Honest(l, i, move, nodes)
    ensures
      var l' := Moved(l, i, move);
      if move.Cancel? || l' == l then Value(l', nodes) == Value(l, nodes) else Value(l', nodes) < Value(l, nodes)
    ensures |Moved(l, i, move).strands| == |l.strands|
  {
    var l' := Moved(l, i, move);
    if !move.Cancel? && l' != l {
      MoveKeeps(l, i, move, nodes);
      MoveNearer(l, i, move, nodes);
      NearerCosts(l, l', nodes);
    }
  }

  lemma {:induction false} RunCosts(l: Lookup, moves: seq<(nat, Move)>, nodes: set<nat>)
    requires Lawful(l, nodes) && HonestRun(l, moves, nodes)
    ensures Effective(l, moves) + Value(MovedAll(l, moves), nodes) <= Value(l, nodes)
    ensures |MovedAll(l, moves).strands| == |l.strands|
  {
    if moves != [] {
      var k := |moves| - 1;
      RunCosts(l, moves[..k], nodes);
      RunKeeps(l, moves[..k], nodes);
      MoveCosts(MovedAll(l, moves[..k]), moves[k].0, moves[k].1, nodes);
    }
  }

  // ------------------------------------------------------------ the results

  /** However P strands interleave, fail and reply, a search makes no more moves than a bound
      that depends only on the number of nodes and strands. */
  lemma MovesAreBounded(target: nat, n: nat, queue: map<nat, Address>, p: nat, nodes: set<nat>, moves: seq<(nat, Move)>)
    requires n >= 1 && p >= 1 && queue.Keys <= nodes && HonestRun(Started(target, n, queue, p), moves, nodes)
    ensures Effective(Started(target, n, queue, p), moves) <= MostMoves(|nodes|, p)
  {
    var l := Started(target, n, queue, p);
    StartIsLawful(target, n, queue, p, nodes);
    RunCosts(l, moves, nodes);
    Bounds(l, nodes);
    PackedMost(ToFind(l, nodes), ToHear(l), ToDo(l), |nodes|, MostToHear(|nodes|, p), MostToDo(|nodes|, p));
  }

  /** And while a strand is left there is a move to make, so that all of them leave in the end. */
  lemma SomeMoveIsLeft(l: Lookup, i: nat, nodes: set<nat>) returns (move: Move)
    requires l.search.n >= 1 && i < |l.strands| && !l.strands[i].Exited?
    ensures !move.Cancel? && Honest(l, i, move, nodes) && Moved(l, i, move) != l
  {
    match l.strands[i]
    case Ready => move := if CanPop(l.search) then Pop else Leave;
    case Connecting(_) => move := Refused;
    case Asking => move := NoReply;
    assert Moved(l, i, move).strands[i] != l.strands[i];
  }

  /** When all strands have left a search that was not canceled, every node it was told of is a
      result, or failed its last attempt, or is no closer than the worst of a full set of
      results; or the target was found and is the first result. */
  lemma StrandsSettleEverything(target: nat, n: nat, queue: map<nat, Address>, p: nat, nodes: set<nat>,
                                moves: seq<(nat, Move)>, d: nat)
    requires n >= 1 && p >= 1 && queue.Keys <= nodes && HonestRun(Started(target, n, queue, p), moves, nodes)
    requires AllExited(MovedAll(Started(target, n, queue, p), moves).strands)
    ensures
      var l := MovedAll(Started(target, n, queue, p), moves);
      && (l.search.status == Searching ==> l.search.queue == map[])
      && (l.search.status == Searching && d in l.reported ==>
            || d in l.search.results || d in l.failed
            || (|l.search.results| == n && l.search.results.Keys != {} && Last(l.search.results.Keys) <= d))
      && (l.search.status == Done ==> 0 in l.search.results && First(l.search.results.Keys) == 0)
      && (0 in l.found ==> l.search.status == Done || l.search.status == Canceled)
  {
    var l := MovedAll(Started(target, n, queue, p), moves);
    StartIsLawful(target, n, queue, p, nodes);
    RunKeeps(Started(target, n, queue, p), moves, nodes);
    if d in l.reported {
      assert InHand(l, d);
    }
    if l.search.status == Done {
      FoundTargetIsFirst(l.search, l.found);
    }
  }

  /** Once the target has answered, or the search was canceled, no strand pops another node,
      whatever the others still do. */
  lemma {:induction false} EndedStaysEnded(l: Lookup, moves: seq<(nat, Move)>, i: nat)
    requires l.search.n >= 1 && (l.search.status == Done || l.search.status == Canceled)
    ensures
      var later := MovedAll(l, moves);
      (later.search.status == Done || later.search.status == Canceled) && Moved(later, i, Pop) == later
  {
    if moves != [] {
      EndedStaysEnded(l, moves[..|moves| - 1], i);
    }
  }

  lemma TargetAnswerEnds(l: Lookup, i: nat)
    requires l.search.n >= 1 && i < |l.strands| && l.strands[i].Connecting?
    ensures
      var l' := Moved(l, i, Answers(l.search.target));
      l'.search.status == Done && l'.strands[i].Exited? && l'.search.queue == l.search.queue && 0 in l'.found
  {
    XorZero(l.search.target);
  }
}
