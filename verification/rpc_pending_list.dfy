/** The pending list as linked promises with a head and a tail pointer. */
module RpcPendingLists {
  import opened Common
  import opened RpcPending

  type Data = seq<bv8>
  datatype Outcome = Waiting | Value(data: Data) | TaskCanceled

  class Promise {
    const reqId: nat
    var next: Promise?
    var outcome: Outcome

    constructor (id: nat)
      ensures reqId == id && next == null && outcome == Waiting
    {
      reqId := id;
      next := null;
      outcome := Waiting;
    }
  }

  // the promise at place i, null past the end
  ghost function At(list: seq<Promise>, i: nat): Promise? {
    if i < |list| then list[i] else null
  }

  ghost predicate Distinct(list: seq<Promise>) {
    forall i, j :: 0 <= i < j < |list| ==> list[i] != list[j]
  }

  ghost predicate Chained(list: seq<Promise>)
    reads list
  {
    forall i {:trigger list[i].next} :: 0 <= i < |list| ==> list[i].next == At(list, i + 1)
  }

  /** A chain that ends meets no promise twice. */
  lemma {:induction false} ChainHasNoLoop(list: seq<Promise>, i: nat, j: nat)
    requires Chained(list) && i < j < |list|
    ensures list[i] != list[j]
    decreases |list| - j
  {
    if list[i] == list[j] {
      assert list[i].next == At(list, i + 1) && list[j].next == At(list, j + 1);
      if j + 1 < |list| {
        ChainHasNoLoop(list, i + 1, j + 1);
      }
    }
  }

  lemma ChainIsDistinct(list: seq<Promise>)
    requires Chained(list)
    ensures Distinct(list)
  {
    forall i, j | 0 <= i < j < |list|
      ensures list[i] != list[j]
    {
      ChainHasNoLoop(list, i, j);
    }
  }

  /** One promise per pending call, with its id. */
  ghost predicate Matches(list: seq<Promise>, pending: seq<Call>) {
    |list| == |pending| && forall i :: 0 <= i < |list| ==> list[i].reqId == pending[i].id
  }

  ghost predicate AllWaiting(list: seq<Promise>)
    reads list
  {
    forall i {:trigger list[i].outcome} :: 0 <= i < |list| ==> list[i].outcome == Waiting
  }

  lemma MatchesMore(list: seq<Promise>, pending: seq<Call>, p: Promise, c: Call)
    requires Matches(list, pending) && p.reqId == c.id
    ensures Matches(list + [p], pending + [c])
  {
  }

  lemma MatchesWithout(list: seq<Promise>, pending: seq<Call>, k: nat)
    requires Matches(list, pending) && k < |list|
    ensures Matches(Without(list, k), Without(pending, k))
  {
  }

  lemma NotAnymore(list: seq<Promise>, k: nat)
    requires Distinct(list) && k < |list|
    ensures list[k] !in Without(list, k)
  {
  }

  lemma OldestMatches(list: seq<Promise>, pending: seq<Call>, id: nat, k: nat)
    requires Matches(list, pending) && k <= |list|
    requires forall i :: 0 <= i < k ==> list[i].reqId != id
    requires k < |list| ==> list[k].reqId == id
    ensures Oldest(pending, id) == k
  {
    assert k < |list| ==> pending[k].id == id;
    assert forall i :: 0 <= i < k ==> pending[i].id == list[i].reqId;
  }

  class RawRpc {
    var head: Promise?
    var tail: Promise?
    var reqId: nat
    // the linked promises in order, and what the run so far did
    ghost var list: seq<Promise>
    ghost var ledger: Ledger

    /** Head, tail and next spell the list: the tail is the last promise, and both ends are
        null exactly when there is none. */
    ghost predicate Linked()
      reads this, list
    {
      Chained(list) && head == At(list, 0) && tail == if list == [] then null else list[|list| - 1]
    }

    /** The list is the ledger's pending calls. */
    ghost predicate Valid()
      reads this, list
    {
      Linked() && AllWaiting(list) && Matches(list, ledger.pending) && reqId == ledger.lastId
    }

    constructor ()
      ensures Valid() && ledger == START && list == []
    {
      head, tail, reqId := null, null, 0;
      list, ledger := [], START;
    }

    /** enqueue_promise */
    method Enqueue(r: Promise)
      requires Linked() && r !in list
      modifies this`head, this`tail, this`list, list`next, r`next
      ensures Linked() && list == old(list) + [r]
    {
      ChainIsDistinct(list);
      r.next := null;
      if tail != null {
        tail.next := r;
        tail := r;
      } else {
        head, tail := r, r;
      }
      list := list + [r];
    }

    /** invoke: the next 16-bit id, a new promise at the end of the list. */
    method Invoke() returns (p: Promise)
      requires Valid()
      modifies this, list`next
      ensures Valid() && fresh(p) && list == old(list) + [p] && ledger == Invoked(old(ledger))
    {
      reqId := (reqId + 1) % IDS;
      p := new Promise(reqId);
      assert p !in list;
      MatchesMore(list, ledger.pending, p, Call(ledger.issued, reqId));
      Enqueue(p);
      ledger := Invoked(ledger);
    }

    /** The search of pop_promise. */
    method Search(id: nat) returns (prev: Promise?, cur: Promise?, ghost k: nat)
      requires Linked()
      ensures k <= |list| && (forall i :: 0 <= i < k ==> list[i].reqId != id)
      ensures cur == At(list, k) && (cur != null ==> cur.reqId == id)
      ensures prev == if k == 0 then null else list[k - 1]
    {
      prev, cur := null, head;
      k := 0;
      while cur != null && cur.reqId != id
        invariant 0 <= k <= |list| && cur == At(list, k)
        invariant prev == if k == 0 then null else list[k - 1]
        invariant forall i :: 0 <= i < k ==> list[i].reqId != id
        decreases |list| - k
      {
        prev := cur;
        cur := cur.next;
        k := k + 1;
      }
    }

    /** Takes the promise at place k out of the list. */
    method Unlink(prev: Promise?, cur: Promise, ghost k: nat)
      requires Linked() && AllWaiting(list) && k < |list| && cur == list[k]
      requires prev == if k == 0 then null else list[k - 1]
      modifies this`head, this`tail, this`list, list`next
      ensures Linked() && AllWaiting(list) && list == Without(old(list), k) && cur.next == null && cur !in list
    {
      ChainIsDistinct(list);
      NotAnymore(list, k);
      if prev != null {
        prev.next := cur.next;
      } else {
        head := cur.next;
      }
      if cur == tail {
        tail := prev;
      }
      cur.next := null;
      list := Without(list, k);
    }

    /** pop_promise: the oldest promise with the id, out of the list; the others stay. */
    method PopPromise(id: nat, ghost fate: Fate) returns (p: Promise?)
      requires Valid()
      modifies this`head, this`tail, this`list, this`ledger, list`next
      ensures Valid() && ledger == Popped(old(ledger), id, fate)
      ensures var k := Oldest(old(ledger.pending), id);
              k <= |old(list)| && p == At(old(list), k) && (p != null ==> list == Without(old(list), k))
      ensures p != null ==> p.reqId == id && p.next == null && p !in list && p.outcome == Waiting
      ensures p == null ==> list == old(list)
    {
      ghost var pending := ledger.pending;
      var prev, cur, k := Search(id);
      OldestMatches(list, pending, id, k);
      if cur != null {
        MatchesWithout(list, pending, k);
        Unlink(prev, cur, k);
      }
      ledger := Popped(ledger, id, fate);
      p := cur;
    }

    /** A result message: the promise it belongs to gets the value. */
    method HandleResult(id: nat, data: Data) returns (p: Promise?)
      requires Valid()
      modifies this, list
      ensures Valid() && ledger == Popped(old(ledger), id, Answered)
      ensures p == At(old(list), Oldest(old(ledger.pending), id))
      ensures p != null ==> p.reqId == id && p.outcome == Value(data)
    {
      p := PopPromise(id, Answered);
      if p != null {
        p.outcome := Value(data);
      }
    }

    /** An error message: the promise leaves the list and is told nothing. */
    method HandleError(id: nat) returns (p: Promise?)
      requires Valid()
      modifies this, list
      ensures Valid() && ledger == Popped(old(ledger), id, Refused)
      ensures p == At(old(list), Oldest(old(ledger.pending), id))
      ensures p != null ==> p.reqId == id && p.outcome == Waiting
    {
      p := PopPromise(id, Refused);
    }

    /** The destructor: every promise still pending is canceled, in order. */
    method Drain()
      requires Valid()
      modifies this, list
      ensures head == null && ledger == TornDown(old(ledger))
      ensures forall i :: 0 <= i < |old(list)| ==> old(list)[i].outcome == TaskCanceled
    {
      ghost var k := 0;
      while head != null
        invariant list == old(list) && ledger == old(ledger) && 0 <= k <= |list|
        invariant Chained(list) && head == At(list, k)
        invariant forall i :: 0 <= i < k ==> list[i].outcome == TaskCanceled
        decreases |list| - k
      {
        head.outcome := TaskCanceled;
        head := head.next;
        k := k + 1;
      }
      ledger := TornDown(ledger);
    }
  }
}
