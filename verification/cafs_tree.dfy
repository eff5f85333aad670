/** What it means for a directory listing to stand for a tree of files. */
module CafsTree {
  import opened CafsKeystream
  import opened CafsChunks
  import opened CafsStore

  const IMBED_THRESHOLD: nat := 1048576

  datatype Node = File(bytes: seq<Byte>) | Dir(children: seq<Named>) | Other
  datatype Named = Named(name: string, node: Node)

  // the file index: a reference for every content filed so far
  type Index = map<Id, FileRef>

  /** What was packed for one child and the file index in which it was looked up; for a
      directory also its listing and the lookups of its own children. */
  datatype Lookup = Lookup(item: seq<Byte>, index: Index, dir: seq<Entry>, inner: seq<Lookup>)

  predicate Visible(n: Named) {
    n.node.Dir? && !(n.name != "" && n.name[0] == '.')
  }

  function KindOf(n: Named): Kind {
    if Visible(n) then Directory
    else if n.node.File? then if |n.node.bytes| > IMBED_THRESHOLD then HeaderOfFile else FileData
    else Unknown
  }

  function Sub(n: Named): seq<Named> {
    if n.node.Dir? then n.node.children else []
  }

  function Weight(children: seq<Named>): nat {
    if children == [] then 0 else
      var k := |children| - 1;
      var inner := match children[k].node case Dir(sub) => Weight(sub) case _ => 0;
      1 + inner + Weight(children[..k])
  }

  lemma WeightOf(children: seq<Named>)
    requires children != []
    ensures var k := |children| - 1;
            Weight(children) == 1 + Weight(Sub(children[k])) + Weight(children[..k])
  {
  }

  lemma {:induction false} WeightAt(children: seq<Named>, i: nat)
    requires i < |children|
    ensures Weight(Sub(children[i])) < Weight(children)
    decreases |children|
  {
    var k := |children| - 1;
    WeightOf(children);
    if i < k {
      WeightAt(children[..k], i);
    }
  }

  /** The reference names the item; its bytes are in the store, or still in the buffer of the
      chunk being filled and then the reference has no chunk yet. */
  predicate Resolves(env: Env, store: map<Id, Chunk>, buf: seq<Byte>, ref: FileRef, item: seq<Byte>) {
    && ref.size == |item| && ref.content == env.hash(item)
    && (|| item == []
        || Holds(env, store, ref, item)
        || (ref.chunk == NULL_ID && ref.pos + |item| <= |buf| && buf[ref.pos..ref.pos + |item|] == item))
  }

  predicate Known(env: Env, look: Lookup) {
    env.hash(look.item) in look.index
  }

  /** A child is left out of the listing only when its content is new and fills a chunk. */
  predicate Dropped(env: Env, look: Lookup) {
    !Known(env, look) && |look.item| >= MAX_CHUNK
  }

  /** A known content is listed under the kind it was filed with, a new one under the child's. */
  predicate Listed(env: Env, store: map<Id, Chunk>, buf: seq<Byte>, e: Entry, n: Named, look: Lookup) {
    && e.name == n.name && Resolves(env, store, buf, e.ref, look.item)
    && e.ref.kind == if Known(env, look) then look.index[env.hash(look.item)].kind else KindOf(n)
  }

  /** Files every reference of a listing; a content already filed keeps its reference. */
  function Filed(index: Index, dir: seq<Entry>): Index {
    if dir == [] then index else
      var before, ref := Filed(index, dir[..|dir| - 1]), dir[|dir| - 1].ref;
      if ref.content in before then before else before[ref.content := ref]
  }

  // the file index after the lookups of a trace
  function After(before: Index, trace: seq<Lookup>): Index {
    if trace == [] then before else trace[|trace| - 1].index
  }

  /** The bytes packed for a node, and what making them did to the file index: a small file's
      own bytes, the packed header of a large file whose chunks are stored, or the packed
      listing of a directory, itself imported and filed. */
  ghost predicate Made(env: Env, store: map<Id, Chunk>, before: Index, n: Named, look: Lookup)
    decreases Weight(Sub(n)), 1
  {
    if Visible(n) then
      && look.item == env.packDir(look.dir)
      && Imported(env, store, [], before, look.dir, Sub(n), look.inner)
      && look.index == Filed(After(before, look.inner), look.dir)
    else
      && look.index == before && look.dir == [] && look.inner == []
      && if n.node.File? then
           if |n.node.bytes| > IMBED_THRESHOLD
           then exists head :: look.item == env.packHeader(head) && HeaderHolds(env, store, head, n.node.bytes)
           else look.item == n.node.bytes
         else look.item == []
  }

  /** The entries are the children in order, each packed and looked up as the trace says. */
  ghost predicate Imported(env: Env, store: map<Id, Chunk>, buf: seq<Byte>, before: Index,
                           entries: seq<Entry>, children: seq<Named>, trace: seq<Lookup>)
    decreases Weight(children), 0
  {
    if children == [] then entries == [] && trace == [] else
      var k := |children| - 1;
      WeightOf(children);
      && |trace| == |children| && Made(env, store, After(before, trace[..k]), children[k], trace[k])
      && if Dropped(env, trace[k]) then Imported(env, store, buf, before, entries, children[..k], trace[..k])
         else
           && |entries| > 0 && Listed(env, store, buf, entries[|entries| - 1], children[k], trace[k])
           && Imported(env, store, buf, before, entries[..|entries| - 1], children[..k], trace[..k])
  }

  /** The whole import of a directory: every child looked up and listed, then all of them filed. */
  ghost predicate Finished(env: Env, store: map<Id, Chunk>, before: Index, after: Index, d: seq<Entry>,
                           children: seq<Named>)
  {
    exists trace :: Imported(env, store, [], before, d, children, trace) && after == Filed(After(before, trace), d)
  }

  // ------------------------------------------------------------ the relation grows with the store

  lemma ListedGrows(env: Env, was: map<Id, Chunk>, now: map<Id, Chunk>, buf: seq<Byte>, more: seq<Byte>,
                    e: Entry, n: Named, look: Lookup)
    requires Grew(was, now) && Listed(env, was, buf, e, n, look)
    ensures Listed(env, now, buf + more, e, n, look)
  {
  }

  lemma {:induction false} ImportedGrows(env: Env, was: map<Id, Chunk>, now: map<Id, Chunk>, buf: seq<Byte>,
                                         more: seq<Byte>, before: Index, entries: seq<Entry>,
                                         children: seq<Named>, trace: seq<Lookup>)
    requires Grew(was, now) && Imported(env, was, buf, before, entries, children, trace)
    ensures Imported(env, now, buf + more, before, entries, children, trace)
    decreases Weight(children), 0
  {
    if children != [] {
      var k := |children| - 1;
      WeightOf(children);
      MadeGrows(env, was, now, After(before, trace[..k]), children[k], trace[k]);
      if Dropped(env, trace[k]) {
        ImportedGrows(env, was, now, buf, more, before, entries, children[..k], trace[..k]);
      } else {
        ListedGrows(env, was, now, buf, more, entries[|entries| - 1], children[k], trace[k]);
        ImportedGrows(env, was, now, buf, more, before, entries[..|entries| - 1], children[..k], trace[..k]);
      }
    }
  }

  lemma {:induction false} MadeGrows(env: Env, was: map<Id, Chunk>, now: map<Id, Chunk>, before: Index, n: Named,
                                     look: Lookup)
    requires Grew(was, now) && Made(env, was, before, n, look)
    ensures Made(env, now, before, n, look)
    decreases Weight(Sub(n)), 1
  {
    if Visible(n) {
      ImportedGrows(env, was, now, [], [], before, look.dir, Sub(n), look.inner);
      var none: seq<Byte> := [];
      assert none + none == none;
    } else if n.node.File? && |n.node.bytes| > IMBED_THRESHOLD {
      var head :| look.item == env.packHeader(head) && HeaderHolds(env, was, head, n.node.bytes);
      AssembledGrows(env, was, now, head.chunks);
      assert HeaderHolds(env, now, head, n.node.bytes);
    }
  }

  lemma ImportedKept(env: Env, was: map<Id, Chunk>, now: map<Id, Chunk>, buf: seq<Byte>, before: Index,
                     entries: seq<Entry>, children: seq<Named>, trace: seq<Lookup>)
    requires Grew(was, now) && Imported(env, was, buf, before, entries, children, trace)
    ensures Imported(env, now, buf, before, entries, children, trace)
  {
    ImportedGrows(env, was, now, buf, [], before, entries, children, trace);
    assert buf + [] == buf;
  }

  lemma FinishedGrows(env: Env, was: map<Id, Chunk>, now: map<Id, Chunk>, before: Index,
                      after: Index, d: seq<Entry>, children: seq<Named>)
    requires Grew(was, now) && Finished(env, was, before, after, d, children)
    ensures Finished(env, now, before, after, d, children)
  {
    var trace :| Imported(env, was, [], before, d, children, trace) && after == Filed(After(before, trace), d);
    ImportedKept(env, was, now, [], before, d, children, trace);
  }

  // ------------------------------------------------------------ saving the chunk being filled

  function PatchedRef(ref: FileRef, id: Id, seed: nat): FileRef {
    if ref.chunk == NULL_ID then ref.(chunk := id, seed := seed) else ref
  }

  /** Every reference without a chunk now points to the saved one. */
  function Patched(entries: seq<Entry>, id: Id, seed: nat): (r: seq<Entry>)
    ensures |r| == |entries|
  {
    seq(|entries|, i requires 0 <= i < |entries| => entries[i].(ref := PatchedRef(entries[i].ref, id, seed)))
  }

  lemma ListedPatched(env: Env, store: map<Id, Chunk>, buf: seq<Byte>, id: Id, seed: nat, e: Entry, n: Named,
                      look: Lookup)
    requires Listed(env, store, buf, e, n, look) && NULL_ID !in store && HoldsWhole(env, store, id, seed, buf)
    ensures Listed(env, store, [], e.(ref := PatchedRef(e.ref, id, seed)), n, look)
  {
  }

  lemma {:induction false} ImportedPatched(env: Env, store: map<Id, Chunk>, buf: seq<Byte>, id: Id, seed: nat,
                                           before: Index, entries: seq<Entry>, children: seq<Named>, trace: seq<Lookup>)
    requires Imported(env, store, buf, before, entries, children, trace)
    requires NULL_ID !in store && HoldsWhole(env, store, id, seed, buf)
    ensures Imported(env, store, [], before, Patched(entries, id, seed), children, trace)
    decreases |children|
  {
    if children != [] {
      var k := |children| - 1;
      if Dropped(env, trace[k]) {
        ImportedPatched(env, store, buf, id, seed, before, entries, children[..k], trace[..k]);
      } else {
        var m := |entries| - 1;
        ListedPatched(env, store, buf, id, seed, entries[m], children[k], trace[k]);
        ImportedPatched(env, store, buf, id, seed, before, entries[..m], children[..k], trace[..k]);
        assert Patched(entries, id, seed)[..m] == Patched(entries[..m], id, seed);
      }
    }
  }

  // ------------------------------------------------------------ one more child

  /** The listing after one more lookup. */
  lemma ImportedAppend(env: Env, store: map<Id, Chunk>, buf: seq<Byte>, before: Index, entries: seq<Entry>,
                       children: seq<Named>, trace: seq<Lookup>, more: seq<Entry>, n: Named, look: Lookup)
    requires Imported(env, store, buf, before, entries, children, trace)
    requires Made(env, store, After(before, trace), n, look)
    requires if Dropped(env, look) then more == [] else |more| == 1 && Listed(env, store, buf, more[0], n, look)
    ensures Imported(env, store, buf, before, entries + more, children + [n], trace + [look])
  {
    ImportedShape(env, store, buf, before, entries, children, trace);
    assert (children + [n])[..|children|] == children && (trace + [look])[..|trace|] == trace;
    assert (entries + more)[..|entries|] == entries && entries + [] == entries;
  }

  /** A listing is as long as its children less those left out. */
  lemma {:induction false} ImportedShape(env: Env, store: map<Id, Chunk>, buf: seq<Byte>, before: Index,
                                         entries: seq<Entry>, children: seq<Named>, trace: seq<Lookup>)
    requires Imported(env, store, buf, before, entries, children, trace)
    ensures |trace| == |children| && |entries| <= |children|
    ensures |entries| == |children| <==> forall i :: 0 <= i < |trace| ==> !Dropped(env, trace[i])
    ensures |entries| == |children| <==>
            forall i :: 0 <= i < |trace| ==> env.hash(trace[i].item) in trace[i].index || |trace[i].item| < 4194304
    decreases |children|
  {
    if children != [] {
      var k := |children| - 1;
      if Dropped(env, trace[k]) {
        ImportedShape(env, store, buf, before, entries, children[..k], trace[..k]);
      } else {
        ImportedShape(env, store, buf, before, entries[..|entries| - 1], children[..k], trace[..k]);
      }
      forall i | 0 <= i < k
        ensures trace[i] == trace[..k][i]
      {
      }
    }
  }

  // ------------------------------------------------------------ the file index

  /** The reference is filed under the hash of an item that it resolves to. */
  ghost predicate Backed(env: Env, store: map<Id, Chunk>, ref: FileRef) {
    exists item :: Resolves(env, store, [], ref, item)
  }

  ghost predicate IndexBacked(env: Env, store: map<Id, Chunk>, index: Index) {
    forall h :: h in index ==> index[h].content == h && Backed(env, store, index[h])
  }

  ghost predicate IndexGrew(was: Index, now: Index) {
    forall h :: h in was ==> h in now && now[h] == was[h]
  }

  ghost predicate Good(env: Env, store: map<Id, Chunk>, index: Index) {
    Intact(env, store) && IndexBacked(env, store, index)
  }

  ghost predicate AllBacked(env: Env, store: map<Id, Chunk>, entries: seq<Entry>) {
    forall i :: 0 <= i < |entries| ==> Backed(env, store, entries[i].ref)
  }

  lemma {:induction false} ImportedBacked(env: Env, store: map<Id, Chunk>, before: Index, entries: seq<Entry>,
                                          children: seq<Named>, trace: seq<Lookup>)
    requires Imported(env, store, [], before, entries, children, trace)
    ensures AllBacked(env, store, entries)
    decreases |children|
  {
    if children != [] {
      var k := |children| - 1;
      if Dropped(env, trace[k]) {
        ImportedBacked(env, store, before, entries, children[..k], trace[..k]);
      } else {
        var m := |entries| - 1;
        ImportedBacked(env, store, before, entries[..m], children[..k], trace[..k]);
        forall i | 0 <= i < |entries|
          ensures Backed(env, store, entries[i].ref)
        {
          assert i < m ==> entries[i] == entries[..m][i];
        }
      }
    }
  }

  /** A known content's reference serves for any node with that content. */
  lemma KnownIsListed(env: Env, store: map<Id, Chunk>, n: Named, look: Lookup)
    requires Injective(env.hash) && IndexBacked(env, store, look.index) && Known(env, look)
    ensures Listed(env, store, [], Entry(n.name, look.index[env.hash(look.item)]), n, look)
  {
    var ref := look.index[env.hash(look.item)];
    var found :| Resolves(env, store, [], ref, found);
    assert found == look.item;
  }

  // ------------------------------------------------------------ reading the tree back

  /** When no child is missing, entry i stands for child i. */
  lemma {:induction false} ImportedAt(env: Env, store: map<Id, Chunk>, before: Index, entries: seq<Entry>,
                                      children: seq<Named>, trace: seq<Lookup>, i: nat)
    requires Imported(env, store, [], before, entries, children, trace)
    requires |entries| == |children| && i < |children|
    ensures |trace| == |children| && Made(env, store, After(before, trace[..i]), children[i], trace[i])
    ensures Listed(env, store, [], entries[i], children[i], trace[i])
    decreases |children|
  {
    var k := |children| - 1;
    ImportedShape(env, store, [], before, entries, children, trace);
    if i < k {
      ImportedAt(env, store, before, entries[..k], children[..k], trace[..k], i);
      assert trace[..k][..i] == trace[..i];
    }
  }

  /** A non-empty item reads back as its kind followed by exactly its bytes; an empty one
      reads back exactly when its reference was given a chunk. */
  lemma ListedReadsBack(env: Env, store: map<Id, Chunk>, e: Entry, n: Named, look: Lookup)
    requires Intact(env, store) && Listed(env, store, [], e, n, look)
    ensures look.item != [] || e.ref.chunk in store <==> Resource(env, store, e.ref).Ok?
    ensures look.item != [] ==> Resource(env, store, e.ref) == Ok([e.ref.kind.Code()] + look.item)
  {
    if look.item != [] {
      ResourceOfHeld(env, store, e.ref, look.item);
    } else if e.ref.chunk in store {
      var c := store[e.ref.chunk];
      assert Well(env, e.ref.chunk, c);
      IntactReads(env.hash, c.data, e.ref.pos, 0);
    }
  }

  /** The kind byte of a node by itself: 0 for a file of at most a megabyte, 2 for a larger one, 1
      for a directory whose name does not start with a dot, 3 for everything else. */
  predicate SaysKind(b: Byte, n: Named) {
    && (n.node.File? && |n.node.bytes| <= 1048576 ==> b == 0)
    && (n.node.File? && |n.node.bytes| > 1048576 ==> b == 2)
    && (n.node.Dir? && (n.name == "" || n.name[0] != '.') ==> b == 1)
    && (n.node.Dir? && n.name != "" && n.name[0] == '.' ==> b == 3)
    && (n.node.Other? ==> b == 3)
  }

  lemma NewContentSaysKind(env: Env, store: map<Id, Chunk>, buf: seq<Byte>, e: Entry, n: Named, look: Lookup)
    requires Listed(env, store, buf, e, n, look) && !Known(env, look) && Resource(env, store, e.ref).Ok?
    ensures Resource(env, store, e.ref).value != [] && SaysKind(Resource(env, store, e.ref).value[0], n)
  {
  }

  /** When everything packed is smaller than a chunk, the listing is complete and reads back:
      entry i has child i's name and reads as a kind byte and the bytes packed for child i,
      unless those are empty.  The kind is the child's own exactly when the content was not in
      the file index at its lookup, or was in it under that kind. */
  lemma {:induction false} ListingReadsBack(env: Env, store: map<Id, Chunk>, before: Index, entries: seq<Entry>,
                         children: seq<Named>, trace: seq<Lookup>, i: nat)
    requires Intact(env, store) && Imported(env, store, [], before, entries, children, trace)
    requires forall j :: 0 <= j < |trace| ==> |trace[j].item| < MAX_CHUNK
    requires i < |children|
    ensures |entries| == |children| == |trace| && entries[i].name == children[i].name
    ensures Made(env, store, After(before, trace[..i]), children[i], trace[i])
    ensures trace[i].item != [] ==>
              Resource(env, store, entries[i].ref) == Ok([entries[i].ref.kind.Code()] + trace[i].item)
    ensures entries[i].ref.kind == KindOf(children[i]) <==>
            !Known(env, trace[i]) || trace[i].index[env.hash(trace[i].item)].kind == KindOf(children[i])
    ensures !Known(env, trace[i]) && Resource(env, store, entries[i].ref).Ok? ==>
              var read := Resource(env, store, entries[i].ref).value;
              read != [] && SaysKind(read[0], children[i])
  {
    ImportedShape(env, store, [], before, entries, children, trace);
    assert forall j :: 0 <= j < |trace| ==> |trace[j].item| < MAX_CHUNK && !Dropped(env, trace[j]);
    ImportedAt(env, store, before, entries, children, trace, i);
    ListedReadsBack(env, store, entries[i], children[i], trace[i]);
    if !Known(env, trace[i]) && Resource(env, store, entries[i].ref).Ok? {
      NewContentSaysKind(env, store, [], entries[i], children[i], trace[i]);
    }
  }

  /** Everything packed, at any depth, is smaller than a chunk. */
  predicate AllSmall(trace: seq<Lookup>) {
    forall i :: 0 <= i < |trace| ==> |trace[i].item| < MAX_CHUNK && AllSmall(trace[i].inner)
  }

  /** Reading the listing back, all the way down: every entry has its child's name and reads as
      its kind and the bytes packed for the child, which are the file itself, the header of a
      file that exports in full, or a listing that reads back in turn. */
  ghost predicate ReadsBack(env: Env, store: map<Id, Chunk>, entries: seq<Entry>, children: seq<Named>,
                            trace: seq<Lookup>)
    decreases Weight(children), 0
  {
    && |entries| == |children| == |trace|
    && forall i :: 0 <= i < |children| ==>
         (WeightAt(children, i); NodeReadsBack(env, store, entries[i], children[i], trace[i]))
  }

  ghost predicate NodeReadsBack(env: Env, store: map<Id, Chunk>, e: Entry, n: Named, look: Lookup)
    decreases Weight(Sub(n)), 1
  {
    && e.name == n.name
    && (e.ref.kind == KindOf(n) <==> !Known(env, look) || look.index[env.hash(look.item)].kind == KindOf(n))
    && (look.item != [] ==> Resource(env, store, e.ref) == Ok([e.ref.kind.Code()] + look.item))
    && (var read := Resource(env, store, e.ref);
        !Known(env, look) && read.Ok? ==> read.value != [] && SaysKind(read.value[0], n))
    && if Visible(n) then
         look.item == env.packDir(look.dir) && ReadsBack(env, store, look.dir, Sub(n), look.inner)
       else if n.node.File? then
         if |n.node.bytes| > IMBED_THRESHOLD then exists head :: ExportsAs(env, store, head, look.item, n.node.bytes)
         else look.item == n.node.bytes
       else look.item == []
  }

  ghost predicate ExportsAs(env: Env, store: map<Id, Chunk>, head: FileHeader, item: seq<Byte>, file: seq<Byte>) {
    item == env.packHeader(head) && head.fileSize == |file| && Exported(env, store, head.chunks) == Ok(file)
  }

  lemma LargeFileReadsBack(env: Env, store: map<Id, Chunk>, item: seq<Byte>, file: seq<Byte>)
    requires Intact(env, store)
    requires exists head :: item == env.packHeader(head) && HeaderHolds(env, store, head, file)
    ensures exists head :: ExportsAs(env, store, head, item, file)
  {
    var head :| item == env.packHeader(head) && HeaderHolds(env, store, head, file);
    ExportReturnsFile(env, store, head, file);
    assert ExportsAs(env, store, head, item, file);
  }

  /** When everything packed at every depth is smaller than a chunk, the whole tree reads back. */
  lemma {:induction false} TreeReadsBack(env: Env, store: map<Id, Chunk>, before: Index, entries: seq<Entry>,
                                         children: seq<Named>, trace: seq<Lookup>)
    requires Intact(env, store) && Imported(env, store, [], before, entries, children, trace) && AllSmall(trace)
    ensures ReadsBack(env, store, entries, children, trace)
    decreases Weight(children)
  {
    ImportedShape(env, store, [], before, entries, children, trace);
    assert forall j :: 0 <= j < |trace| ==> |trace[j].item| < MAX_CHUNK && !Dropped(env, trace[j]);
    forall i | 0 <= i < |children|
      ensures NodeReadsBack(env, store, entries[i], children[i], trace[i])
    {
      ListingReadsBack(env, store, before, entries, children, trace, i);
      var n, look := children[i], trace[i];
      if Visible(n) {
        WeightAt(children, i);
        TreeReadsBack(env, store, After(before, trace[..i]), look.dir, Sub(n), look.inner);
      } else if n.node.File? && |n.node.bytes| > IMBED_THRESHOLD {
        LargeFileReadsBack(env, store, look.item, n.node.bytes);
      }
    }
  }

  /** As long as no subdirectory is imported, lookups see the file index of the beginning. */
  lemma {:induction false} LookedUpAtFirst(env: Env, store: map<Id, Chunk>, buf: seq<Byte>, before: Index,
                                           entries: seq<Entry>, children: seq<Named>, trace: seq<Lookup>)
    requires Imported(env, store, buf, before, entries, children, trace)
    requires forall i :: 0 <= i < |children| ==> !Visible(children[i])
    ensures forall i :: 0 <= i < |trace| ==> trace[i].index == before
    decreases |children|
  {
    if children != [] {
      var k := |children| - 1;
      var entries' := if Dropped(env, trace[k]) then entries else entries[..|entries| - 1];
      LookedUpAtFirst(env, store, buf, before, entries', children[..k], trace[..k]);
      forall i | 0 <= i < k
        ensures trace[i].index == before
      {
        assert trace[i] == trace[..k][i];
      }
    }
  }

  /** An empty file beside a special file, imported twice: the first time each gets its own
      kind, the second time the file is listed under the special file's. */
  lemma EmptyFileTakesOtherKind(env: Env, store: map<Id, Chunk>, before: Index, d1: seq<Entry>, t1: seq<Lookup>,
                                d2: seq<Entry>, t2: seq<Lookup>, children: seq<Named>)
    requires children == [Named("pipe", Other), Named("empty", File([]))] && env.hash([]) !in before
    requires Imported(env, store, [], before, d1, children, t1)
    requires Imported(env, store, [], Filed(After(before, t1), d1), d2, children, t2)
    ensures |d1| == |d2| == 2 && d1[0].ref.kind == Unknown && d1[1].ref.kind == FileData
    ensures d2[1].ref.kind == Unknown != KindOf(children[1])
  {
    var after := Filed(After(before, t1), d1);
    LookedUpAtFirst(env, store, [], before, d1, children, t1);
    LookedUpAtFirst(env, store, [], after, d2, children, t2);
    TwoEmpty(env, store, before, d1, children, t1);
    assert d1[..1][..0] == [] && d1[..1][0] == d1[0];
    assert Filed(before, d1[..1][..0]) == before;
    assert env.hash([]) in Filed(before, d1[..1]) && Filed(before, d1[..1])[env.hash([])].kind == Unknown;
    TwoEmpty(env, store, after, d2, children, t2);
  }

  // both lookups of the example are of the empty content
  lemma TwoEmpty(env: Env, store: map<Id, Chunk>, before: Index, d: seq<Entry>, children: seq<Named>,
                 trace: seq<Lookup>)
    requires children == [Named("pipe", Other), Named("empty", File([]))]
    requires Imported(env, store, [], before, d, children, trace)
    requires forall i :: 0 <= i < |trace| ==> trace[i].index == before
    ensures |d| == 2 && |trace| == 2
    ensures EmptyListed(env, before, d[0], children[0]) && EmptyListed(env, before, d[1], children[1])
  {
    ImportedShape(env, store, [], before, d, children, trace);
    assert children[..1] == [children[0]] && children[..1][..0] == [];
    assert trace[1].item == [] && !Dropped(env, trace[1]);
    assert Imported(env, store, [], before, d[..|d| - 1], children[..1], trace[..1]);
    assert Made(env, store, After(before, trace[..1][..0]), children[..1][0], trace[..1][0]);
    assert trace[..1][0] == trace[0];
    ImportedAt(env, store, before, d, children, trace, 0);
    ImportedAt(env, store, before, d, children, trace, 1);
  }

  predicate EmptyListed(env: Env, before: Index, e: Entry, n: Named) {
    && e.ref.content == env.hash([])
    && e.ref.kind == if env.hash([]) in before then before[env.hash([])].kind else KindOf(n)
  }
}
