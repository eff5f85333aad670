/** The content store as an object: chunks and the file index change, nothing is overwritten. */
module CafsImport {
  import opened CafsKeystream
  import opened CafsChunks
  import opened CafsStore
  import opened CafsTree

  datatype Link = Link(id: Id, seed: nat)

  /** Files anywhere below are shorter than 2^32 bytes. */
  predicate FilesFit(node: Node) {
    match node
    case File(bytes) => |bytes| < 0x1_0000_0000
    case Dir(sub) => forall i :: 0 <= i < |sub| ==> FilesFit(sub[i].node)
    case Other => true
  }

  /** The link leads to a chunk that holds the data. */
  predicate Linked(env: Env, store: map<Id, Chunk>, r: Result<Link>, data: seq<Byte>) {
    r.Ok? && HoldsWhole(env, store, r.value.id, r.value.seed, data)
  }

  lemma ReusedChunk(env: Env, store: map<Id, Chunk>, data: seq<Byte>)
    requires Sound(env) && Intact(env, store) && env.headerId(Sliced(env.hash, data)) in store
    ensures store[env.headerId(Sliced(env.hash, data))].data == data
  {
    var id := env.headerId(Sliced(env.hash, data));
    assert Well(env, id, store[id]);
    SlicesDetermineData(env.hash, store[id].data, data);
  }

  class Cafs {
    const env: Env
    var store: map<Id, Chunk>
    var db: Index

    constructor (env: Env)
      requires Sound(env)
      ensures Valid() && this.env == env && store == map[] && db == map[]
    {
      this.env := env;
      store, db := map[], map[];
    }

    ghost predicate Valid()
      reads this
    {
      Sound(env) && Good(env, store, db)
    }

    method StoreChunk(slices: seq<Slice>, data: seq<Byte>) returns (id: Id)
      modifies this`store
      ensures id == env.headerId(slices)
      ensures store == if id in old(store) then old(store) else old(store)[id := Chunk(slices, data)]
    {
      id := env.headerId(slices);
      if id in store {
        return;
      }
      store := store[id := Chunk(slices, data)];
    }

    method RandomizeData(data: seq<Byte>, seed: nat) returns (masked: seq<Byte>, used: nat)
      requires Sound(env)
      ensures masked == Mask(data, env.gen, used, 0) && env.isRandom(masked)
      ensures FirstAccepted(data, env.gen, env.isRandom, seed, used)
    {
      var a := new Byte[|data|](i requires 0 <= i < |data| => data[i]);
      assert a[..] == data;
      assert Settles(env, data, seed);
      ghost var tries :| Accepted(env, data, seed, tries);
      var m;
      m, used := Randomize(a, env.gen, env.isRandom, seed, tries);
      masked := m[..];
    }

    /** Slices and stores data already masked with `seed`. */
    method StoreMasked(masked: seq<Byte>, ghost seed: nat) returns (id: Id)
      requires Valid() && |masked| <= MAX_CHUNK
      modifies this`store
      ensures Valid() && Grew(old(store), store)
      ensures HoldsWhole(env, store, id, seed, Mask(masked, env.gen, seed, 0))
    {
      var slices := SliceChunk(env.hash, masked);
      id := StoreChunk(slices, masked);
      if id in old(store) {
        ReusedChunk(env, old(store), masked);
      }
      assert Well(env, id, store[id]);
      KeepsGood(env, old(store), store, db);
    }

    // one turn of import_file: the rest of the buffer is masked along with the part read
    method ImportPart(buffer: seq<Byte>, part: seq<Byte>) returns (chunk: seq<Byte>, c: ChunkRef)
      requires Valid() && |part| <= |buffer| <= MAX_CHUNK
      modifies this`store
      ensures Valid() && Grew(old(store), store)
      ensures |chunk| == |part| && HoldsWhole(env, store, c.id, c.seed, part)
      ensures var all := part + buffer[|part|..];
              FirstAccepted(all, env.gen, env.isRandom, env.seedOf(env.hash(all)), c.seed)
    {
      chunk := part + buffer[|part|..];
      var masked, seed := RandomizeData(chunk, env.seedOf(env.hash(chunk)));
      MaskPart(chunk, env.gen, seed, 0, |part|);
      assert chunk[0..|part|] == part && masked[..|part|] == masked[0..|part|];
      MaskTwice(part, env.gen, seed, 0);
      chunk := masked[..|part|];
      var id := StoreMasked(chunk, seed);
      c := ChunkRef(id, seed);
    }

    method ImportNext(file: seq<Byte>, r: nat, buffer: seq<Byte>, chunks: seq<ChunkRef>)
      returns (chunk: seq<Byte>, chunks': seq<ChunkRef>, r': nat)
      requires Valid() && r < |file| < 0x1_0000_0000 && |buffer| == MAX_CHUNK && Spells(env, store, chunks, file[..r])
      requires r == MAX_CHUNK * |chunks| && FullCut(store, chunks, r)
      modifies this`store
      ensures Valid() && Grew(old(store), store)
      ensures r < r' <= |file| && (r' < |file| ==> |chunk| == MAX_CHUNK) && Spells(env, store, chunks', file[..r'])
      ensures FullCut(store, chunks', r') && (r' < |file| ==> r' == MAX_CHUNK * |chunks'|)
    {
      var some := Min(|buffer|, |file| - r);
      var part := file[r..r + some];
      assert file[..r] + part == file[..r + some];
      var c;
      chunk, c := ImportPart(buffer, part);
      SpellsMore(env, old(store), store, chunks, c, file[..r], part);
      FullCutMore(env, old(store), store, chunks, c, part);
      chunks', r' := chunks + [c], Wrap32(r + some);
    }

    /** import_file */
    method ImportFile(file: seq<Byte>) returns (head: FileHeader)
      requires Valid() && |file| < 0x1_0000_0000
      modifies this`store
      ensures Valid() && Grew(old(store), store) && HeaderHolds(env, store, head, file)
      ensures FullCut(store, head.chunks, |file|)
    {
      var chunks: seq<ChunkRef>, chunk, r := [], Zeros(MAX_CHUNK), 0;
      while r < |file|
        invariant 0 <= r <= |file| && (r < |file| ==> |chunk| == MAX_CHUNK)
        invariant Valid() && Grew(old(store), store)
        invariant Spells(env, store, chunks, file[..r])
        invariant FullCut(store, chunks, r) && (r < |file| ==> r == MAX_CHUNK * |chunks|)
      {
        chunk, chunks, r := ImportNext(file, r, chunk, chunks);
      }
      assert file[..r] == file;
      head := FileHeader(|file|, chunks);
    }

    method DerandomizeData(seed: nat, data: seq<Byte>, offset: nat) returns (plain: seq<Byte>)
      ensures plain == Mask(data, env.gen, seed, offset)
    {
      var a := new Byte[|data|](i requires 0 <= i < |data| => data[i]);
      assert a[..] == data;
      Derandomize(a, env.gen, seed, offset);
      plain := a[..];
    }

    /** The export loop over a file header. */
    method ExportFile(head: FileHeader) returns (r: Result<seq<Byte>>)
      ensures r == Exported(env, store, head.chunks)
    {
      var chunks := head.chunks;
      var out: seq<Byte>, i := [], 0;
      while i < |chunks|
        invariant 0 <= i <= |chunks| && Exported(env, store, chunks[..i]) == Ok(out)
      {
        var c := ReadChunk(env.hash, store, chunks[i].id, 0, WHOLE_CHUNK);
        assert chunks[..i + 1][..i] == chunks[..i];
        if c.Err? {
          ExportStops(env, store, chunks, i + 1);
          return Err;
        }
        var plain := DerandomizeData(chunks[i].seed, c.value, 0);
        out := out + plain;
        i := i + 1;
      }
      assert chunks[..i] == chunks;
      return Ok(out);
    }

    /** get_resource on a reference. */
    method GetResource(ref: FileRef) returns (r: Result<seq<Byte>>)
      ensures r == Resource(env, store, ref)
    {
      var got := ReadChunk(env.hash, store, ref.chunk, ref.pos, ref.size);
      if got.Err? {
        return Err;
      }
      var plain := DerandomizeData(ref.seed, got.value, ref.pos);
      return Ok([ref.kind.Code()] + plain);
    }

    // ---------------------------------------------------------- packing a directory

    /** add_to_chunk: `buf` is what has been written to the chunk so far. */
    method AddToChunk(buf: seq<Byte>, dir: seq<Entry>, name: string, item: seq<Byte>, kind: Kind)
      returns (added: bool, buf': seq<Byte>, dir': seq<Entry>)
      requires |buf| <= MAX_CHUNK
      ensures added <==> MAX_CHUNK - |buf| > |item|
      ensures !added ==> buf' == buf && dir' == dir
      ensures added ==> |buf'| <= MAX_CHUNK && buf' == buf + item
      ensures added ==> dir' == dir + [Entry(name, FileRef(env.hash(item), NULL_ID, 0, |buf|, |item|, kind))]
    {
      if MAX_CHUNK - |buf| > |item| {
        var ref := FileRef(env.hash(item), NULL_ID, 0, |buf|, |item|, kind);
        return true, buf + item, dir + [Entry(name, ref)];
      }
      return false, buf, dir;
    }

    /** save_chunk: masks and stores the chunk, then points every reference without a chunk to it. */
    method SaveChunk(dir: seq<Entry>, buf: seq<Byte>, ghost before: Index, ghost children: seq<Named>,
                     ghost trace: seq<Lookup>)
      returns (dir': seq<Entry>)
      requires Valid() && |buf| <= MAX_CHUNK && Imported(env, store, buf, before, dir, children, trace)
      modifies this`store
      ensures Valid() && Grew(old(store), store)
      ensures Imported(env, store, [], before, dir', children, trace) && |dir'| == |dir|
    {
      var start: nat := *;
      var masked, seed := RandomizeData(buf, start);
      MaskTwice(buf, env.gen, seed, 0);
      var id := StoreMasked(masked, seed);
      dir' := PatchEntries(dir, id, seed);
      SavedIsImported(env, old(store), store, buf, id, seed, before, dir, children, trace);
    }

    method PatchEntries(dir: seq<Entry>, id: Id, seed: nat) returns (dir': seq<Entry>)
      ensures dir' == Patched(dir, id, seed)
    {
      dir' := dir;
      var i := 0;
      while i < |dir'|
        invariant 0 <= i <= |dir'| == |dir|
        invariant forall j :: 0 <= j < i ==> dir'[j] == Patched(dir, id, seed)[j]
        invariant forall j :: i <= j < |dir| ==> dir'[j] == dir[j]
      {
        if dir'[i].ref.chunk == NULL_ID {
          dir' := dir'[i := dir'[i].(ref := dir'[i].ref.(seed := seed, chunk := id))];
        }
        i := i + 1;
      }
    }

    /** One entry of the directory: reuse a known reference, or pack the item, rolling over to
        a fresh chunk when this one is full. */
    method AddItem(dir: seq<Entry>, buf: seq<Byte>, n: Named, item: seq<Byte>, ghost look: Lookup,
                   ghost before: Index, ghost children: seq<Named>, ghost trace: seq<Lookup>)
      returns (dir': seq<Entry>, buf': seq<Byte>)
      requires Valid() && |buf| <= MAX_CHUNK && Imported(env, store, buf, before, dir, children, trace)
      requires look.item == item && look.index == db && Made(env, store, After(before, trace), n, look)
      modifies this`store
      ensures Valid() && Grew(old(store), store) && |buf'| <= MAX_CHUNK
      ensures Imported(env, store, buf', before, dir', children + [n], trace + [look])
      ensures env.hash(item) in db ==>
                store == old(store) && buf' == buf && dir' == dir + [Entry(n.name, db[env.hash(item)])]
      ensures env.hash(item) !in db && |buf| + |item| < 4194304 ==> store == old(store) && buf' == buf + item
      ensures env.hash(item) !in db && |buf| + |item| >= 4194304 && |item| < 4194304 ==> buf' == item
    {
      var h := env.hash(item);
      if h in db {
        ReuseIsImported(env, store, buf, before, dir, children, trace, n, look);
        return dir + [Entry(n.name, db[h])], buf;
      }
      var added;
      added, buf', dir' := AddToChunk(buf, dir, n.name, item, KindOf(n));
      if added {
        PackIsImported(env, store, buf, before, dir, children, trace, n, look);
        return;
      }
      var saved := SaveChunk(dir, buf, before, children, trace);
      MadeGrows(env, old(store), store, After(before, trace), n, look);
      added, buf', dir' := AddToChunk([], saved, n.name, item, KindOf(n));
      if added {
        PackIsImported(env, store, [], before, saved, children, trace, n, look);
      } else {
        ImportedAppend(env, store, [], before, saved, children, trace, [], n, look);
        assert saved + [] == saved;
      }
    }

    /** The bytes to pack for a child: its own, or those of what it was imported as. */
    method MakeItem(n: Named) returns (item: seq<Byte>, ghost look: Lookup)
      requires Valid() && FilesFit(n.node)
      modifies this
      ensures Valid() && Grew(old(store), store) && IndexGrew(old(db), db)
      ensures look.item == item && look.index == db && Made(env, store, old(db), n, look)
      decreases Weight(Sub(n)), 2
    {
      if Visible(n) {
        var d;
        ghost var trace;
        d, trace := ImportDirectory(Sub(n));
        item := env.packDir(d);
        look := Lookup(item, db, d, trace);
        return;
      } else if n.node.File? {
        if |n.node.bytes| > IMBED_THRESHOLD {
          var head := ImportFile(n.node.bytes);
          item := env.packHeader(head);
        } else {
          item := n.node.bytes;
        }
      } else {
        item := [];
      }
      look := Lookup(item, db, [], []);
    }

    /** import_directory: the listing stands for the whole tree below, as the trace of what was
        packed and looked up says, and all its references are filed. */
    method ImportDirectory(children: seq<Named>) returns (dir: seq<Entry>, ghost trace: seq<Lookup>)
      requires Valid() && FilesFit(Dir(children))
      modifies this
      ensures Valid() && Grew(old(store), store) && IndexGrew(old(db), db)
      ensures Imported(env, store, [], old(db), dir, children, trace)
      ensures db == Filed(After(old(db), trace), dir)
      ensures forall i :: 0 <= i < |dir| ==> dir[i].ref.content in db
      decreases Weight(children), 1
    {
      dir, trace := ImportChildren(children);
      ImportedBacked(env, store, old(db), dir, children, trace);
      ghost var found := db;
      RecordRefs(dir);
      FilingKeepsGood(env, store, found, dir);
    }

    // after the last entry: what is in the chunk being filled is saved
    method SaveLast(dir: seq<Entry>, buf: seq<Byte>, ghost before: Index, ghost children: seq<Named>,
                    ghost trace: seq<Lookup>)
      returns (dir': seq<Entry>)
      requires Valid() && |buf| <= MAX_CHUNK && Imported(env, store, buf, before, dir, children, trace)
      modifies this`store
      ensures Valid() && Grew(old(store), store) && Imported(env, store, [], before, dir', children, trace)
    {
      if |buf| > 0 {
        dir' := SaveChunk(dir, buf, before, children, trace);
      } else {
        assert buf == [];
        dir' := dir;
      }
    }

    // the loop over a directory; the last turn saves the chunk being filled
    method ImportChildren(children: seq<Named>) returns (dir: seq<Entry>, ghost trace: seq<Lookup>)
      requires Valid() && FilesFit(Dir(children))
      modifies this
      ensures Valid() && Grew(old(store), store) && IndexGrew(old(db), db)
      ensures Imported(env, store, [], old(db), dir, children, trace) && After(old(db), trace) == db
      decreases Weight(children), 0
    {
      var buf: seq<Byte>, itr := [], 0;
      dir, trace := [], [];
      assert children[..0] == [];
      while itr < |children|
        invariant 0 <= itr <= |children| && |buf| <= MAX_CHUNK && (itr == |children| ==> buf == [])
        invariant Valid() && Grew(old(store), store) && IndexGrew(old(db), db)
        invariant Imported(env, store, buf, old(db), dir, children[..itr], trace) && After(old(db), trace) == db
      {
        WeightAt(children, itr);
        dir, buf, trace := ImportChild(children[itr], dir, buf, old(db), children[..itr], trace);
        assert children[..itr] + [children[itr]] == children[..itr + 1];
        itr := itr + 1;
        if itr == |children| {
          dir := SaveLast(dir, buf, old(db), children[..itr], trace);
          buf := [];
        }
      }
      assert children[..itr] == children;
    }

    // one turn of the loop over a directory
    method ImportChild(n: Named, dir: seq<Entry>, buf: seq<Byte>, ghost before: Index, ghost children: seq<Named>,
                       ghost trace: seq<Lookup>)
      returns (dir': seq<Entry>, buf': seq<Byte>, ghost trace': seq<Lookup>)
      requires Valid() && FilesFit(n.node) && After(before, trace) == db
      requires |buf| <= MAX_CHUNK && Imported(env, store, buf, before, dir, children, trace)
      modifies this
      ensures Valid() && Grew(old(store), store) && IndexGrew(old(db), db) && |buf'| <= MAX_CHUNK
      ensures Imported(env, store, buf', before, dir', children + [n], trace') && After(before, trace') == db
      decreases Weight(Sub(n)), 3
    {
      var item;
      ghost var look;
      item, look := MakeItem(n);
      ghost var mid := store;
      ImportedKept(env, old(store), mid, buf, before, dir, children, trace);
      dir', buf' := AddItem(dir, buf, n, item, look, before, children, trace);
      trace' := trace + [look];
    }

    /** Files every reference of the listing; a content already filed keeps its reference. */
    method RecordRefs(dir: seq<Entry>)
      modifies this`db
      ensures db == Filed(old(db), dir)
    {
      var i := 0;
      while i < |dir|
        invariant 0 <= i <= |dir| && db == Filed(old(db), dir[..i])
      {
        assert dir[..i + 1][..i] == dir[..i];
        if dir[i].ref.content !in db {
          db := db[dir[i].ref.content := dir[i].ref];
        }
        i := i + 1;
      }
      assert dir[..i] == dir;
    }

    /** Masks and stores one chunk of plain data. */
    method SaveData(data: seq<Byte>) returns (l: Link)
      requires Valid() && |data| <= MAX_CHUNK
      modifies this`store
      ensures Valid() && Grew(old(store), store) && HoldsWhole(env, store, l.id, l.seed, data)
      ensures FirstAccepted(data, env.gen, env.isRandom, env.seedOf(env.hash(data)), l.seed)
    {
      var masked, seed := RandomizeData(data, env.seedOf(env.hash(data)));
      MaskTwice(data, env.gen, seed, 0);
      var id := StoreMasked(masked, seed);
      return Link(id, seed);
    }

    /** import: a link to a chunk of one kind byte and the content.  A large file's packed
        header loses its last byte, since the buffer is cut without counting the kind byte. */
    method ImportPath(n: Named) returns (r: Result<Link>)
      requires Valid() && FilesFit(n.node)
      modifies this
      ensures Valid() && Grew(old(store), store) && IndexGrew(old(db), db)
      ensures match n.node
              case Other => r.Err?
              case File(bytes) =>
                if |bytes| <= 1048576 then Linked(env, store, r, [0] + bytes)
                else exists head :: HeaderHolds(env, store, head, bytes) &&
                       if |env.packHeader(head)| < MAX_CHUNK then Linked(env, store, r, CutHeader(env, head))
                       else r.Err?
              case Dir(children) =>
                exists d :: Finished(env, store, old(db), db, d, children) &&
                  if |env.packDir(d)| < MAX_CHUNK then Linked(env, store, r, [1] + env.packDir(d))
                  else r.Err?
    {
      match n.node {
        case Other =>
          return Err;
        case File(bytes) =>
          if |bytes| > IMBED_THRESHOLD {
            r := ImportLargeFile(bytes);
          } else {
            var l := SaveData([FileData.Code()] + bytes);
            return Ok(l);
          }
        case Dir(children) =>
          r := ImportTree(children);
      }
    }

    method ImportLargeFile(bytes: seq<Byte>) returns (r: Result<Link>)
      requires Valid() && |bytes| < 0x1_0000_0000
      modifies this`store
      ensures Valid() && Grew(old(store), store)
      ensures exists head :: HeaderHolds(env, store, head, bytes) &&
                if |env.packHeader(head)| < MAX_CHUNK then Linked(env, store, r, CutHeader(env, head)) else r.Err?
    {
      var head := ImportFile(bytes);
      if |env.packHeader(head)| > MAX_CHUNK - 1 {
        return Err;
      }
      ghost var before := store;
      var l := SaveData(CutHeader(env, head));
      AssembledGrows(env, before, store, head.chunks);
      assert HeaderHolds(env, store, head, bytes);
      return Ok(l);
    }

    method ImportTree(children: seq<Named>) returns (r: Result<Link>)
      requires Valid() && FilesFit(Dir(children))
      modifies this
      ensures Valid() && Grew(old(store), store) && IndexGrew(old(db), db)
      ensures exists d :: Finished(env, store, old(db), db, d, children) &&
                if |env.packDir(d)| < MAX_CHUNK then Linked(env, store, r, [1] + env.packDir(d))
                else r.Err?
    {
      var d;
      ghost var trace;
      d, trace := ImportDirectory(children);
      assert Finished(env, store, old(db), db, d, children);
      if |env.packDir(d)| > MAX_CHUNK - 1 {
        return Err;
      }
      ghost var mid := store;
      var l := SaveData([Directory.Code()] + env.packDir(d));
      FinishedGrows(env, mid, store, old(db), db, d, children);
      return Ok(l);
    }

    /** get_resource on a link: the whole chunk, unmasked. */
    method GetLinked(l: Link) returns (r: Result<seq<Byte>>)
      ensures r.Err? ==> GetChunk(env.hash, store, l.id, 0, WHOLE_CHUNK).Err?
      ensures Valid() ==> forall data :: HoldsWhole(env, store, l.id, l.seed, data) ==> r == Ok(data)
    {
      WholeReads(env, store, l.id);
      var got := ReadChunk(env.hash, store, l.id, 0, WHOLE_CHUNK);
      if got.Err? {
        return Err;
      }
      var plain := DerandomizeData(l.seed, got.value, 0);
      return Ok(plain);
    }
  }

  // the packed header of a large file as a chunk: the kind byte comes at the cost of the last byte
  function CutHeader(env: Env, head: FileHeader): (r: seq<Byte>)
    ensures |r| == |env.packHeader(head)|
    ensures r != [] ==> r == [2] + env.packHeader(head)[..|r| - 1]
  {
    var whole := [HeaderOfFile.Code()] + env.packHeader(head);
    whole[..|whole| - 1]
  }

  lemma WholeReads(env: Env, store: map<Id, Chunk>, id: Id)
    ensures Intact(env, store) && id in store ==> GetChunk(env.hash, store, id, 0, WHOLE_CHUNK) == Ok(store[id].data)
  {
    if Intact(env, store) && id in store {
      assert Well(env, id, store[id]);
      WholeRead(env.hash, store, id);
    }
  }

  lemma KeepsGood(env: Env, was: map<Id, Chunk>, now: map<Id, Chunk>, index: Index)
    requires Good(env, was, index) && Grew(was, now) && Intact(env, now)
    ensures Good(env, now, index)
  {
    forall h | h in index
      ensures index[h].content == h && Backed(env, now, index[h])
    {
      var item :| Resolves(env, was, [], index[h], item);
      assert Resolves(env, now, [], index[h], item);
    }
  }

  lemma FiledKeepsGood(env: Env, store: map<Id, Chunk>, index: Index, ref: FileRef)
    requires Good(env, store, index) && Backed(env, store, ref) && ref.content !in index
    ensures Good(env, store, index[ref.content := ref])
  {
  }

  lemma FiledContains(before: Index, after: Index, dir: seq<Entry>)
    requires dir != [] && before.Keys <= after.Keys && dir[|dir| - 1].ref.content in after
    requires var init := dir[..|dir| - 1]; forall i :: 0 <= i < |init| ==> init[i].ref.content in before
    ensures forall i :: 0 <= i < |dir| ==> dir[i].ref.content in after
  {
    forall i | 0 <= i < |dir| - 1
      ensures dir[i].ref.content in after
    {
      assert dir[..|dir| - 1][i] == dir[i];
    }
  }

  lemma {:induction false} FilingKeepsGood(env: Env, store: map<Id, Chunk>, index: Index, dir: seq<Entry>)
    requires Good(env, store, index) && AllBacked(env, store, dir)
    ensures Good(env, store, Filed(index, dir)) && IndexGrew(index, Filed(index, dir))
    ensures forall i :: 0 <= i < |dir| ==> dir[i].ref.content in Filed(index, dir)
  {
    if dir != [] {
      var k := |dir| - 1;
      var before := Filed(index, dir[..k]);
      FilingKeepsGood(env, store, index, dir[..k]);
      if dir[k].ref.content !in before {
        FiledKeepsGood(env, store, before, dir[k].ref);
      }
      FiledContains(before, Filed(index, dir), dir);
    }
  }

  lemma SavedIsImported(env: Env, was: map<Id, Chunk>, now: map<Id, Chunk>, buf: seq<Byte>, id: Id, seed: nat,
                        before: Index, dir: seq<Entry>, children: seq<Named>, trace: seq<Lookup>)
    requires Sound(env) && Intact(env, now) && Grew(was, now)
    requires Imported(env, was, buf, before, dir, children, trace) && HoldsWhole(env, now, id, seed, buf)
    ensures Imported(env, now, [], before, Patched(dir, id, seed), children, trace)
  {
    ImportedKept(env, was, now, buf, before, dir, children, trace);
    assert NULL_ID in now ==> Well(env, NULL_ID, now[NULL_ID]);
    ImportedPatched(env, now, buf, id, seed, before, dir, children, trace);
  }

  lemma ReuseIsImported(env: Env, store: map<Id, Chunk>, buf: seq<Byte>, before: Index, dir: seq<Entry>,
                        children: seq<Named>, trace: seq<Lookup>, n: Named, look: Lookup)
    requires Sound(env) && Good(env, store, look.index) && Known(env, look)
    requires Imported(env, store, buf, before, dir, children, trace) && Made(env, store, After(before, trace), n, look)
    ensures Imported(env, store, buf, before, dir + [Entry(n.name, look.index[env.hash(look.item)])],
                     children + [n], trace + [look])
  {
    var e := Entry(n.name, look.index[env.hash(look.item)]);
    KnownIsListed(env, store, n, look);
    ListedGrows(env, store, store, [], buf, e, n, look);
    assert [] + buf == buf;
    ImportedAppend(env, store, buf, before, dir, children, trace, [e], n, look);
  }

  lemma PackIsImported(env: Env, store: map<Id, Chunk>, buf: seq<Byte>, before: Index, dir: seq<Entry>,
                       children: seq<Named>, trace: seq<Lookup>, n: Named, look: Lookup)
    requires Imported(env, store, buf, before, dir, children, trace) && Made(env, store, After(before, trace), n, look)
    requires !Known(env, look) && |look.item| < MAX_CHUNK
    ensures var e := Entry(n.name, FileRef(env.hash(look.item), NULL_ID, 0, |buf|, |look.item|, KindOf(n)));
            Imported(env, store, buf + look.item, before, dir + [e], children + [n], trace + [look])
  {
    var e := Entry(n.name, FileRef(env.hash(look.item), NULL_ID, 0, |buf|, |look.item|, KindOf(n)));
    ImportedGrows(env, store, store, buf, look.item, before, dir, children, trace);
    assert (buf + look.item)[|buf|..|buf| + |look.item|] == look.item;
    ImportedAppend(env, store, buf + look.item, before, dir, children, trace, [e], n, look);
  }
}
