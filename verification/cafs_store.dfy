/** The chunk store: content addressed, never overwritten, and the files spread over it. */
module CafsStore {
  import opened CafsKeystream
  import opened CafsChunks

  const NULL_ID: Id := 0

  datatype Kind = FileData | Directory | HeaderOfFile | Unknown {
    function Code(): Byte {
      match this case FileData => 0 case Directory => 1 case HeaderOfFile => 2 case Unknown => 3
    }
  }

  datatype ChunkRef = ChunkRef(id: Id, seed: nat)
  datatype FileHeader = FileHeader(fileSize: nat, chunks: seq<ChunkRef>)
  datatype FileRef = FileRef(content: Id, chunk: Id, seed: nat, pos: nat, size: nat, kind: Kind)
  datatype Entry = Entry(name: string, ref: FileRef)

  /** What the store is built over: SHA-1, the id of a chunk header, the keystream generator,
      its acceptance test, the seed taken from a hash and the packed forms of the two records. */
  datatype Env = Env(
    hash: Hash,
    headerId: seq<Slice> -> Id,
    gen: Generator,
    isRandom: seq<Byte> -> bool,
    seedOf: Id -> nat,
    packHeader: FileHeader -> seq<Byte>,
    packDir: seq<Entry> -> seq<Byte>)

  predicate Accepted(env: Env, data: seq<Byte>, seed: nat, tries: nat) {
    tries >= 1 && AcceptedAt(data, env.gen, env.isRandom, seed, tries)
  }

  ghost predicate Settles(env: Env, data: seq<Byte>, seed: nat) {
    exists tries :: Accepted(env, data, seed, tries)
  }

  /** No two contents share a hash, no header has the null id, and some seed is acceptable. */
  ghost predicate Sound(env: Env) {
    && Injective(env.hash)
    && (forall a, b :: env.headerId(a) == env.headerId(b) ==> a == b)
    && (forall a :: env.headerId(a) != NULL_ID)
    && (forall data, seed :: Settles(env, data, seed))
  }

  predicate Well(env: Env, id: Id, c: Chunk) {
    id == env.headerId(c.slices) && c.slices == Sliced(env.hash, c.data) && |c.data| <= MAX_CHUNK
  }

  /** Every stored chunk is filed under its own header and agrees with it. */
  ghost predicate Intact(env: Env, store: map<Id, Chunk>) {
    forall id :: id in store ==> Well(env, id, store[id])
  }

  ghost predicate Grew(was: map<Id, Chunk>, now: map<Id, Chunk>) {
    forall id :: id in was ==> id in now && now[id] == was[id]
  }

  /** The chunk, unmasked with the seed, is the data. */
  predicate HoldsWhole(env: Env, store: map<Id, Chunk>, id: Id, seed: nat, data: seq<Byte>) {
    id in store && Plain(env.gen, store[id], seed) == data
  }

  // ------------------------------------------------------------ files over many chunks

  predicate AllStored(store: map<Id, Chunk>, chunks: seq<ChunkRef>) {
    forall i :: 0 <= i < |chunks| ==> chunks[i].id in store
  }

  /** The file that a list of chunks spells. */
  function Assembled(env: Env, store: map<Id, Chunk>, chunks: seq<ChunkRef>): seq<Byte>
    requires AllStored(store, chunks)
  {
    if chunks == [] then [] else
      var k := |chunks| - 1;
      Assembled(env, store, chunks[..k]) + Plain(env.gen, store[chunks[k].id], chunks[k].seed)
  }

  ghost predicate Spells(env: Env, store: map<Id, Chunk>, chunks: seq<ChunkRef>, data: seq<Byte>) {
    AllStored(store, chunks) && Assembled(env, store, chunks) == data
  }

  ghost predicate HeaderHolds(env: Env, store: map<Id, Chunk>, head: FileHeader, file: seq<Byte>) {
    head.fileSize == |file| && Spells(env, store, head.chunks, file)
  }

  /** The file is cut into chunks of four megabytes, the last one shorter. */
  predicate FullCut(store: map<Id, Chunk>, chunks: seq<ChunkRef>, size: nat) {
    if chunks == [] then size == 0 else
      var k := |chunks| - 1;
      && chunks[k].id in store && 1 <= |store[chunks[k].id].data| <= 4194304
      && size == 4194304 * k + |store[chunks[k].id].data| && FullCut(store, chunks[..k], 4194304 * k)
  }

  lemma {:induction false} FullCutGrows(was: map<Id, Chunk>, now: map<Id, Chunk>, chunks: seq<ChunkRef>, size: nat)
    requires Grew(was, now) && FullCut(was, chunks, size)
    ensures FullCut(now, chunks, size)
  {
    if chunks != [] {
      FullCutGrows(was, now, chunks[..|chunks| - 1], 4194304 * (|chunks| - 1));
    }
  }

  lemma FullCutMore(env: Env, was: map<Id, Chunk>, now: map<Id, Chunk>, chunks: seq<ChunkRef>, c: ChunkRef,
                    part: seq<Byte>)
    requires Grew(was, now) && FullCut(was, chunks, 4194304 * |chunks|) && HoldsWhole(env, now, c.id, c.seed, part)
    requires 1 <= |part| <= 4194304
    ensures FullCut(now, chunks + [c], 4194304 * |chunks| + |part|)
  {
    FullCutGrows(was, now, chunks, 4194304 * |chunks|);
    assert (chunks + [c])[..|chunks|] == chunks;
    assert |Plain(env.gen, now[c.id], c.seed)| == |now[c.id].data|;
  }

  lemma {:induction false} AssembledGrows(env: Env, was: map<Id, Chunk>, now: map<Id, Chunk>, chunks: seq<ChunkRef>)
    requires Grew(was, now) && AllStored(was, chunks)
    ensures AllStored(now, chunks) && Assembled(env, now, chunks) == Assembled(env, was, chunks)
  {
    if chunks != [] {
      var k := |chunks| - 1;
      AssembledGrows(env, was, now, chunks[..k]);
      assert chunks[k].id in was;
    }
  }

  lemma SpellsMore(env: Env, was: map<Id, Chunk>, now: map<Id, Chunk>, chunks: seq<ChunkRef>, c: ChunkRef,
                   data: seq<Byte>, part: seq<Byte>)
    requires Grew(was, now) && Spells(env, was, chunks, data) && HoldsWhole(env, now, c.id, c.seed, part)
    ensures Spells(env, now, chunks + [c], data + part)
  {
    AssembledGrows(env, was, now, chunks);
    assert (chunks + [c])[..|chunks|] == chunks;
  }

  /** The export loop: each chunk whole, unmasked, one after the other. */
  function Exported(env: Env, store: map<Id, Chunk>, chunks: seq<ChunkRef>): Result<seq<Byte>> {
    if chunks == [] then Ok([]) else
      var k := |chunks| - 1;
      var before := Exported(env, store, chunks[..k]);
      var last := GetChunk(env.hash, store, chunks[k].id, 0, WHOLE_CHUNK);
      if before.Err? || last.Err? then Err
      else Ok(before.value + Mask(last.value, env.gen, chunks[k].seed, 0))
  }

  lemma AllStoredUpTo(store: map<Id, Chunk>, chunks: seq<ChunkRef>)
    requires chunks != []
    ensures AllStored(store, chunks) <==> AllStored(store, chunks[..|chunks| - 1]) && chunks[|chunks| - 1].id in store
  {
  }

  /** Export gives the assembled file, and fails exactly when a chunk is missing. */
  lemma {:induction false} ExportAssembles(env: Env, store: map<Id, Chunk>, chunks: seq<ChunkRef>)
    requires Intact(env, store)
    ensures Exported(env, store, chunks).Ok? <==> AllStored(store, chunks)
    ensures AllStored(store, chunks) ==> Exported(env, store, chunks) == Ok(Assembled(env, store, chunks))
  {
    if chunks != [] {
      var k := |chunks| - 1;
      var before, id := chunks[..k], chunks[k].id;
      ExportAssembles(env, store, before);
      if id in store {
        assert Well(env, id, store[id]);
        WholeRead(env.hash, store, id);
        AllStoredUpTo(store, chunks);
      }
    }
  }

  /** Exporting the header of an imported file reproduces the file. */
  lemma ExportReturnsFile(env: Env, store: map<Id, Chunk>, head: FileHeader, file: seq<Byte>)
    requires Intact(env, store) && HeaderHolds(env, store, head, file)
    ensures Exported(env, store, head.chunks) == Ok(file)
  {
    ExportAssembles(env, store, head.chunks);
  }

  /** A failed read before the end of the loop fails the export. */
  lemma {:induction false} ExportStops(env: Env, store: map<Id, Chunk>, chunks: seq<ChunkRef>, i: nat)
    requires i <= |chunks| && Exported(env, store, chunks[..i]).Err?
    ensures Exported(env, store, chunks).Err?
    decreases |chunks|
  {
    if i < |chunks| {
      var k := |chunks| - 1;
      assert chunks[..k][..i] == chunks[..i];
      ExportStops(env, store, chunks[..k], i);
    } else {
      assert chunks[..i] == chunks;
    }
  }

  // ------------------------------------------------------------ the 32-bit file counter

  // 32-bit addition
  function Wrap32(n: nat): (r: nat)
    ensures n < 0x1_0000_0000 ==> r == n
  {
    n % 0x1_0000_0000
  }

  /** import_file's position in the file, kept in 32 bits, after n turns of its loop. */
  function Counter(fileSize: nat, n: nat): nat {
    if n == 0 then 0 else
      var r := Counter(fileSize, n - 1);
      if r < fileSize then Wrap32(r + Min(MAX_CHUNK, fileSize - r)) else r
  }

  lemma {:induction false} CounterSmall(fileSize: nat, n: nat)
    requires fileSize < 0x1_0000_0000
    ensures Counter(fileSize, n) == Min(MAX_CHUNK * n, fileSize)
  {
    if n > 0 {
      CounterSmall(fileSize, n - 1);
    }
  }

  lemma {:induction false} CounterLarge(fileSize: nat, n: nat)
    requires fileSize >= 0x1_0000_0000
    ensures Counter(fileSize, n) < fileSize
  {
    if n > 0 {
      CounterLarge(fileSize, n - 1);
    }
  }

  /** The import loop ends exactly for files shorter than 2^32 bytes. */
  lemma ImportEndsIff(fileSize: nat)
    ensures (exists n :: Counter(fileSize, n) >= fileSize) <==> fileSize < 0x1_0000_0000
  {
    if fileSize < 0x1_0000_0000 {
      CounterSmall(fileSize, fileSize);
      assert Counter(fileSize, fileSize) >= fileSize;
    } else {
      forall n: nat
        ensures Counter(fileSize, n) < fileSize
      {
        CounterLarge(fileSize, n);
      }
    }
  }

  // ------------------------------------------------------------ references into chunks

  /** The bytes at the reference's place in its chunk are the item. */
  predicate Holds(env: Env, store: map<Id, Chunk>, ref: FileRef, item: seq<Byte>) {
    && ref.chunk in store && ref.pos + |item| <= |store[ref.chunk].data|
    && Plain(env.gen, store[ref.chunk], ref.seed)[ref.pos..ref.pos + |item|] == item
  }

  /** get_resource on a reference: the kind, then the bytes. */
  function Resource(env: Env, store: map<Id, Chunk>, ref: FileRef): Result<seq<Byte>> {
    var got := GetChunk(env.hash, store, ref.chunk, ref.pos, ref.size);
    if got.Err? then Err else Ok([ref.kind.Code()] + Mask(got.value, env.gen, ref.seed, ref.pos))
  }

  lemma ResourceOfHeld(env: Env, store: map<Id, Chunk>, ref: FileRef, item: seq<Byte>)
    requires Intact(env, store) && Holds(env, store, ref, item) && ref.size == |item|
    ensures Resource(env, store, ref) == Ok([ref.kind.Code()] + item)
  {
    assert Well(env, ref.chunk, store[ref.chunk]);
    RandomAccess(env.hash, env.gen, store, ref.chunk, ref.seed, ref.pos, ref.size);
  }
}
