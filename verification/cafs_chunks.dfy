/** Chunks: a header listing hashed slices, and the bytes.  Reading any byte range checks
    the hash of every slice it touches. */
module CafsChunks {
  import opened CafsKeystream

  const MAX_CHUNK: nat := 4194304
  const SLICE_SIZE: nat := 65536
  const WHOLE_CHUNK: nat := 0xFFFF_FFFF

  type Id = nat
  type Hash = seq<Byte> -> Id

  datatype Slice = Slice(size: nat, hash: Id)
  datatype Chunk = Chunk(slices: seq<Slice>, data: seq<Byte>)
  datatype Result<T> = Ok(value: T) | Err

  ghost predicate Injective(hash: Hash) {
    forall a, b :: hash(a) == hash(b) ==> a == b
  }

  function Min(a: nat, b: nat): nat {
    if a < b then a else b
  }

  /** The slices of a chunk: 64K each, the last one shorter. */
  function Sliced(hash: Hash, data: seq<Byte>): seq<Slice>
    decreases |data|
  {
    if data == [] then [] else
      var s := Min(|data|, SLICE_SIZE);
      [Slice(s, hash(data[..s]))] + Sliced(hash, data[s..])
  }

  function Total(slices: seq<Slice>): nat {
    if slices == [] then 0 else slices[0].size + Total(slices[1..])
  }

  lemma {:induction false} SlicedTotal(hash: Hash, data: seq<Byte>)
    ensures Total(Sliced(hash, data)) == |data|
    decreases |data|
  {
    if data != [] {
      var s := Min(|data|, SLICE_SIZE);
      SlicedTotal(hash, data[s..]);
      assert Sliced(hash, data)[1..] == Sliced(hash, data[s..]);
    }
  }

  /** The header pins the bytes down. */
  lemma {:induction false} SlicesDetermineData(hash: Hash, a: seq<Byte>, b: seq<Byte>)
    requires Injective(hash) && Sliced(hash, a) == Sliced(hash, b)
    ensures a == b
    decreases |a|
  {
    if a != [] && b != [] {
      var s, t := Min(|a|, SLICE_SIZE), Min(|b|, SLICE_SIZE);
      var x, y := Sliced(hash, a), Sliced(hash, b);
      assert x[0] == Slice(s, hash(a[..s])) && y[0] == Slice(t, hash(b[..t]));
      assert x[1..] == Sliced(hash, a[s..]) && y[1..] == Sliced(hash, b[t..]);
      SlicesDetermineData(hash, a[s..], b[s..]);
      assert a == a[..s] + a[s..] && b == b[..s] + b[s..];
    }
  }

  /** slice_chunk */
  method SliceChunk(hash: Hash, data: seq<Byte>) returns (slices: seq<Slice>)
    ensures slices == Sliced(hash, data)
  {
    slices := [];
    var pos := 0;
    while pos < |data|
      invariant 0 <= pos <= |data|
      invariant slices + Sliced(hash, data[pos..]) == Sliced(hash, data)
    {
      var s := Min(|data| - pos, SLICE_SIZE);
      var rest := data[pos..];
      assert rest[s..] == data[pos + s..];
      assert rest[..s] == data[pos..pos + s];
      slices := slices + [Slice(s, hash(data[pos..pos + s]))];
      pos := pos + s;
    }
  }

  // ------------------------------------------------------------ reading

  function Zeros(n: nat): seq<Byte> {
    seq(n, _ => 0)
  }

  /** Reading n bytes into a zeroed buffer, short when the file ends early. */
  function ReadAhead(file: seq<Byte>, n: nat): (r: seq<Byte>)
    ensures |r| == n
  {
    if n <= |file| then file[..n] else file + Zeros(n - |file|)
  }

  function Skip(file: seq<Byte>, n: nat): (r: seq<Byte>) {
    file[Min(n, |file|)..]
  }

  /** The bytes of [pos, pos + size) that exist. */
  function Part(data: seq<Byte>, pos: nat, size: nat): (r: seq<Byte>)
    ensures pos + size <= |data| ==> r == data[pos..pos + size]
  {
    data[Min(pos, |data|)..Min(pos + size, |data|)]
  }

  /** What get_chunk copies out: `pos` is relative to the slices that are left. */
  function Gather(hash: Hash, slices: seq<Slice>, file: seq<Byte>, pos: nat, want: nat): (r: Result<seq<Byte>>)
    ensures r.Ok? ==> |r.value| <= want
    decreases |slices|
  {
    if slices == [] then Ok([]) else
      var s := slices[0].size;
      var tmp := ReadAhead(file, s);
      if pos < s then
        if hash(tmp) != slices[0].hash then Err else
          var n := Min(s - pos, want);
          if n == want then Ok(tmp[pos..pos + n]) else
            var rest := Gather(hash, slices[1..], Skip(file, s), 0, want - n);
            if rest.Ok? then Ok(tmp[pos..] + rest.value) else Err
      else if want == 0 then Ok([])
      else Gather(hash, slices[1..], Skip(file, s), pos - s, want)
  }

  /** get_chunk: the result is always as long as asked, zeros where the chunk ends. */
  function GetChunk(hash: Hash, store: map<Id, Chunk>, id: Id, pos: nat, size: nat): (r: Result<seq<Byte>>)
    ensures r.Ok? ==> id in store && |r.value| == (if size == WHOLE_CHUNK then Total(store[id].slices) else size)
  {
    if id !in store then Err else
      var n := if size == WHOLE_CHUNK then Total(store[id].slices) else size;
      var got := Gather(hash, store[id].slices, store[id].data, pos, n);
      if got.Ok? then Ok(got.value + Zeros(n - |got.value|)) else Err
  }

  // one step of Gather on the slices of known data
  lemma GatherStep(hash: Hash, data: seq<Byte>, file: seq<Byte>, pos: nat, want: nat)
    requires data != []
    ensures var s := Min(|data|, SLICE_SIZE);
            var tmp := ReadAhead(file, s);
            var g := Gather(hash, Sliced(hash, data), file, pos, want);
            && (pos < s && hash(tmp) != hash(data[..s]) ==> g == Err)
            && (pos < s && hash(tmp) == hash(data[..s]) && want <= s - pos ==> g == Ok(tmp[pos..pos + want]))
            && (pos < s && hash(tmp) == hash(data[..s]) && want > s - pos ==>
                  var rest := Gather(hash, Sliced(hash, data[s..]), Skip(file, s), 0, want - (s - pos));
                  g == if rest.Ok? then Ok(tmp[pos..] + rest.value) else Err)
            && (pos >= s && want > 0 ==>
                  g == Gather(hash, Sliced(hash, data[s..]), Skip(file, s), pos - s, want))
            && (pos >= s && want == 0 ==> g == Ok([]))
  {
    var s := Min(|data|, SLICE_SIZE);
    assert Sliced(hash, data)[1..] == Sliced(hash, data[s..]);
  }

  lemma PartStep(data: seq<Byte>, s: nat, pos: nat, want: nat)
    requires s <= |data|
    ensures pos >= s ==> Part(data, pos, want) == Part(data[s..], pos - s, want)
    ensures pos < s && want <= s - pos ==> Part(data, pos, want) == data[..s][pos..pos + want]
    ensures pos < s && want > s - pos ==>
              Part(data, pos, want) == data[..s][pos..] + Part(data[s..], 0, want - (s - pos))
  {
  }

  /** Whatever has happened to the bytes on disk, a read that succeeds returns the bytes the
      header was made from. */
  lemma {:induction false} ReadsAreGenuine(hash: Hash, data: seq<Byte>, file: seq<Byte>, pos: nat, want: nat)
    requires Injective(hash)
    ensures var g := Gather(hash, Sliced(hash, data), file, pos, want);
            g.Ok? ==> g.value == Part(data, pos, want)
    decreases |data|
  {
    if data != [] {
      var s := Min(|data|, SLICE_SIZE);
      GatherStep(hash, data, file, pos, want);
      PartStep(data, s, pos, want);
      if pos >= s {
        ReadsAreGenuine(hash, data[s..], Skip(file, s), pos - s, want);
      } else {
        ReadsAreGenuine(hash, data[s..], Skip(file, s), 0, if want > s - pos then want - (s - pos) else 0);
      }
    }
  }

  // slice k of the data: [SliceStart, SliceEnd)
  function SliceStart(k: nat): nat {
    65536 * k
  }

  function SliceEnd(data: seq<Byte>, k: nat): nat {
    Min(SliceStart(k + 1), |data|)
  }

  predicate Touched(length: nat, k: nat, pos: nat, want: nat) {
    SliceStart(k) < length && SliceStart(k) < pos + want && pos < SliceStart(k + 1) && pos < length
  }

  predicate SliceIntact(data: seq<Byte>, file: seq<Byte>, k: nat)
    requires SliceStart(k) < |data|
  {
    var from, to := SliceStart(k), SliceEnd(data, k);
    ReadAhead(Skip(file, from), to - from) == data[from..to]
  }

  ghost predicate TouchedIntact(data: seq<Byte>, file: seq<Byte>, pos: nat, want: nat) {
    forall k: nat :: Touched(|data|, k, pos, want) ==> SliceIntact(data, file, k)
  }

  // slice k of the data after the first slice is slice k + 1 of the data
  lemma NextTouched(length: nat, k: nat, pos: nat, want: nat)
    requires length > SLICE_SIZE && want > 0
    requires pos >= SLICE_SIZE || want > SLICE_SIZE - pos
    ensures Touched(length - SLICE_SIZE, k, Onward(pos), Lacking(pos, want)) <==> Touched(length, k + 1, pos, want)
  {
  }

  lemma NextIntact(data: seq<Byte>, file: seq<Byte>, k: nat)
    requires |data| > SLICE_SIZE && SliceStart(k) < |data| - SLICE_SIZE
    ensures SliceIntact(data[SLICE_SIZE..], Skip(file, SLICE_SIZE), k) <==> SliceIntact(data, file, k + 1)
  {
    var from, to := SliceStart(k), SliceEnd(data, k + 1);
    assert Skip(Skip(file, SLICE_SIZE), from) == Skip(file, from + SLICE_SIZE);
    assert data[SLICE_SIZE..][from..to - SLICE_SIZE] == data[from + SLICE_SIZE..to];
  }

  // position and length, relative to the data after the first slice
  function Onward(pos: nat): nat {
    if pos >= SLICE_SIZE then pos - SLICE_SIZE else 0
  }

  function Lacking(pos: nat, want: nat): nat
    requires pos >= SLICE_SIZE || want > SLICE_SIZE - pos
  {
    if pos >= SLICE_SIZE then want else want - (SLICE_SIZE - pos)
  }

  lemma TouchedAfterFirst(data: seq<Byte>, file: seq<Byte>, pos: nat, want: nat)
    requires |data| > SLICE_SIZE && want > 0
    requires pos >= SLICE_SIZE || want > SLICE_SIZE - pos
    ensures TouchedIntact(data, file, pos, want) <==>
            (pos < SLICE_SIZE ==> SliceIntact(data, file, 0)) &&
            TouchedIntact(data[SLICE_SIZE..], Skip(file, SLICE_SIZE), Onward(pos), Lacking(pos, want))
  {
    var rest, on, lack := data[SLICE_SIZE..], Onward(pos), Lacking(pos, want);
    assert pos < SLICE_SIZE ==> Touched(|data|, 0, pos, want);
    if TouchedIntact(data, file, pos, want) {
      forall k: nat | Touched(|rest|, k, on, lack)
        ensures SliceIntact(rest, Skip(file, SLICE_SIZE), k)
      {
        NextTouched(|data|, k, pos, want);
        NextIntact(data, file, k);
        assert Touched(|data|, k + 1, pos, want);
      }
    }
    if (pos < SLICE_SIZE ==> SliceIntact(data, file, 0)) && TouchedIntact(rest, Skip(file, SLICE_SIZE), on, lack) {
      forall k: nat | Touched(|data|, k, pos, want)
        ensures SliceIntact(data, file, k)
      {
        if k > 0 {
          NextTouched(|data|, k - 1, pos, want);
          NextIntact(data, file, k - 1);
          assert Touched(|rest|, k - 1, on, lack);
        }
      }
    }
  }

  lemma TouchedInFirst(data: seq<Byte>, file: seq<Byte>, pos: nat, want: nat)
    requires data != [] && want > 0
    requires |data| <= SLICE_SIZE || (pos < SLICE_SIZE && want <= SLICE_SIZE - pos)
    ensures TouchedIntact(data, file, pos, want) <==> (pos < |data| ==> SliceIntact(data, file, 0))
  {
    assert pos < |data| ==> Touched(|data|, 0, pos, want);
    forall k: nat | Touched(|data|, k, pos, want)
      ensures k == 0
    {
    }
  }

  lemma FirstSliceChecked(hash: Hash, data: seq<Byte>, file: seq<Byte>)
    requires Injective(hash) && data != []
    ensures var s := Min(|data|, SLICE_SIZE);
            hash(ReadAhead(file, s)) == hash(data[..s]) <==> SliceIntact(data, file, 0)
  {
    assert Skip(file, 0) == file;
  }

  /** A read of a non-empty range succeeds exactly when every slice it touches is intact. */
  lemma {:induction false} ReadSucceedsIff(hash: Hash, data: seq<Byte>, file: seq<Byte>, pos: nat, want: nat)
    requires Injective(hash) && want > 0
    ensures Gather(hash, Sliced(hash, data), file, pos, want).Ok? <==> TouchedIntact(data, file, pos, want)
    decreases |data|
  {
    if data != [] {
      var s := Min(|data|, SLICE_SIZE);
      GatherStep(hash, data, file, pos, want);
      FirstSliceChecked(hash, data, file);
      if |data| <= SLICE_SIZE {
        assert data[s..] == [];
        TouchedInFirst(data, file, pos, want);
      } else if pos < SLICE_SIZE && want <= SLICE_SIZE - pos {
        TouchedInFirst(data, file, pos, want);
      } else {
        TouchedAfterFirst(data, file, pos, want);
        ReadSucceedsIff(hash, data[s..], Skip(file, s), Onward(pos), Lacking(pos, want));
      }
    }
  }

  /** An intact chunk gives back exactly the range asked for. */
  lemma {:induction false} IntactReads(hash: Hash, data: seq<Byte>, pos: nat, want: nat)
    ensures Gather(hash, Sliced(hash, data), data, pos, want) == Ok(Part(data, pos, want))
    decreases |data|
  {
    if data != [] {
      var s := Min(|data|, SLICE_SIZE);
      GatherStep(hash, data, data, pos, want);
      PartStep(data, s, pos, want);
      if pos >= s {
        IntactReads(hash, data[s..], pos - s, want);
      } else if want > s - pos {
        IntactReads(hash, data[s..], 0, want - (s - pos));
      }
    }
  }

  /** The bytes of a stored, intact chunk after removing the keystream of `seed`. */
  function Plain(gen: Generator, c: Chunk, seed: nat): seq<Byte> {
    Mask(c.data, gen, seed, 0)
  }

  /** Reading a range and unmasking it at its own offset is the range of the whole chunk unmasked. */
  lemma RandomAccess(hash: Hash, gen: Generator, store: map<Id, Chunk>, id: Id, seed: nat, pos: nat, size: nat)
    requires id in store && store[id].slices == Sliced(hash, store[id].data)
    requires pos + size <= |store[id].data| && size != WHOLE_CHUNK
    ensures GetChunk(hash, store, id, pos, size) == Ok(store[id].data[pos..pos + size])
    ensures Mask(GetChunk(hash, store, id, pos, size).value, gen, seed, pos) ==
            Plain(gen, store[id], seed)[pos..pos + size]
  {
    var data := store[id].data;
    IntactReads(hash, data, pos, size);
    assert data[pos..pos + size] + Zeros(0) == data[pos..pos + size];
    MaskPart(data, gen, seed, pos, size);
  }

  lemma WholeRead(hash: Hash, store: map<Id, Chunk>, id: Id)
    requires id in store && store[id].slices == Sliced(hash, store[id].data)
    ensures GetChunk(hash, store, id, 0, WHOLE_CHUNK) == Ok(store[id].data)
  {
    var c := store[id];
    SlicedTotal(hash, c.data);
    IntactReads(hash, c.data, 0, |c.data|);
    WholePart(c.data);
    ChunkRead(hash, store, id, 0, WHOLE_CHUNK, |c.data|, c.data);
  }

  lemma ChunkRead(hash: Hash, store: map<Id, Chunk>, id: Id, pos: nat, size: nat, n: nat, got: seq<Byte>)
    requires id in store && n == if size == WHOLE_CHUNK then Total(store[id].slices) else size
    requires Gather(hash, store[id].slices, store[id].data, pos, n) == Ok(got)
    ensures |got| <= n && GetChunk(hash, store, id, pos, size) == Ok(got + Zeros(n - |got|))
  {
  }

  lemma WholePart(data: seq<Byte>)
    ensures Part(data, 0, |data|) == data && data + Zeros(0) == data
  {
  }

  // ------------------------------------------------------------ the reading loop

  function Prefixed(out: seq<Byte>, r: Result<seq<Byte>>): Result<seq<Byte>> {
    if r.Ok? then Ok(out + r.value) else Err
  }

  lemma PrefixedTwice(out: seq<Byte>, more: seq<Byte>, r: Result<seq<Byte>>)
    ensures Prefixed([], r) == r
    ensures Prefixed(out, Prefixed(more, r)) == Prefixed(out + more, r)
  {
    if r.Ok? {
      assert out + (more + r.value) == out + more + r.value;
      assert [] + r.value == r.value;
    }
  }

  /** What one slice adds to the read, `rel` being the position relative to its start. */
  function FromSlice(hash: Hash, slice: Slice, file: seq<Byte>, rel: nat, want: nat): (r: Result<seq<Byte>>)
    ensures r.Ok? ==> |r.value| == (if rel < slice.size then Min(slice.size - rel, want) else 0)
  {
    if rel >= slice.size then Ok([]) else
      var tmp := ReadAhead(file, slice.size);
      if hash(tmp) != slice.hash then Err else Ok(tmp[rel..rel + Min(slice.size - rel, want)])
  }

  lemma SliceTurn(hash: Hash, slices: seq<Slice>, file: seq<Byte>, rel: nat, want: nat)
    requires slices != []
    ensures var s := slices[0].size;
            var more := FromSlice(hash, slices[0], file, rel, want);
            var g := Gather(hash, slices, file, rel, want);
            if more.Err? then g == Err
            else if |more.value| == want then g == Ok(more.value)
            else g == Prefixed(more.value, Gather(hash, slices[1..], Skip(file, s),
                                                  if rel < s then 0 else rel - s, want - |more.value|))
  {
    var s := slices[0].size;
    var tmp := ReadAhead(file, s);
    if rel < s {
      assert tmp[rel..] == tmp[rel..s];
    } else {
      PrefixedTwice([], [], Gather(hash, slices[1..], Skip(file, s), rel - s, want));
    }
  }

  // SliceTurn after `out` has been copied already
  lemma LoopTurn(hash: Hash, slices: seq<Slice>, file: seq<Byte>, rel: nat, want: nat, out: seq<Byte>, more: seq<Byte>)
    requires slices != [] && FromSlice(hash, slices[0], file, rel, want) == Ok(more)
    ensures var s := slices[0].size;
            var g := Prefixed(out, Gather(hash, slices, file, rel, want));
            if |more| == want then g == Ok(out + more)
            else g == Prefixed(out + more, Gather(hash, slices[1..], Skip(file, s),
                                                  if rel < s then 0 else rel - s, want - |more|))
  {
    var s := slices[0].size;
    SliceTurn(hash, slices, file, rel, want);
    if |more| != want {
      PrefixedTwice(out, more, Gather(hash, slices[1..], Skip(file, s), if rel < s then 0 else rel - s, want - |more|));
    }
  }

  method ReadSlice(hash: Hash, slice: Slice, file: seq<Byte>, rel: nat, want: nat) returns (r: Result<seq<Byte>>)
    ensures r == FromSlice(hash, slice, file, rel, want)
  {
    if rel < slice.size {
      var tmp := ReadAhead(file, slice.size);
      if hash(tmp) != slice.hash {
        return Err;
      }
      return Ok(tmp[rel..rel + Min(slice.size - rel, want)]);
    }
    return Ok([]);
  }

  /** get_chunk's loop over the slices: `cpos` is where the current slice starts, `file` what
      is left to read, `out` what has been copied so far. */
  method ReadSlices(hash: Hash, slices: seq<Slice>, data: seq<Byte>, from: nat, s: nat) returns (r: Result<seq<Byte>>)
    ensures r == Gather(hash, slices, data, from, s)
  {
    var file, pos, cpos, out, i := data, from, 0, [], 0;
    ghost var goal := Gather(hash, slices, data, from, s);
    PrefixedTwice([], [], goal);
    assert slices[0..] == slices;
    while i < |slices|
      invariant 0 <= i <= |slices| && cpos <= pos && |out| <= s
      invariant goal == Prefixed(out, Gather(hash, slices[i..], file, pos - cpos, s - |out|))
    {
      var more := ReadSlice(hash, slices[i], file, pos - cpos, s - |out|);
      if more.Err? {
        SliceTurn(hash, slices[i..], file, pos - cpos, s - |out|);
        return Err;
      }
      LoopTurn(hash, slices[i..], file, pos - cpos, s - |out|, out, more.value);
      assert slices[i..][1..] == slices[i + 1..];
      out := out + more.value;
      pos := pos + |more.value|;
      file := Skip(file, slices[i].size);
      cpos := cpos + slices[i].size;
      i := i + 1;
      if |out| == s {
        return Ok(out);
      }
    }
    assert slices[i..] == [] && out + [] == out;
    return Ok(out);
  }

  /** get_chunk */
  method ReadChunk(hash: Hash, store: map<Id, Chunk>, id: Id, pos: nat, size: nat) returns (r: Result<seq<Byte>>)
    ensures r == GetChunk(hash, store, id, pos, size)
  {
    if id !in store {
      return Err;
    }
    var s := if size == WHOLE_CHUNK then Total(store[id].slices) else size;
    var got := ReadSlices(hash, store[id].slices, store[id].data, pos, s);
    if got.Err? {
      return Err;
    }
    return Ok(got.value + Zeros(s - |got.value|));
  }
}
