/** The keystream that chunks are XORed with: one 32-bit word stream per seed, applied a
    word at a time with a shorter last step, from any offset. */
module CafsKeystream {

  type Byte = bv8

  /** A 32-bit word as its four bytes in memory. */
  datatype Word = Word(b0: Byte, b1: Byte, b2: Byte, b3: Byte) {
    function At(i: nat): Byte
      requires i < 4
    {
      if i == 0 then b0 else if i == 1 then b1 else if i == 2 then b2 else b3
    }
  }

  // seed and index to word: what the generator started from that seed yields
  type Generator = (nat, nat) -> Word

  const SEEDS: nat := 0x1_0000_0000_0000_0000

  function StreamByte(gen: Generator, seed: nat, i: nat): Byte {
    gen(seed, i / 4).At(i % 4)
  }

  function Mix(a: Byte, k: Byte): Byte {
    a ^ k
  }

  /** Every byte XORed with the keystream, which starts `offset` bytes in. */
  function Mask(data: seq<Byte>, gen: Generator, seed: nat, offset: nat): seq<Byte> {
    seq(|data|, i requires 0 <= i < |data| => Mix(data[i], StreamByte(gen, seed, offset + i)))
  }

  /** Byte i is XORed with byte (offset + i) % 4 of word (offset + i) / 4 of the seed's stream. */
  lemma MaskAt(data: seq<Byte>, gen: Generator, seed: nat, offset: nat, i: nat)
    requires i < |data|
    ensures Mask(data, gen, seed, offset)[i] == data[i] ^ gen(seed, (offset + i) / 4).At((offset + i) % 4)
  {
  }

  /** Masking zeros shows the bare keystream. */
  lemma MaskZeros(data: seq<Byte>, gen: Generator, seed: nat, offset: nat, i: nat)
    requires i < |data| && data[i] == 0
    ensures Mask(data, gen, seed, offset)[i] == gen(seed, (offset + i) / 4).At((offset + i) % 4)
  {
    var k := gen(seed, (offset + i) / 4).At((offset + i) % 4);
    MaskAt(data, gen, seed, offset, i);
    assert 0 ^ k == k;
  }

  /** Two masked data differ bit by bit exactly where the data do. */
  lemma MaskDifference(a: seq<Byte>, b: seq<Byte>, gen: Generator, seed: nat, offset: nat, i: nat)
    requires i < |a| && i < |b|
    ensures Mask(a, gen, seed, offset)[i] ^ Mask(b, gen, seed, offset)[i] == a[i] ^ b[i]
  {
    var k := gen(seed, (offset + i) / 4).At((offset + i) % 4);
    MaskAt(a, gen, seed, offset, i);
    MaskAt(b, gen, seed, offset, i);
    XorCancels(a[i], b[i], k);
  }

  lemma XorCancels(x: Byte, y: Byte, k: Byte)
    ensures (x ^ k) ^ (y ^ k) == x ^ y
  {
  }

  /** The bytes of a word in memory order. */
  lemma WordBytes(w: Word)
    ensures [w.At(0), w.At(1), w.At(2), w.At(3)] == [w.b0, w.b1, w.b2, w.b3]
  {
  }

  ghost predicate IsMasked(out: seq<Byte>, data: seq<Byte>, gen: Generator, seed: nat, offset: nat) {
    && |out| == |data|
    && forall i :: 0 <= i < |out| ==> out[i] == data[i] ^ gen(seed, (offset + i) / 4).At((offset + i) % 4)
  }

  lemma MaskIsMasked(data: seq<Byte>, gen: Generator, seed: nat, offset: nat)
    ensures IsMasked(Mask(data, gen, seed, offset), data, gen, seed, offset)
  {
    var out := Mask(data, gen, seed, offset);
    forall i | 0 <= i < |out|
      ensures out[i] == data[i] ^ gen(seed, (offset + i) / 4).At((offset + i) % 4)
    {
      MaskAt(data, gen, seed, offset, i);
    }
  }

  lemma XorTwice(a: Byte, k: Byte)
    ensures Mix(Mix(a, k), k) == a
  {
  }

  /** Masking twice gives the data back. */
  lemma MaskTwice(data: seq<Byte>, gen: Generator, seed: nat, offset: nat)
    ensures Mask(Mask(data, gen, seed, offset), gen, seed, offset) == data
  {
    var m := Mask(data, gen, seed, offset);
    forall i | 0 <= i < |data|
      ensures Mask(m, gen, seed, offset)[i] == data[i]
    {
      XorTwice(data[i], StreamByte(gen, seed, offset + i));
    }
  }

  /** Masking a part at its own offset is the part of the whole masked. */
  lemma MaskPart(data: seq<Byte>, gen: Generator, seed: nat, pos: nat, size: nat)
    requires pos + size <= |data|
    ensures Mask(data[pos..pos + size], gen, seed, pos) == Mask(data, gen, seed, 0)[pos..pos + size]
  {
  }

  /** Random access: a part of a masked chunk, unmasked at its own position, is that part
      of the original, however position and size lie to the words of the keystream. */
  lemma UnmaskPart(data: seq<Byte>, gen: Generator, seed: nat, pos: nat, size: nat)
    requires pos + size <= |data|
    ensures Mask(Mask(data, gen, seed, 0)[pos..pos + size], gen, seed, pos) == data[pos..pos + size]
  {
    var masked := Mask(data, gen, seed, 0);
    MaskPart(masked, gen, seed, pos, size);
    MaskTwice(data, gen, seed, 0);
  }

  // ------------------------------------------------------------ word by word

  /** The buffer holds the keystream from its start, for `count` bytes. */
  ghost predicate HoldsStream(buf: array<Byte>, gen: Generator, seed: nat, count: nat)
    reads buf
  {
    count <= buf.Length && forall i :: 0 <= i < count ==> buf[i] == StreamByte(gen, seed, i)
  }

  method PutWord(buf: array<Byte>, gen: Generator, seed: nat, w: nat)
    requires 4 * w + 4 <= buf.Length && HoldsStream(buf, gen, seed, 4 * w)
    modifies buf
    ensures HoldsStream(buf, gen, seed, 4 * w + 4)
  {
    var x := gen(seed, w);
    var k := 0;
    while k < 4
      invariant 0 <= k <= 4 && HoldsStream(buf, gen, seed, 4 * w + k)
    {
      assert StreamByte(gen, seed, 4 * w + k) == x.At(k);
      buf[4 * w + k] := x.At(k);
      k := k + 1;
    }
  }

  // the generator writes whole words from the start of the buffer
  method Generate(buf: array<Byte>, gen: Generator, seed: nat, words: nat)
    requires 4 * words <= buf.Length
    modifies buf
    ensures HoldsStream(buf, gen, seed, 4 * words)
  {
    var w := 0;
    while w < words
      invariant 0 <= w <= words && HoldsStream(buf, gen, seed, 4 * w)
    {
      PutWord(buf, gen, seed, w);
      w := w + 1;
    }
  }

  /** The first `done` bytes are those of `was` masked, the rest untouched. */
  ghost predicate MaskedUpTo(now: seq<Byte>, was: seq<Byte>, gen: Generator, seed: nat, offset: nat, done: nat) {
    && |was| == |now|
    && (forall i :: 0 <= i < done && i < |now| ==> now[i] == Mix(was[i], StreamByte(gen, seed, offset + i)))
    && (forall i :: done <= i < |now| ==> now[i] == was[i])
  }

  lemma MaskedStep(now: seq<Byte>, was: seq<Byte>, gen: Generator, seed: nat, offset: nat, done: nat, key: Byte)
    requires MaskedUpTo(now, was, gen, seed, offset, done) && done < |now|
    requires key == StreamByte(gen, seed, offset + done)
    ensures MaskedUpTo(now[done := Mix(now[done], key)], was, gen, seed, offset, done + 1)
  {
  }

  // XORs the next `count` bytes with the keystream bytes that `tmp` holds for them
  method XorNext(data: array<Byte>, ghost was: seq<Byte>, tmp: array<Byte>, gen: Generator, seed: nat, offset: nat,
                 done: nat, count: nat)
    requires data != tmp && done + count <= data.Length && offset + done + count <= tmp.Length
    requires HoldsStream(tmp, gen, seed, offset + done + count) && MaskedUpTo(data[..], was, gen, seed, offset, done)
    modifies data
    ensures MaskedUpTo(data[..], was, gen, seed, offset, done + count)
  {
    var k := 0;
    while k < count
      invariant 0 <= k <= count && MaskedUpTo(data[..], was, gen, seed, offset, done + k)
    {
      var j := done + k;
      var key := tmp[offset + j];
      ghost var before := data[..];
      MaskedStep(before, was, gen, seed, offset, j, key);
      data[j] := Mix(data[j], key);
      assert data[..] == before[j := Mix(before[j], key)];
      k := k + 1;
    }
  }

  lemma AllMasked(now: seq<Byte>, was: seq<Byte>, gen: Generator, seed: nat, offset: nat)
    requires MaskedUpTo(now, was, gen, seed, offset, |now|)
    ensures now == Mask(was, gen, seed, offset)
  {
  }

  /** derandomize: unmasks a buffer in place, starting `offset` bytes into the stream. */
  method Derandomize(data: array<Byte>, gen: Generator, seed: nat, offset: nat)
    modifies data
    ensures data[..] == Mask(old(data[..]), gen, seed, offset)
    ensures IsMasked(data[..], old(data[..]), gen, seed, offset)
  {
    MaskIsMasked(data[..], gen, seed, offset);
    var size := data.Length;
    ghost var was := data[..];
    var tmp := new Byte[size + offset + 3](_ => 0);
    Generate(tmp, gen, seed, tmp.Length / 4);
    var end, src := size / 4, 0;
    while src < end
      invariant 0 <= src <= end && HoldsStream(tmp, gen, seed, offset + size)
      invariant MaskedUpTo(data[..], was, gen, seed, offset, 4 * src)
    {
      XorNext(data, was, tmp, gen, seed, offset, 4 * src, 4);
      src := src + 1;
    }
    var extra := size % 4;
    if extra != 0 {
      XorNext(data, was, tmp, gen, seed, offset, 4 * end, extra);
    }
    AllMasked(data[..], was, gen, seed, offset);
  }

  /** Masked data for `done` bytes and the bare keystream from there up to `held`. */
  ghost predicate FilledUpTo(tmp: seq<Byte>, data: seq<Byte>, gen: Generator, seed: nat, done: nat, held: nat) {
    && |data| == |tmp| && done <= held <= |tmp|
    && (forall i :: 0 <= i < done ==> tmp[i] == Mix(data[i], StreamByte(gen, seed, i)))
    && (forall i :: done <= i < held ==> tmp[i] == StreamByte(gen, seed, i))
  }

  lemma FilledStep(tmp: seq<Byte>, data: seq<Byte>, gen: Generator, seed: nat, done: nat, held: nat)
    requires FilledUpTo(tmp, data, gen, seed, done, held) && done < |tmp|
    ensures done < held ==> tmp[done] == StreamByte(gen, seed, done)
    ensures FilledUpTo(tmp[done := Mix(data[done], StreamByte(gen, seed, done))], data, gen, seed, done + 1,
                       if held == done then done + 1 else held)
  {
  }

  method XorWord(tmp: array<Byte>, data: array<Byte>, gen: Generator, seed: nat, done: nat, held: nat)
    requires tmp != data && data.Length == tmp.Length && done + 4 <= held
    requires FilledUpTo(tmp[..], data[..], gen, seed, done, held)
    modifies tmp
    ensures FilledUpTo(tmp[..], data[..], gen, seed, done + 4, held)
  {
    var k := 0;
    while k < 4
      invariant 0 <= k <= 4 && FilledUpTo(tmp[..], data[..], gen, seed, done + k, held)
    {
      var j := done + k;
      ghost var before := tmp[..];
      FilledStep(before, data[..], gen, seed, j, held);
      tmp[j] := Mix(data[j], tmp[j]);
      assert tmp[..] == before[j := Mix(data[j], before[j])];
      k := k + 1;
    }
  }

  // the bytes after the last whole word, with one more word from the generator
  method XorTail(tmp: array<Byte>, data: array<Byte>, gen: Generator, seed: nat, words: nat, extra: nat)
    requires tmp != data && data.Length == tmp.Length == 4 * words + extra && extra < 4
    requires FilledUpTo(tmp[..], data[..], gen, seed, 4 * words, 4 * words)
    modifies tmp
    ensures FilledUpTo(tmp[..], data[..], gen, seed, tmp.Length, tmp.Length)
  {
    var r := gen(seed, words);
    var k := 0;
    while k < extra
      invariant 0 <= k <= extra && FilledUpTo(tmp[..], data[..], gen, seed, 4 * words + k, 4 * words + k)
    {
      var j := 4 * words + k;
      ghost var before := tmp[..];
      FilledStep(before, data[..], gen, seed, j, j);
      assert StreamByte(gen, seed, j) == r.At(k);
      tmp[j] := Mix(data[j], r.At(k));
      assert tmp[..] == before[j := Mix(data[j], r.At(k))];
      k := k + 1;
    }
  }

  // one attempt of randomize: whole words first, then the word that covers the last bytes
  method MaskCopy(data: array<Byte>, gen: Generator, seed: nat) returns (tmp: array<Byte>)
    ensures fresh(tmp) && tmp[..] == Mask(data[..], gen, seed, 0)
  {
    var n := data.Length;
    tmp := new Byte[n](_ => 0);
    var end, src := n / 4, 0;
    if n > 3 {
      Generate(tmp, gen, seed, end);
      while src != end
        invariant 0 <= src <= end && FilledUpTo(tmp[..], data[..], gen, seed, 4 * src, 4 * end)
        decreases end - src
      {
        XorWord(tmp, data, gen, seed, 4 * src, 4 * end);
        src := src + 1;
      }
    }
    if n % 4 != 0 {
      XorTail(tmp, data, gen, seed, end, n % 4);
    }
    AllFilled(tmp[..], data[..], gen, seed);
  }

  lemma AllFilled(tmp: seq<Byte>, data: seq<Byte>, gen: Generator, seed: nat)
    requires FilledUpTo(tmp, data, gen, seed, |tmp|, |tmp|)
    ensures tmp == Mask(data, gen, seed, 0)
  {
  }

  predicate AcceptedAt(data: seq<Byte>, gen: Generator, isRandom: seq<Byte> -> bool, seed: nat, j: nat) {
    isRandom(Mask(data, gen, (seed + j) % SEEDS, 0))
  }

  // the seeds 1 to k - 1 past the given one were not accepted
  ghost predicate AllRejected(data: seq<Byte>, gen: Generator, isRandom: seq<Byte> -> bool, seed: nat, k: nat) {
    forall j :: 1 <= j < k ==> !AcceptedAt(data, gen, isRandom, seed, j)
  }

  ghost predicate FirstAccepted(data: seq<Byte>, gen: Generator, isRandom: seq<Byte> -> bool, seed: nat, used: nat) {
    exists k: nat :: k >= 1 && used == (seed + k) % SEEDS && AllRejected(data, gen, isRandom, seed, k)
  }

  // the loop over seeds
  method RetryLoop(data: array<Byte>, gen: Generator, isRandom: seq<Byte> -> bool, seed: nat, ghost tries: nat)
    returns (masked: array<Byte>, used: nat)
    requires 1 <= tries && AcceptedAt(data[..], gen, isRandom, seed, tries)
    ensures fresh(masked) && masked[..] == Mask(data[..], gen, used, 0) && isRandom(masked[..])
    ensures FirstAccepted(data[..], gen, isRandom, seed, used)
  {
    used := (seed + 1) % SEEDS;
    masked := MaskCopy(data, gen, used);
    ghost var k := 1;
    while !isRandom(masked[..])
      invariant 1 <= k <= tries && used == (seed + k) % SEEDS
      invariant fresh(masked) && masked[..] == Mask(data[..], gen, used, 0)
      invariant AllRejected(data[..], gen, isRandom, seed, k)
      decreases tries - k
    {
      assert !AcceptedAt(data[..], gen, isRandom, seed, k);
      used := (used + 1) % SEEDS;
      k := k + 1;
      masked := MaskCopy(data, gen, used);
    }
  }

  /** randomize: masks the data with the first acceptable keystream after `seed`.  The
      acceptance test is a statistic of the result; `tries` bounds how far it has to look. */
  method Randomize(data: array<Byte>, gen: Generator, isRandom: seq<Byte> -> bool, seed: nat, ghost tries: nat)
    returns (masked: array<Byte>, used: nat)
    requires 1 <= tries && AcceptedAt(data[..], gen, isRandom, seed, tries)
    ensures fresh(masked) && masked[..] == Mask(data[..], gen, used, 0) && isRandom(masked[..])
    ensures FirstAccepted(data[..], gen, isRandom, seed, used)
    ensures IsMasked(masked[..], data[..], gen, used, 0)
  {
    masked, used := RetryLoop(data, gen, isRandom, seed, tries);
    MaskIsMasked(data[..], gen, used, 0);
  }
}
