/** The incremental hasher, proved against `Fips180` for every way of cutting a message into updates. */
module Sha256 {
  import opened MavlinkLog
  import opened Fips180
  import opened Triggers

  datatype Option<T> = None | Some(value: T)

  const U64: nat := 0x1_0000_0000_0000_0000

  // ---- Padding ----

  /** `n >> (8 * i)` */
  function ShiftRight8(n: nat, i: nat): nat {
    if i == 0 then n else ShiftRight8(n / 256, i - 1)
  }

  /** The length bytes in the order the source emits them are the big-endian field. */
  lemma {:induction false} BigEndianAt(n: nat, count: nat, i: nat)
    requires i < count
    ensures BigEndian(n, count)[count - 1 - i] == LowByte(ShiftRight8(n, i))
  {
    if i > 0 {
      BigEndianAt(n / 256, count - 1, i - 1);
    }
  }

  function Pow256(count: nat): nat {
    if count == 0 then 1 else 256 * Pow256(count - 1)
  }

  /** A big-endian field only sees its value modulo its range. */
  lemma {:induction false} BigEndianWraps(n: nat, q: nat, count: nat)
    ensures BigEndian(n + q * Pow256(count), count) == BigEndian(n, count)
  {
    if count > 0 {
      var p := q * Pow256(count - 1);
      assert q * Pow256(count) == 256 * p;
      assert (n + 256 * p) / 256 == n / 256 + p;
      BigEndianWraps(n / 256, q, count - 1);
    }
  }

  /** The 64-bit counter, wrapped `wraps` times, still yields the padding's length field. */
  lemma {:induction false} LengthField(counter: nat, wraps: nat, length: nat)
    requires counter < U64 && counter + U64 * wraps == length
    ensures BigEndian(counter * 8 % U64, LENGTH_BYTES) == BigEndian(8 * length, LENGTH_BYTES)
  {
    var low := counter * 8 % U64;
    var q := 8 * wraps + counter * 8 / U64;
    assert 8 * length == low + q * U64;
    assert Pow256(LENGTH_BYTES) == U64;
    BigEndianWraps(low, q, LENGTH_BYTES);
  }

  /** Padding adds one block when the tail leaves nine bytes free, two otherwise. */
  lemma {:induction false} PadBlocks(m: seq<byte>)
    ensures |Pad(m)| == |m| - |m| % BLOCK + if |m| % BLOCK < 56 then BLOCK else 2 * BLOCK
  {
    ZeroCountValue(|m|);
  }

  lemma {:induction false} ZeroCountValue(length: nat)
    ensures ZeroCount(length) == if length % BLOCK < 56 then 55 - length % BLOCK else 119 - length % BLOCK
  {
  }

  /** No fewer zero bytes would do. */
  lemma {:induction false} ZeroCountLeast(length: nat, j: nat)
    requires (length + 1 + j) % BLOCK == 56
    ensures ZeroCount(length) <= j
  {
  }

  lemma {:induction false} NotYetPadded(length: nat, zeros: nat, blocks: nat, tail: nat)
    requires tail < BLOCK && length + 1 + zeros == BLOCK * blocks + tail
    requires zeros <= ZeroCount(length)
    ensures tail != 56 ==> zeros < ZeroCount(length)
    ensures tail == 56 ==> zeros == ZeroCount(length)
  {
    if tail == 56 {
      ZeroCountLeast(length, zeros);
    }
  }

  lemma {:induction false} NoTail(blocks: nat, tail: nat)
    requires (BLOCK * blocks + tail) % BLOCK == 0 && tail < BLOCK
    ensures tail == 0
  {
  }

  /** Padding is unambiguous: the marker byte tells where the message ends. */
  lemma {:induction false} PadInjective(a: seq<byte>, b: seq<byte>)
    requires Pad(a) == Pad(b)
    ensures a == b
  {
    if |a| < |b| {
      PadAt(a, b);
    } else if |b| < |a| {
      PadAt(b, a);
    } else {
      assert Pad(a)[..|a|] == a && Pad(b)[..|b|] == b;
    }
  }

  lemma {:induction false} PadAt(a: seq<byte>, b: seq<byte>)
    requires |a| < |b| && |Pad(a)| == |Pad(b)|
    ensures |b| < |Pad(a)| && Pad(a)[|b|] == 0 && Pad(b)[|b|] == 0x80
  {
  }

  // ---- Hex text ----

  function HexDigit(n: byte): char {
    if n == 0 then '0' else if n == 1 then '1' else if n == 2 then '2' else if n == 3 then '3'
    else if n == 4 then '4' else if n == 5 then '5' else if n == 6 then '6' else if n == 7 then '7'
    else if n == 8 then '8' else if n == 9 then '9' else if n == 10 then 'a' else if n == 11 then 'b'
    else if n == 12 then 'c' else if n == 13 then 'd' else if n == 14 then 'e' else 'f'
  }

  /** Two lower-case digits per byte. */
  function ToHex(bytes: seq<byte>): (s: string)
    ensures |s| == 2 * |bytes|
  {
    if bytes == [] then "" else
    ToHex(bytes[..|bytes| - 1]) + [HexDigit(bytes[|bytes| - 1] >> 4), HexDigit(bytes[|bytes| - 1] & 15)]
  }

  lemma {:induction false} HexDigitInjective(x: byte, y: byte)
    requires x <= 15 && y <= 15 && HexDigit(x) == HexDigit(y)
    ensures x == y
  {
  }

  lemma {:induction false} Nibbles(x: byte, y: byte)
    ensures x >> 4 <= 15 && x & 15 <= 15
    ensures x >> 4 == y >> 4 && x & 15 == y & 15 ==> x == y
  {
  }

  lemma {:induction false} HexPair(x: byte, y: byte)
    requires HexDigit(x >> 4) == HexDigit(y >> 4) && HexDigit(x & 15) == HexDigit(y & 15)
    ensures x == y
  {
    Nibbles(x, y);
    Nibbles(y, x);
    HexDigitInjective(x >> 4, y >> 4);
    HexDigitInjective(x & 15, y & 15);
  }

  /** Comparing hex texts compares the bytes. */
  lemma {:induction false} ToHexInjective(a: seq<byte>, b: seq<byte>)
    requires ToHex(a) == ToHex(b)
    ensures a == b
  {
    if a != [] {
      var s, t := ToHex(a), ToHex(b);
      var x, y := a[|a| - 1], b[|b| - 1];
      assert s[|s| - 2] == t[|t| - 2] && s[|s| - 1] == t[|t| - 1];
      assert s[..|s| - 2] == ToHex(a[..|a| - 1]) && t[..|t| - 2] == ToHex(b[..|b| - 1]);
      HexPair(x, y);
      ToHexInjective(a[..|a| - 1], b[..|b| - 1]);
      assert a == a[..|a| - 1] + [x] && b == b[..|b| - 1] + [y];
    }
  }

  /** The text the service stores and compares. */
  function HexDigest(m: seq<byte>): string {
    ToHex(Digest(m))
  }

  // ---- Relations that keep the standard's functions folded until they are asked for ----

  /** `v` is the hash value after all blocks of `m`. */
  ghost predicate Chaining(v: Vars, m: seq<byte>) {
    forall x {:trigger Unfold(x)} :: Unfold(x) && x == m ==> |x| % BLOCK == 0 && v == Absorb(x)
  }

  lemma {:induction false} ChainingMeans(v: Vars, m: seq<byte>)
    ensures Chaining(v, m) <==> |m| % BLOCK == 0 && v == Absorb(m)
  {
    assert Unfold(m);
  }

  /** `after` is what compressing `block` into `before` yields. */
  ghost predicate Compressed(after: Vars, before: Vars, block: Block) {
    forall x: Block {:trigger Unfold(x)} :: Unfold(x) && x == block ==> after == Compress(before, x)
  }

  lemma {:induction false} CompressedBy(start: Vars, block: Block, w: seq<Word>, v: Vars)
    requires w == Schedule(block, ROUNDS) && v == Rounds(start, K, w, |K|)
    ensures Compressed(AddVars(start, v), start, block)
  {
  }

  lemma {:induction false} ChainingStep(v: Vars, m: seq<byte>, after: Vars, block: Block)
    requires Chaining(v, m) && Compressed(after, v, block)
    ensures Chaining(after, m + block)
  {
    assert Unfold(m) && Unfold(block);
    var all := m + block;
    assert all[..|all| - BLOCK] == m && all[|all| - BLOCK..] == block;
  }

  /** `hex` is the text of the SHA-256 digest of `m`. */
  ghost predicate IsHexDigest(hex: string, m: seq<byte>) {
    forall x {:trigger Unfold(x)} :: Unfold(x) && x == m ==> hex == HexDigest(x)
  }

  lemma {:induction false} IsHexDigestMeans(hex: string, m: seq<byte>)
    ensures IsHexDigest(hex, m) <==> hex == HexDigest(m)
  {
    assert Unfold(m);
  }

  lemma {:induction false} FinishDigest(v: Vars, m: seq<byte>)
    requires Chaining(v, Pad(m))
    ensures IsHexDigest(ToHex(VarsBytes(v)), m)
  {
    ChainingMeans(v, Pad(m));
    IsHexDigestMeans(ToHex(VarsBytes(v)), m);
  }

  // ---- The hasher ----

  /** The eight state words of a hasher. */
  ghost function VarsOf(state: array<Word>): Vars
    requires state.Length == 8
    reads state
  {
    Vars(state[0], state[1], state[2], state[3], state[4], state[5], state[6], state[7])
  }

  /** The compression function over arrays: the schedule loop and the 64 rounds. */
  method Transform(state: array<Word>, block: Block)
    requires state.Length == 8
    modifies state
    ensures Compressed(VarsOf(state), old(VarsOf(state)), block)
  {
    var w := BuildSchedule(block);
    var start := Vars(state[0], state[1], state[2], state[3], state[4], state[5], state[6], state[7]);
    var v := RunRounds(start, K, w);
    CompressedBy(start, block, w, v);
    AddToState(state, v);
  }

  method AddToState(state: array<Word>, v: Vars)
    requires state.Length == 8
    modifies state
    ensures VarsOf(state) == AddVars(old(VarsOf(state)), v)
  {
    state[0] := Add(state[0], v.a);
    state[1] := Add(state[1], v.b);
    state[2] := Add(state[2], v.c);
    state[3] := Add(state[3], v.d);
    state[4] := Add(state[4], v.e);
    state[5] := Add(state[5], v.f);
    state[6] := Add(state[6], v.g);
    state[7] := Add(state[7], v.h);
  }

  /** The 64 rounds on the eight working variables. */
  method RunRounds(start: Vars, k: seq<Word>, w: seq<Word>) returns (r: Vars)
    requires |w| == |k|
    ensures r == Rounds(start, k, w, |k|)
  {
    var a, b, c, d := start.a, start.b, start.c, start.d;
    var e, f, g, h := start.e, start.f, start.g, start.h;
    for i := 0 to |k|
      invariant Vars(a, b, c, d, e, f, g, h) == Rounds(start, k, w, i)
    {
      var t1 := Add(Add(Add(Add(h, BigSigma1(e)), Ch(e, f, g)), k[i]), w[i]);
      var t2 := Add(BigSigma0(a), Maj(a, b, c));
      h := g;
      g := f;
      f := e;
      e := Add(d, t1);
      d := c;
      c := b;
      b := a;
      a := Add(t1, t2);
    }
    r := Vars(a, b, c, d, e, f, g, h);
  }

  method BuildSchedule(block: Block) returns (w: seq<Word>)
    ensures w == Schedule(block, ROUNDS)
  {
    var words := new Word[ROUNDS];
    for i := 0 to 16
      invariant words[..i] == Schedule(block, i)
    {
      words[i] := WordAt(block, i);
    }
    for i := 16 to ROUNDS
      invariant words[..i] == Schedule(block, i)
    {
      ghost var before := words[..i];
      words[i] := ScheduleWord(words[i - 2], words[i - 7], words[i - 15], words[i - 16]);
      assert words[..i + 1] == before + [words[i]];
    }
    w := words[..];
    assert words[..ROUNDS] == words[..];
  }

  function Joined(pieces: seq<seq<byte>>): seq<byte> {
    if pieces == [] then [] else Joined(pieces[..|pieces| - 1]) + pieces[|pieces| - 1]
  }

  class Sha256 {
    const state: array<Word>
    const buffer: array<byte>
    var totalBytes: nat
    var bufferLen: nat
    var finalized: bool
    /** Everything fed so far: whole blocks, and the rest that waits in the buffer. */
    ghost var whole: seq<byte>
    ghost var tail: seq<byte>
    /** The hash value after `whole`, mirrored in the state words. */
    ghost var hash: Vars
    /** The number of whole blocks, and how often the byte counter wrapped around. */
    ghost var blocks: nat
    ghost var wraps: nat

    ghost function Fed(): seq<byte>
      reads this
    {
      whole + tail
    }

    ghost predicate Valid()
      reads this, state, buffer
    {
      Filling() && bufferLen < BLOCK
    }

    constructor ()
      ensures Valid() && Fed() == [] && !finalized && fresh(state) && fresh(buffer)
    {
      state := new Word[8] [0x6a09e667, 0xbb67ae85, 0x3c6ef372, 0xa54ff53a,
                            0x510e527f, 0x9b05688c, 0x1f83d9ab, 0x5be0cd19];
      buffer := new byte[BLOCK](_ => 0);
      totalBytes, bufferLen, finalized := 0, 0, false;
      whole, tail, hash, blocks, wraps := [], [], INITIAL, 0, 0;
      new;
      ChainingMeans(INITIAL, []);
    }

    /** The field-by-field copy behind `clone`. */
    constructor Copy(from: Sha256)
      requires from.Valid()
      ensures Valid() && Fed() == from.Fed() && finalized == from.finalized && fresh(state) && fresh(buffer)
    {
      var words, bytes := from.state[..], from.buffer[..];
      state := new Word[8](i requires 0 <= i < 8 => words[i]);
      buffer := new byte[BLOCK](i requires 0 <= i < BLOCK => bytes[i]);
      totalBytes, bufferLen, finalized := from.totalBytes, from.bufferLen, from.finalized;
      whole, tail, hash, blocks, wraps := from.whole, from.tail, from.hash, from.blocks, from.wraps;
      new;
      assert buffer[..bufferLen] == from.buffer[..bufferLen];
    }

    /** Fails, changing nothing, on a finalized context. */
    method Update(data: seq<byte>) returns (ok: bool)
      requires Valid()
      modifies this, state, buffer
      ensures Valid() && finalized == old(finalized) && ok == !finalized
      ensures Fed() == if ok then old(Fed()) + data else old(Fed())
    {
      if finalized {
        return false;
      }
      for i := 0 to |data|
        invariant Valid() && !finalized && Fed() == old(Fed()) + data[..i]
      {
        UpdateByte(data[i]);
        assert data[..i + 1] == data[..i] + [data[i]];
      }
      assert data[..|data|] == data;
      ok := true;
    }

    /** The loop body of `update`. */
    method UpdateByte(b: byte)
      requires Valid()
      modifies this, state, buffer
      ensures Valid() && finalized == old(finalized) && Fed() == old(Fed()) + [b]
    {
      StoreByte(b);
      if bufferLen == BLOCK {
        FlushBlock();
      }
    }

    /** Everything `Valid` says, but the buffer may just have become full. */
    ghost predicate Filling()
      reads this, state, buffer
    {
      && state.Length == 8 && buffer.Length == BLOCK
      && |whole| == BLOCK * blocks && Chaining(hash, whole) && VarsOf(state) == hash
      && |tail| == bufferLen <= BLOCK && buffer[..bufferLen] == tail
      && totalBytes < U64 && totalBytes + U64 * wraps == |whole| + |tail|
    }

    method StoreByte(b: byte)
      requires Filling() && bufferLen < BLOCK
      modifies this, buffer
      ensures Filling() && finalized == old(finalized) && Fed() == old(Fed()) + [b]
    {
      CountByte();
      PutByte(b);
    }

    method PutByte(b: byte)
      requires buffer.Length == BLOCK && |tail| == bufferLen < BLOCK && buffer[..bufferLen] == tail
      modifies this`bufferLen, this`tail, buffer
      ensures bufferLen == old(bufferLen) + 1 && tail == old(tail) + [b] && buffer[..bufferLen] == tail
    {
      buffer[bufferLen] := b;
      bufferLen, tail := bufferLen + 1, tail + [b];
    }

    /** `++total_bytes_` on 64 bits. */
    method CountByte()
      requires totalBytes < U64
      modifies this`totalBytes, this`wraps
      ensures totalBytes < U64 && totalBytes + U64 * wraps == old(totalBytes + U64 * wraps) + 1
    {
      if totalBytes + 1 == U64 {
        wraps := wraps + 1;
      }
      totalBytes := (totalBytes + 1) % U64;
    }

    method FlushBlock()
      requires Filling() && bufferLen == BLOCK
      modifies this, state
      ensures Valid() && finalized == old(finalized) && Fed() == old(Fed())
    {
      assert buffer[..] == tail;
      Transform(state, buffer[..]);
      ghost var after := VarsOf(state);
      ChainingStep(hash, whole, after, tail);
      bufferLen := 0;
      whole, tail, hash, blocks := whole + tail, [], after, blocks + 1;
    }

    /** An independent copy: finalizing it leaves this hasher untouched. */
    method Clone() returns (copy: Sha256)
      requires Valid()
      ensures copy.Valid() && fresh(copy) && fresh(copy.state) && fresh(copy.buffer)
      ensures copy.Fed() == Fed() && copy.finalized == finalized
    {
      copy := new Sha256.Copy(this);
    }

    /** The digest of everything fed so far; fails on a finalized context. */
    method FinalizeHex() returns (hex: Option<string>)
      requires Valid()
      modifies this, state, buffer
      ensures Valid() && finalized
      ensures old(finalized) ==> hex == None
      ensures !old(finalized) ==> hex.Some? && IsHexDigest(hex.value, old(Fed()))
    {
      if finalized {
        return None;
      }
      var digest := PadAndFinalize();
      finalized := true;
      hex := Some(ToHex(digest));
    }

    /** `clone().finalizeHex()`: the digest so far, leaving this hasher untouched. */
    method CloneDigest() returns (hex: Option<string>)
      requires Valid()
      ensures finalized ==> hex == None
      ensures !finalized ==> hex.Some? && IsHexDigest(hex.value, Fed())
    {
      var copy := Clone();
      hex := copy.FinalizeHex();
    }

    method PadAndFinalize() returns (out: seq<byte>)
      requires Valid() && !finalized
      modifies this, state, buffer
      ensures Valid() && !finalized && IsHexDigest(ToHex(out), old(Fed()))
    {
      var bitLen := totalBytes * 8 % U64;
      ghost var m := Fed();
      LengthField(totalBytes, wraps, |m|);
      PadOneAndZeros();
      AppendLength(bitLen);
      assert Fed() == Pad(m);
      NoTail(blocks, |tail|);
      assert whole == Pad(m);
      FinishDigest(hash, m);
      out := VarsBytes(Vars(state[0], state[1], state[2], state[3], state[4], state[5], state[6], state[7]));
    }

    /** The marker byte and the zero loop: it stops with eight bytes left in the block. */
    method PadOneAndZeros()
      requires Valid() && !finalized
      modifies this, state, buffer
      ensures Valid() && !finalized
      ensures Fed() == old(Fed()) + [0x80] + Zeros(ZeroCount(|old(Fed())|))
    {
      ghost var m := Fed();
      var _ := Update([0x80]);
      ghost var zeros := 0;
      assert m + [0x80] == m + [0x80] + Zeros(0);
      while bufferLen != 56
        invariant Valid() && !finalized
        invariant zeros <= ZeroCount(|m|) && Fed() == m + [0x80] + Zeros(zeros)
        decreases ZeroCount(|m|) - zeros
      {
        NotYetPadded(|m|, zeros, blocks, |tail|);
        var _ := Update([0]);
        zeros := zeros + 1;
        assert Zeros(zeros) == Zeros(zeros - 1) + [0];
      }
      NotYetPadded(|m|, zeros, blocks, |tail|);
    }

    method AppendLength(bitLen: nat)
      requires Valid() && !finalized
      modifies this, state, buffer
      ensures Valid() && !finalized && Fed() == old(Fed()) + BigEndian(bitLen, LENGTH_BYTES)
    {
      ghost var head, field := Fed(), BigEndian(bitLen, LENGTH_BYTES);
      for k := 0 to LENGTH_BYTES
        invariant Valid() && !finalized && Fed() == head + field[..k]
      {
        var i := LENGTH_BYTES - 1 - k;
        BigEndianAt(bitLen, LENGTH_BYTES, i);
        var _ := Update([LowByte(ShiftRight8(bitLen, i))]);
        assert field[..k + 1] == field[..k] + [field[k]];
      }
      assert field[..LENGTH_BYTES] == field;
    }

    /** However a message is split into updates, the digest is that of the whole message. */
    static method HashPieces(pieces: seq<seq<byte>>) returns (hex: string)
      ensures IsHexDigest(hex, Joined(pieces))
    {
      var ctx := new Sha256();
      for i := 0 to |pieces|
        invariant ctx.Valid() && !ctx.finalized && ctx.Fed() == Joined(pieces[..i])
        invariant fresh(ctx) && fresh(ctx.state) && fresh(ctx.buffer)
      {
        var _ := ctx.Update(pieces[i]);
        assert pieces[..i + 1][..i] == pieces[..i];
      }
      assert pieces[..|pieces|] == pieces;
      var r := ctx.FinalizeHex();
      hex := r.value;
    }

    static method HashHex(data: seq<byte>) returns (hex: string)
      ensures IsHexDigest(hex, data)
    {
      var ctx := new Sha256();
      var _ := ctx.Update(data);
      assert ctx.Fed() == data;
      var r := ctx.FinalizeHex();
      hex := r.value;
    }
  }
}
