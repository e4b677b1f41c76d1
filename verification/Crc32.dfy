/** CRC-32 (reflected, polynomial 0xEDB88320), its streaming law and what it can tell apart. */
module Crc32 {
  import opened MavlinkLog
  import opened ByteFold
  import opened Triggers

  const POLY: Word := 0xEDB88320

  const BITS_PER_BYTE: nat := 8

  /** One bit of the register, as the branch-free source line computes it. */
  function BitStep(crc: Word): Word {
    var mask: Word := 0 - (crc & 1);
    (crc >> 1) ^ (POLY & mask)
  }

  function BitSteps(crc: Word, n: nat): Word {
    if n == 0 then crc else BitStep(BitSteps(crc, n - 1))
  }

  /** Feeds one byte to the register. */
  function Feed(crc: Word, b: byte): Word {
    BitSteps(crc ^ (b as Word), BITS_PER_BYTE)
  }

  /** The register after feeding a buffer, byte by byte. */
  function Register(crc: Word, data: seq<byte>): Word {
    Fold(Feed, crc, data)
  }

  /** The specification of `crc32(data, len, seed)`. */
  function Crc(data: seq<byte>, seed: Word): Word {
    !Register(!seed, data)
  }

  method ComputeCrc32(data: seq<byte>, seed: Word) returns (r: Word)
    ensures r == Crc(data, seed)
  {
    var crc := FeedBytes(!seed, data, Feed);
    r := !crc;
  }

  /** `f` is the register's byte step, known only at the pairs a proof asks about. */
  ghost predicate IsFeed(f: (Word, byte) -> Word) {
    forall r, b {:trigger Unfold((r, b))} :: Unfold((r, b)) ==> f(r, b) == Feed(r, b)
  }

  /** The byte loop. */
  method FeedBytes(start: Word, data: seq<byte>, ghost f: (Word, byte) -> Word) returns (crc: Word)
    requires IsFeed(f)
    ensures crc == Fold(f, start, data)
  {
    crc := start;
    for i := 0 to |data|
      invariant crc == Fold(f, start, data[..i])
    {
      crc := FeedByte(crc, data[i], f);
      FoldSnoc(f, start, data[..i], data[i]);
      assert data[..i + 1] == data[..i] + [data[i]];
    }
    assert data[..|data|] == data;
  }

  /** The body of the byte loop: the xor and the eight bit steps. */
  method FeedByte(reg: Word, b: byte, ghost f: (Word, byte) -> Word) returns (crc: Word)
    requires IsFeed(f)
    ensures crc == f(reg, b)
  {
    crc := reg ^ (b as Word);
    for bit := 0 to BITS_PER_BYTE
      invariant crc == BitSteps(reg ^ (b as Word), bit)
    {
      var mask: Word := 0 - (crc & 1);
      crc := (crc >> 1) ^ (POLY & mask);
    }
    assert Unfold((reg, b));
  }

  /** Recovers the register before a bit step. */
  function BitUnstep(crc: Word): Word {
    if crc & 0x80000000 != 0 then ((crc ^ POLY) << 1) | 1 else crc << 1
  }

  lemma {:induction false} BitStepCases(crc: Word)
    ensures crc & 1 == 0 ==> BitStep(crc) == crc >> 1
    ensures crc & 1 != 0 ==> BitStep(crc) == (crc >> 1) ^ POLY
  {
    assert crc & 1 == 0 || crc & 1 == 1;
  }

  /** Each bit step is a bijection on the register. */
  lemma {:induction false} BitStepBijective(crc: Word)
    ensures BitUnstep(BitStep(crc)) == crc
    ensures BitStep(BitUnstep(crc)) == crc
  {
    BitStepCases(crc);
    BitStepCases(BitUnstep(crc));
  }

  lemma {:induction false} BitStepsInjective(x: Word, y: Word, n: nat)
    requires BitSteps(x, n) == BitSteps(y, n)
    ensures x == y
  {
    if n > 0 {
      BitStepBijective(BitSteps(x, n - 1));
      BitStepBijective(BitSteps(y, n - 1));
      BitStepsInjective(x, y, n - 1);
    }
  }

  lemma {:induction false} XorCancel(x: Word, y: Word, z: Word)
    ensures x ^ z == y ^ z ==> x == y
    ensures z ^ x == z ^ y ==> x == y
  {
  }

  lemma {:induction false} FeedInjective(x: Word, y: Word, b: byte)
    requires Feed(x, b) == Feed(y, b)
    ensures x == y
  {
    BitStepsInjective(x ^ (b as Word), y ^ (b as Word), BITS_PER_BYTE);
    XorCancel(x, y, b as Word);
  }

  lemma {:induction false} LiftInjective(b: byte, c: byte)
    requires b as Word == c as Word
    ensures b == c
  {
  }

  lemma {:induction false} FeedSeparates(x: Word, b: byte, c: byte)
    requires Feed(x, b) == Feed(x, c)
    ensures b == c
  {
    BitStepsInjective(x ^ (b as Word), x ^ (c as Word), BITS_PER_BYTE);
    XorCancel(b as Word, c as Word, x);
    LiftInjective(b, c);
  }

  lemma {:induction false} NotNot(x: Word)
    ensures !(!x) == x
  {
  }

  lemma {:induction false} NotInjective(x: Word, y: Word)
    ensures !x == !y ==> x == y
  {
  }

  lemma {:induction false} CrcFrom(r: Word, data: seq<byte>)
    ensures Crc(data, !r) == !Register(r, data)
  {
    var c: Word := !r;
    assert !c == r by {
      NotNot(r);
    }
  }

  /** Continuing from a previous CRC is the CRC of the concatenation. */
  lemma {:induction false} CrcStreams(a: seq<byte>, b: seq<byte>, seed: Word)
    ensures Crc(b, Crc(a, seed)) == Crc(a + b, seed)
  {
    CrcFrom(Register(!seed, a), b);
    FoldConcat(Feed, !seed, a, b);
  }

  /** Equal-length buffers that differ in exactly one byte never share a CRC. */
  lemma {:induction false} CrcSeparates(a: seq<byte>, b: seq<byte>, k: nat, seed: Word)
    requires k < |a| == |b| && a[k] != b[k]
    requires forall i :: 0 <= i < |a| && i != k ==> a[i] == b[i]
    ensures Crc(a, seed) != Crc(b, seed)
  {
    forall r, s, d | Feed(r, d) == Feed(s, d) ensures r == s {
      FeedInjective(r, s, d);
    }
    forall r, d, e | Feed(r, d) == Feed(r, e) ensures d == e {
      FeedSeparates(r, d, e);
    }
    FoldSeparates(Feed, !seed, a[..k], a[k], b[k], a[k + 1..]);
    assert a == a[..k] + [a[k]] + a[k + 1..];
    assert b == a[..k] + [b[k]] + a[k + 1..];
    NotInjective(Register(!seed, a), Register(!seed, b));
  }
}
