/** SHA-256 as FIPS 180-4 defines it, on whole messages of bytes. */
module Fips180 {
  import opened MavlinkLog

  /** Bytes per block, rounds per block, and bytes of the length field. */
  const BLOCK: nat := 64
  const ROUNDS: nat := 64
  const LENGTH_BYTES: nat := 8

  // ---- Functions and constants (sections 4.1.2, 4.2.2 and 5.3.3) ----

  function Rotr(x: Word, n: nat): Word
    requires 0 < n < 32
  {
    (x >> n) | (x << (32 - n))
  }

  /** Addition modulo 2^32. */
  function Add(x: Word, y: Word): Word {
    x + y
  }

  function Ch(x: Word, y: Word, z: Word): Word {
    (x & y) ^ (!x & z)
  }

  function Maj(x: Word, y: Word, z: Word): Word {
    (x & y) ^ (x & z) ^ (y & z)
  }

  function BigSigma0(x: Word): Word {
    Rotr(x, 2) ^ Rotr(x, 13) ^ Rotr(x, 22)
  }

  function BigSigma1(x: Word): Word {
    Rotr(x, 6) ^ Rotr(x, 11) ^ Rotr(x, 25)
  }

  function SmallSigma0(x: Word): Word {
    Rotr(x, 7) ^ Rotr(x, 18) ^ (x >> 3)
  }

  function SmallSigma1(x: Word): Word {
    Rotr(x, 17) ^ Rotr(x, 19) ^ (x >> 10)
  }

  type RoundTable = k: seq<Word> | |k| == ROUNDS witness seq(ROUNDS, _ => 0)

  const K: RoundTable :=
    [0x428a2f98, 0x71374491, 0xb5c0fbcf, 0xe9b5dba5, 0x3956c25b, 0x59f111f1, 0x923f82a4, 0xab1c5ed5] +
    [0xd807aa98, 0x12835b01, 0x243185be, 0x550c7dc3, 0x72be5d74, 0x80deb1fe, 0x9bdc06a7, 0xc19bf174] +
    [0xe49b69c1, 0xefbe4786, 0x0fc19dc6, 0x240ca1cc, 0x2de92c6f, 0x4a7484aa, 0x5cb0a9dc, 0x76f988da] +
    [0x983e5152, 0xa831c66d, 0xb00327c8, 0xbf597fc7, 0xc6e00bf3, 0xd5a79147, 0x06ca6351, 0x14292967] +
    [0x27b70a85, 0x2e1b2138, 0x4d2c6dfc, 0x53380d13, 0x650a7354, 0x766a0abb, 0x81c2c92e, 0x92722c85] +
    [0xa2bfe8a1, 0xa81a664b, 0xc24b8b70, 0xc76c51a3, 0xd192e819, 0xd6990624, 0xf40e3585, 0x106aa070] +
    [0x19a4c116, 0x1e376c08, 0x2748774c, 0x34b0bcb5, 0x391c0cb3, 0x4ed8aa4a, 0x5b9cca4f, 0x682e6ff3] +
    [0x748f82ee, 0x78a5636f, 0x84c87814, 0x8cc70208, 0x90befffa, 0xa4506ceb, 0xbef9a3f7, 0xc67178f2]

  /** Eight words: a hash value, or the working variables a to h. */
  datatype Vars = Vars(a: Word, b: Word, c: Word, d: Word, e: Word, f: Word, g: Word, h: Word)

  const INITIAL: Vars := Vars(0x6a09e667, 0xbb67ae85, 0x3c6ef372, 0xa54ff53a,
                              0x510e527f, 0x9b05688c, 0x1f83d9ab, 0x5be0cd19)

  // ---- Compression (section 6.2.2) ----

  type Block = b: seq<byte> | |b| == BLOCK witness seq(BLOCK, _ => 0)

  function WordAt(block: Block, t: nat): Word
    requires t < 16
  {
    (block[4 * t] as Word << 24) | (block[4 * t + 1] as Word << 16) | (block[4 * t + 2] as Word << 8) | block[4 * t + 3] as Word
  }

  function ScheduleWord(w2: Word, w7: Word, w15: Word, w16: Word): Word {
    Add(Add(Add(SmallSigma1(w2), w7), SmallSigma0(w15)), w16)
  }

  /** Step 1: the first `n` words of the message schedule. */
  function Schedule(block: Block, n: nat): (w: seq<Word>)
    requires n <= ROUNDS
    ensures |w| == n
  {
    if n == 0 then [] else
    var w := Schedule(block, n - 1);
    w + [if n <= 16 then WordAt(block, n - 1)
         else ScheduleWord(w[n - 3], w[n - 8], w[n - 16], w[n - 17])]
  }

  /** Step 3: one round on the working variables. */
  function Round(v: Vars, k: Word, w: Word): Vars {
    var t1 := Add(Add(Add(Add(v.h, BigSigma1(v.e)), Ch(v.e, v.f, v.g)), k), w);
    var t2 := Add(BigSigma0(v.a), Maj(v.a, v.b, v.c));
    Vars(Add(t1, t2), v.a, v.b, v.c, Add(v.d, t1), v.e, v.f, v.g)
  }

  function Rounds(v: Vars, k: seq<Word>, w: seq<Word>, n: nat): Vars
    requires n <= |w| && n <= |k|
  {
    if n == 0 then v else Round(Rounds(v, k, w, n - 1), k[n - 1], w[n - 1])
  }

  /** Step 4: the intermediate hash value. */
  function AddVars(x: Vars, y: Vars): Vars {
    Vars(Add(x.a, y.a), Add(x.b, y.b), Add(x.c, y.c), Add(x.d, y.d),
         Add(x.e, y.e), Add(x.f, y.f), Add(x.g, y.g), Add(x.h, y.h))
  }

  function Compress(hash: Vars, block: Block): Vars {
    AddVars(hash, Rounds(hash, K, Schedule(block, ROUNDS), ROUNDS))
  }

  lemma {:induction false} BlockBefore(n: nat)
    requires n % BLOCK == 0 && n > 0
    ensures n >= BLOCK && (n - BLOCK) % BLOCK == 0
  {
  }

  /** The hash value after all blocks of `m` (parsing of section 5.2.1). */
  function Absorb(m: seq<byte>): Vars
    requires |m| % BLOCK == 0
  {
    if m == [] then INITIAL else
    BlockBefore(|m|);
    Compress(Absorb(m[..|m| - BLOCK]), m[|m| - BLOCK..])
  }

  // ---- Padding (section 5.1.1) ----

  /** The least number of zero bytes that leaves eight bytes free in the last block. */
  function ZeroCount(length: nat): (k: nat)
    ensures (length + 1 + k) % BLOCK == 56
    ensures k < BLOCK
  {
    (55 - length) % 64
  }

  function Zeros(n: nat): (z: seq<byte>)
    ensures |z| == n
  {
    seq(n, _ => 0)
  }

  function LowByte(n: nat): byte {
    (n % 256) as byte
  }

  /** `n` as `count` bytes, most significant first, modulo 256^count. */
  function BigEndian(n: nat, count: nat): (r: seq<byte>)
    ensures |r| == count
  {
    if count == 0 then [] else BigEndian(n / 256, count - 1) + [LowByte(n)]
  }

  lemma {:induction false} LengthFits(n: nat)
    requires n % BLOCK == 56
    ensures (n + LENGTH_BYTES) % BLOCK == 0
  {
  }

  /** The message with its padding; the length field is the bit length (defined by the standard below 2^64 bits). */
  function Pad(m: seq<byte>): (r: seq<byte>)
    ensures |r| % BLOCK == 0
  {
    LengthFits(|m| + 1 + ZeroCount(|m|));
    m + [0x80] + Zeros(ZeroCount(|m|)) + BigEndian(8 * |m|, LENGTH_BYTES)
  }

  // ---- The digest ----

  function WordBytes(w: Word): seq<byte> {
    [((w >> 24) & 0xFF) as byte, ((w >> 16) & 0xFF) as byte, ((w >> 8) & 0xFF) as byte, (w & 0xFF) as byte]
  }

  function VarsBytes(v: Vars): seq<byte> {
    WordBytes(v.a) + WordBytes(v.b) + WordBytes(v.c) + WordBytes(v.d) +
    WordBytes(v.e) + WordBytes(v.f) + WordBytes(v.g) + WordBytes(v.h)
  }

  function Digest(m: seq<byte>): seq<byte> {
    VarsBytes(Absorb(Pad(m)))
  }
}
