/** The single-pass digests of a session: the full one, and the probe taken from a clone on the way. */
module StreamDigests {
  import opened MavlinkLog
  import opened Sha256

  /** The 32-bit byte counter cannot wrap past the probe boundary. */
  predicate NoWrap(stream: seq<byte>, n: nat) {
    n < 0x8000_0000 || |stream| < U32
  }

  /**
   * The probe after `stream` was hashed: once taken, it is the digest of the first `n` bytes of the
   * stream, however the payloads straddled that boundary.
   */
  ghost predicate ProbeOf(taken: bool, probe: string, hashed: nat, stream: seq<byte>, n: nat) {
    NoWrap(stream, n) ==> if taken then n <= |stream| && IsHexDigest(probe, stream[..n]) else hashed == |stream|
  }

  /** As much of the stream as the probe covers. */
  function Probed(stream: seq<byte>, n: nat): seq<byte> {
    if n < |stream| then stream[..n] else stream
  }

  lemma {:induction false} ProbeKept(probe: string, hashed: nat, stream: seq<byte>, data: seq<byte>, n: nat, next: nat)
    requires ProbeOf(true, probe, hashed, stream, n)
    ensures ProbeOf(true, probe, next, stream + data, n)
  {
    if NoWrap(stream + data, n) {
      assert (stream + data)[..n] == stream[..n];
    }
  }

  lemma {:induction false} ProbePending(probe: string, hashed: nat, stream: seq<byte>, data: seq<byte>, n: nat)
    requires ProbeOf(false, probe, hashed, stream, n) && |data| <= 255
    requires hashed < U32 && (hashed == 0 || hashed < n) && (hashed + |data|) % U32 < n
    ensures ProbeOf(false, probe, (hashed + |data|) % U32, stream + data, n)
  {
  }

  lemma {:induction false} ProbeTaken(probe: string, upTo: seq<byte>, rest: seq<byte>, n: nat, next: nat)
    requires NoWrap(upTo + rest, n) ==> |upTo| == n
    requires IsHexDigest(probe, upTo)
    ensures ProbeOf(true, probe, next, upTo + rest, n)
  {
    if NoWrap(upTo + rest, n) {
      assert (upTo + rest)[..n] == upTo;
    }
  }

  /** The subtraction for the probe boundary stays inside the payload, wrap-around included. */
  lemma {:induction false} TakeBounds(hashed: nat, len: nat, n: nat)
    requires hashed < U32 && n < U32 && 0 < len <= 255
    requires (hashed == 0 || hashed < n) && (hashed + len) % U32 >= n
    ensures hashed <= n <= hashed + len
  {
  }

  /** The hasher and the probe variables that `run` passes to `processQueuedChunks` by reference. */
  class StreamDigests {
    const probeN: nat
    const hasher: Sha256
    var probeFinalized: bool
    var hashedBytes: nat
    var probeSha: string

    /** The probe subtraction cannot underflow: an untaken probe still lies ahead. */
    ghost predicate Valid()
      reads this, hasher, hasher.state, hasher.buffer
    {
      && probeN < U32 && hasher.Valid() && !hasher.finalized
      && hashedBytes < U32 && (!probeFinalized ==> hashedBytes == 0 || hashedBytes < probeN)
      && ProbeOf(probeFinalized, probeSha, hashedBytes, hasher.Fed(), probeN)
    }

    constructor (n: nat)
      requires n < U32
      ensures Valid() && hasher.Fed() == [] && probeN == n && !probeFinalized 
      ensures fresh(hasher) && fresh(hasher.state) && fresh(hasher.buffer)
    {
      probeN := n;
      hasher := new Sha256();
      probeFinalized, hashedBytes, probeSha := false, 0, "";
    }

    /** Hashes one accepted payload; the counter is 32 bits wide and may wrap once the probe is taken. */
    method Take(data: seq<byte>)
      requires Valid() && 0 < |data| <= 255
      modifies this, hasher, hasher.state, hasher.buffer
      ensures Valid() && hasher.Fed() == old(hasher.Fed()) + data
    {
      if !probeFinalized && (hashedBytes + |data|) % U32 >= probeN {
        TakeProbe(data);
      } else {
        if probeFinalized {
          ProbeKept(probeSha, hashedBytes, hasher.Fed(), data, probeN, (hashedBytes + |data|) % U32);
        } else {
          ProbePending(probeSha, hashedBytes, hasher.Fed(), data, probeN);
        }
        var _ := hasher.Update(data);
        hashedBytes := (hashedBytes + |data|) % U32;
      }
    }

    /** The payload that reaches the probe boundary: hash up to it, digest a clone, hash the rest. */
    method TakeProbe(data: seq<byte>)
      requires Valid() && 0 < |data| <= 255 && !probeFinalized && (hashedBytes + |data|) % U32 >= probeN
      modifies this, hasher, hasher.state, hasher.buffer
      ensures Valid() && hasher.Fed() == old(hasher.Fed()) + data
    {
      TakeBounds(hashedBytes, |data|, probeN);
      var take := probeN - hashedBytes;
      ghost var upTo := hasher.Fed() + data[..take];
      var hex := HashAcross(data, take);
      probeSha := hex;
      probeFinalized := true;
      hashedBytes := (hashedBytes + |data|) % U32;
      assert hasher.Fed() == upTo + data[take..];
      ProbeTaken(probeSha, upTo, data[take..], probeN, hashedBytes);
    }

    /** Hashes a payload in two parts and digests a clone between them. */
    method HashAcross(data: seq<byte>, take: nat) returns (hex: string)
      requires hasher.Valid() && !hasher.finalized && take <= |data|
      modifies hasher, hasher.state, hasher.buffer
      ensures hasher.Valid() && !hasher.finalized && hasher.Fed() == old(hasher.Fed()) + data
      ensures IsHexDigest(hex, old(hasher.Fed()) + data[..take])
    {
      if take > 0 {
        var _ := hasher.Update(data[..take]);
      }
      assert hasher.Fed() == old(hasher.Fed()) + data[..take];
      var digest := hasher.CloneDigest();
      hex := digest.value;
      if take < |data| {
        var _ := hasher.Update(data[take..]);
      }
      assert data == data[..take] + data[take..];
    }

    /** The two digests reported at the end of a successful run. */
    method Finish() returns (full: string, probe: string)
      requires Valid()
      modifies this, hasher, hasher.state, hasher.buffer
      ensures IsHexDigest(full, old(hasher.Fed()))
      ensures NoWrap(old(hasher.Fed()), probeN) ==> IsHexDigest(probe, Probed(old(hasher.Fed()), probeN))
    {
      ghost var stream := hasher.Fed();
      if probeN == 0 {
        probe := Sha256.HashHex([]);
        assert stream[..0] == [];
      } else if !probeFinalized {
        var hex := hasher.CloneDigest();
        probe := hex.value;
      } else {
        probe := probeSha;
        assert stream[..|stream|] == stream;
      }
      var hex := hasher.FinalizeHex();
      full := hex.value;
    }
  }
}
