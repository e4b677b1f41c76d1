/** The two callers of the session that decide what is archived: the full download and the probe. */
module Download {
  import opened MavlinkLog
  import opened Intervals
  import opened Sha256
  import opened Transfer
  import opened DeliveryOrder
  import opened StreamDigests
  import opened StreamSession

  /** A delivered history that covers an honest log writes exactly that log. */
  lemma {:induction false} HonestHistoryIsExact(ps: seq<Piece>, w: World, total: nat, log: seq<byte>)
    requires Within(ps, total) && AllFromWorld(ps, w, total) && Covered(ps) == Interval(0, total)
    requires Honest(w, log, total)
    ensures AllMatch(ps, log) && Image(ps) == log[..total]
  {
    forall i | 0 <= i < |ps| ensures Matches(ps[i], log) {
      HonestPieceMatches(ps[i], w, log, total);
    }
    CompleteIsExact(ps, total, log);
  }

  /** In-order delivery without repeats makes the stream the log itself. */
  lemma {:induction false} HonestInOrderStream(ps: seq<Piece>, w: World, total: nat, log: seq<byte>)
    requires Within(ps, total) && AllFromWorld(ps, w, total) && Covered(ps) == Interval(0, total)
    requires Honest(w, log, total) && InOrder(Shapes(ps))
    ensures Stream(ps) == log[..total]
  {
    HonestHistoryIsExact(ps, w, total, log);
    forall i | 0 <= i < |ps| ensures Matches(ps[i], log[..total]) {
      assert Matches(ps[i], log);
    }
    InOrderStreamIsFile(ps, total, log[..total]);
  }

  /** A download that reported success: file and digests, and the payloads they came from. */
  ghost predicate Downloaded(ps: seq<Piece>, w: World, size: nat, file: seq<byte>, sha: string) {
    && Within(ps, size) && AllFromWorld(ps, w, size) && Covered(ps) == Interval(0, size)
    && file == Image(ps) && IsHexDigest(sha, Stream(ps))
  }

  /** The catalogued probe: its length, and the digest of as much of the stream. */
  ghost predicate Probes(ps: seq<Piece>, size: nat, setting: int, sha: string, bytes: int) {
    && bytes == (if size == 0 || setting < size then setting else size)
    && (0 <= setting ==> IsHexDigest(sha, Probed(Stream(ps), if setting < size then setting else size)))
    && (setting < 0 && |Stream(ps)| < 0x8000_0000 ==> IsHexDigest(sha, Stream(ps)))
  }

  /**
   * Downloads one log. Whatever the link did to the packets, a reported success leaves a file that
   * equals every log the packets agree with, byte for byte and in length.
   */
  method DownloadLogData(size: nat, probeBytes: int, settings: Settings, verifyAfterDownload: bool, world: World)
    returns (ok: bool, failure: Failure, file: seq<byte>, sha: string, probeSha: string, probeLength: int, ghost ps: seq<Piece>)
    requires size < 0x8000_0000 && -0x8000_0000 <= probeBytes
    ensures ok ==> Downloaded(ps, world, size, file, sha) && Probes(ps, size, probeBytes, probeSha, probeLength)
    ensures ok ==> forall log :: Honest(world, log, size) ==> file == log[..size]
    ensures ok && InOrder(Shapes(ps)) ==> forall log :: Honest(world, log, size) ==> IsHexDigest(sha, log[..size])
    ensures !ok ==> failure != NoFailure
    ensures Smooth(world, size, settings) && (exists log :: Honest(world, log, size)) ==> ok
  {
    var session := new StreamDownloadSession(size, probeBytes, true, settings);
    var result := RunSmoothly(session, world);
    file, sha, probeSha, ps := session.file, result.sha256, result.probeSha256, session.pieces;
    ok, failure, probeLength := result.success, result.failure, result.probeBytes;
    if !ok {
      return;
    }
    var received := session.ranges.BytesReceived();
    IntervalSize(0, size);
    ok := !verifyAfterDownload || received == size;
    failure := if ok then NoFailure else VerificationFailed;
    ExactFor(ps, world, size, sha);
    ProbesFrom(ps, size, probeBytes, probeSha, probeLength);
  }

  lemma {:induction false} ProbesFrom(ps: seq<Piece>, size: nat, setting: int, sha: string, bytes: int)
    requires size < 0x8000_0000 && -0x8000_0000 <= setting
    requires bytes == if size == 0 || setting < size then setting else size
    requires NoWrap(Stream(ps), ProbeCount(size, setting)) ==> IsHexDigest(sha, Probed(Stream(ps), ProbeCount(size, setting)))
    ensures Probes(ps, size, setting, sha, bytes)
  {
    if setting < 0 && |Stream(ps)| < 0x8000_0000 {
      assert ProbeCount(size, setting) == setting + U32;
    }
  }

  /** Runs the session; an honest and smooth world leaves it no way to fail. */
  method RunSmoothly(session: StreamDownloadSession, world: World) returns (result: Result)
    requires session.Valid() && session.pieces == []
    modifies session`file, session`pieces, session.ranges, session.coverage, session.digests, session.digests.hasher,
             session.digests.hasher.state, session.digests.hasher.buffer
    ensures !result.success ==> result.failure != NoFailure
    ensures result.success ==> session.Reported(world, result)
    ensures Smooth(world, session.total, session.settings) && (exists log :: Honest(world, log, session.total)) ==> result.success
  {
    result := session.Run(world);
    if log :| Smooth(world, session.total, session.settings) && Honest(world, log, session.total) {
      session.HonestNeverConflicts(world, log);
    }
  }

  lemma {:induction false} ExactFor(ps: seq<Piece>, world: World, size: nat, sha: string)
    requires Within(ps, size) && AllFromWorld(ps, world, size) && Covered(ps) == Interval(0, size)
    requires IsHexDigest(sha, Stream(ps))
    ensures forall log :: Honest(world, log, size) ==> Image(ps) == log[..size]
    ensures InOrder(Shapes(ps)) ==> forall log :: Honest(world, log, size) ==> IsHexDigest(sha, log[..size])
  {
    forall log | Honest(world, log, size) ensures Image(ps) == log[..size] {
      HonestHistoryIsExact(ps, world, size, log);
    }
    if InOrder(Shapes(ps)) {
      forall log | Honest(world, log, size) ensures IsHexDigest(sha, log[..size]) {
        HonestInOrderStream(ps, world, size, log);
      }
    }
  }

  /**
   * Downloads the first `n = min(probeBytes, size)` bytes and compares their digest with a catalogued
   * one. A match means the catalogued probe is the digest of the first `n` bytes of what arrived, and
   * of the log itself when they arrived in order without repeats.
   */
  method ProbeAndCompare(size: nat, probeBytes: nat, settings: Settings, candidateSha: string, candidateBytes: int, world: World)
    returns (same: bool, failure: Failure, ghost ps: seq<Piece>)
    requires size < 0x8000_0000
    ensures same ==> candidateBytes == ProbeLength(size, probeBytes) <= |Stream(ps)|
    ensures same ==> IsHexDigest(candidateSha, Stream(ps)[..candidateBytes]) && AllFromWorld(ps, world, candidateBytes)
    ensures same && InOrder(Shapes(ps)) ==>
              forall log :: Honest(world, log, size) ==> IsHexDigest(candidateSha, log[..candidateBytes])
  {
    var n := ProbeLength(size, probeBytes);
    var session := new StreamDownloadSession(n, n, false, settings);
    var result := session.Run(world);
    ps, failure := session.pieces, result.failure;
    same := result.success && result.probeSha256 == candidateSha && candidateBytes == n;
    assert same ==> Probed(Stream(ps), n) == Stream(ps)[..n];
    if same && InOrder(Shapes(ps)) {
      ProbeIsOfLog(ps, world, size, n, candidateSha);
    }
  }

  lemma {:induction false} ProbeIsOfLog(ps: seq<Piece>, world: World, size: nat, n: nat, sha: string)
    requires n <= size && Within(ps, n) && AllFromWorld(ps, world, n) && Covered(ps) == Interval(0, n)
    requires InOrder(Shapes(ps)) && n <= |Stream(ps)| && IsHexDigest(sha, Stream(ps)[..n])
    ensures forall log :: Honest(world, log, size) ==> IsHexDigest(sha, log[..n])
  {
    forall log | Honest(world, log, size) ensures IsHexDigest(sha, log[..n]) {
      StreamIsPrefix(ps, world, size, n, log);
    }
  }

  lemma {:induction false} StreamIsPrefix(ps: seq<Piece>, world: World, size: nat, n: nat, log: seq<byte>)
    requires n <= size && Within(ps, n) && AllFromWorld(ps, world, n) && Covered(ps) == Interval(0, n)
    requires InOrder(Shapes(ps)) && n <= |Stream(ps)| && Honest(world, log, size)
    ensures n <= |log| && Stream(ps)[..n] == log[..n]
  {
    assert Honest(world, log, n);
    HonestInOrderStream(ps, world, n, log);
  }

  function ProbeLength(size: nat, probeBytes: nat): nat {
    if probeBytes < size then probeBytes else size
  }

  // ---- Smooth worlds exist ----

  /** Delivers a log of at most one chunk at once. */
  function AtOnce(log: seq<byte>): World
    requires |log| <= CHUNK
  {
    World(t => if t == 0 then [Chunk(0, log)] else [], _ => 0, _ => false, _ => false, _ => 0, _ => true, _ => true)
  }

  lemma {:induction false} AtOnceDelivers(log: seq<byte>, t: nat)
    requires 0 < |log| <= CHUNK && t > 0
    ensures Delivered(AtOnce(log), t, |log|) == [Piece(0, log)]
  {
    var w := AtOnce(log);
    if t == 1 {
      assert [Chunk(0, log)][..0] == [];
      assert Accepted(w.batch(0), |log|) == [Piece(0, log)];
    } else {
      AtOnceDelivers(log, t - 1);
      assert w.batch(t - 1) == [];
    }
  }

  /** So a success can be demanded: such a world is smooth and honest. */
  lemma {:induction false} AtOnceIsSmooth(log: seq<byte>, settings: Settings)
    requires 0 < |log| <= CHUNK && settings.retryCount >= 0
    ensures Smooth(AtOnce(log), |log|, settings) && Honest(AtOnce(log), log, |log|)
  {
    var w := AtOnce(log);
    forall t: nat | t > 0 ensures Covered(Delivered(w, t, |log|)) == Interval(0, |log|) {
      AtOnceDelivers(log, t);
      CoveredSnoc([], Piece(0, log));
      assert [] + [Piece(0, log)] == [Piece(0, log)];
    }
  }
}
