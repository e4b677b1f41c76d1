/**
 * The digest covers the accepted payloads in arrival order. This module settles when that stream
 * is the log itself.
 */
module DeliveryOrder {
  import opened MavlinkLog
  import opened Intervals
  import opened Transfer

  /** Where a payload starts and how long it is. */
  datatype Shape = Shape(ofs: nat, len: nat)

  predicate Fit(shapes: seq<Shape>, total: nat) {
    forall i :: 0 <= i < |shapes| ==> shapes[i].len > 0 && shapes[i].ofs + shapes[i].len <= total
  }

  function Total(shapes: seq<Shape>): nat {
    if shapes == [] then 0 else Total(shapes[..|shapes| - 1]) + shapes[|shapes| - 1].len
  }

  /** Each payload starts where the payloads before it, laid end to end, stop. */
  predicate InOrder(shapes: seq<Shape>) {
    shapes == [] ||
    (InOrder(shapes[..|shapes| - 1]) && shapes[|shapes| - 1].ofs == Total(shapes[..|shapes| - 1]))
  }

  function Slice(log: seq<byte>, s: Shape): seq<byte> {
    if s.ofs + s.len <= |log| then log[s.ofs..s.ofs + s.len] else []
  }

  /** What is hashed when a log is delivered in these shapes. */
  function StreamOf(shapes: seq<Shape>, log: seq<byte>): seq<byte> {
    if shapes == [] then [] else StreamOf(shapes[..|shapes| - 1], log) + Slice(log, shapes[|shapes| - 1])
  }

  lemma {:induction false} StreamLength(shapes: seq<Shape>, log: seq<byte>)
    requires Fit(shapes, |log|)
    ensures |StreamOf(shapes, log)| == Total(shapes)
  {
    if shapes != [] {
      StreamLength(shapes[..|shapes| - 1], log);
    }
  }

  function Shapes(ps: seq<Piece>): (r: seq<Shape>)
    ensures |r| == |ps| && forall i :: 0 <= i < |ps| ==> r[i] == Shape(ps[i].ofs, |ps[i].data|)
  {
    if ps == [] then [] else Shapes(ps[..|ps| - 1]) + [Shape(ps[|ps| - 1].ofs, |ps[|ps| - 1].data|)]
  }

  lemma {:induction false} StreamOfPieces(ps: seq<Piece>, log: seq<byte>)
    requires Within(ps, |log|) && AllMatch(ps, log)
    ensures Fit(Shapes(ps), |log|) && Stream(ps) == StreamOf(Shapes(ps), log)
  {
    if ps != [] {
      var front, last := ps[..|ps| - 1], ps[|ps| - 1];
      assert AllMatch(front, log);
      StreamOfPieces(front, log);
      assert Matches(ps[|ps| - 1], log);
      MatchIsSlice(last, log);
      assert Shapes(ps)[..|ps| - 1] == Shapes(front);
    }
  }

  lemma {:induction false} MatchIsSlice(p: Piece, log: seq<byte>)
    requires Matches(p, log)
    ensures p.data == Slice(log, Shape(p.ofs, |p.data|))
  {
  }

  lemma {:induction false} SliceExtends(log: seq<byte>, n: nat, len: nat)
    requires n + len <= |log|
    ensures log[..n] + Slice(log, Shape(n, len)) == log[..n + len]
  {
  }

  /** In-order payloads hash the log from its start. */
  lemma {:induction false} InOrderIsPrefix(shapes: seq<Shape>, log: seq<byte>)
    requires Fit(shapes, |log|) && InOrder(shapes)
    ensures Total(shapes) <= |log| && StreamOf(shapes, log) == log[..Total(shapes)]
  {
    if shapes != [] {
      var front, last := shapes[..|shapes| - 1], shapes[|shapes| - 1];
      InOrderIsPrefix(front, log);
      SliceExtends(log, Total(front), last.len);
    }
  }

  lemma {:induction false} PrefixStream(shapes: seq<Shape>, j: nat, log: seq<byte>)
    requires j <= |shapes|
    ensures StreamOf(shapes[..j], log) <= StreamOf(shapes, log)
  {
    if j == |shapes| {
      assert shapes[..j] == shapes;
    } else {
      var front := shapes[..|shapes| - 1];
      PrefixStream(front, j, log);
      assert front[..j] == shapes[..j];
    }
  }

  lemma {:induction false} FirstOutOfOrder(shapes: seq<Shape>) returns (j: nat)
    requires !InOrder(shapes)
    ensures j < |shapes| && InOrder(shapes[..j]) && shapes[j].ofs != Total(shapes[..j])
  {
    var front := shapes[..|shapes| - 1];
    if InOrder(front) {
      j := |front|;
    } else {
      j := FirstOutOfOrder(front);
      assert front[..j] == shapes[..j];
    }
  }

  /** A log on which delivery in a wrong order, with repeats or with losses hashes something else. */
  lemma {:induction false} Witness(shapes: seq<Shape>, total: nat) returns (log: seq<byte>)
    requires Fit(shapes, total) && !(InOrder(shapes) && Total(shapes) == total)
    ensures |log| == total && Fit(shapes, |log|) && StreamOf(shapes, log) != log
  {
    if Total(shapes) != total {
      log := seq(total, _ => 0);
      StreamLength(shapes, log);
    } else {
      var j := FirstOutOfOrder(shapes);
      var i := Total(shapes[..j]);
      log := seq(total, x => if x == i then 1 else 0);
      StreamByte(shapes, j, log);
      StreamLength(shapes, log);
      assert log[i] == 1 && log[shapes[j].ofs] == 0;
    }
  }

  /** Right after the first `j` payloads the stream holds the first byte of the next one. */
  lemma {:induction false} StreamByte(shapes: seq<Shape>, j: nat, log: seq<byte>)
    requires Fit(shapes, |log|) && j < |shapes|
    ensures Total(shapes[..j]) < |StreamOf(shapes, log)|
    ensures StreamOf(shapes, log)[Total(shapes[..j])] == log[shapes[j].ofs]
  {
    var upTo := shapes[..j + 1];
    StreamLength(shapes[..j], log);
    PrefixStream(shapes, j + 1, log);
    assert upTo[..j] == shapes[..j];
    assert StreamOf(upTo, log)[Total(shapes[..j])] == Slice(log, shapes[j])[0];
  }

  /** Whatever the log holds, the hashed stream is the log if and only if delivery was in order without repeats. */
  lemma {:induction false} StreamIsLogIff(shapes: seq<Shape>, total: nat)
    requires Fit(shapes, total)
    ensures (forall log: seq<byte> :: |log| == total ==> StreamOf(shapes, log) == log) <==>
            InOrder(shapes) && Total(shapes) == total
  {
    if InOrder(shapes) && Total(shapes) == total {
      forall log: seq<byte> | |log| == total ensures StreamOf(shapes, log) == log {
        InOrderIsPrefix(shapes, log);
        assert log[..total] == log;
      }
    } else {
      var log := Witness(shapes, total);
    }
  }

  /** In-order delivery without repeats: the stream is the file, and its prefixes are the file's. */
  lemma {:induction false} InOrderStreamIsFile(ps: seq<Piece>, total: nat, log: seq<byte>)
    requires Within(ps, total) && AllMatch(ps, log) && |log| == total
    requires Covered(ps) == Interval(0, total) && InOrder(Shapes(ps))
    ensures Stream(ps) == Image(ps) == log
  {
    CompleteIsExact(ps, total, log);
    StreamOfPieces(ps, log);
    InOrderIsPrefix(Shapes(ps), log);
    InOrderTotal(ps, total);
    assert log[..total] == log;
  }

  lemma {:induction false} InOrderTotal(ps: seq<Piece>, total: nat)
    requires Covered(ps) == Interval(0, total) && InOrder(Shapes(ps))
    ensures total <= Total(Shapes(ps))
  {
    InOrderCovered(ps);
    assert total == 0 || total - 1 in Covered(ps);
  }

  lemma {:induction false} InOrderCovered(ps: seq<Piece>)
    requires InOrder(Shapes(ps))
    ensures forall x :: x in Covered(ps) ==> x < Total(Shapes(ps))
  {
    if ps != [] {
      assert Shapes(ps)[..|ps| - 1] == Shapes(ps[..|ps| - 1]);
      InOrderCovered(ps[..|ps| - 1]);
    }
  }
}
