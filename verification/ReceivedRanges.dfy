/** Merged byte ranges of a transfer, seen as a set of byte offsets. */
module ReceivedRanges {
  import opened MavlinkLog
  import opened Intervals
  import opened Sorting

  datatype Range = Range(lo: nat, hi: nat)

  /** The offsets a list of half-open ranges denotes. */
  ghost function Bytes(rs: seq<Range>): set<int> {
    if rs == [] then {} else Bytes(rs[..|rs| - 1]) + Interval(rs[|rs| - 1].lo, rs[|rs| - 1].hi)
  }

  /** One past the last received offset. */
  ghost function End(rs: seq<Range>): nat {
    if rs == [] then 0 else rs[|rs| - 1].hi
  }

  /** Sorted, non-empty, disjoint and not even touching. */
  ghost predicate Canonical(rs: seq<Range>) {
    rs == [] ||
    var front, last := rs[..|rs| - 1], rs[|rs| - 1];
    last.lo < last.hi && Canonical(front) && (front == [] || End(front) < last.lo)
  }

  /** `Canonical` in index form. */
  lemma {:induction false} CanonicalPairs(rs: seq<Range>)
    ensures Canonical(rs) <==>
            && (forall i :: 0 <= i < |rs| ==> rs[i].lo < rs[i].hi)
            && (forall i, j :: 0 <= i < j < |rs| ==> rs[i].hi < rs[j].lo)
  {
    if rs != [] {
      var front, last := rs[..|rs| - 1], rs[|rs| - 1];
      CanonicalPairs(front);
      SpacedSnoc(front, last);
      assert rs == front + [last];
    }
  }

  ghost predicate Spaced(rs: seq<Range>) {
    && (forall i :: 0 <= i < |rs| ==> rs[i].lo < rs[i].hi)
    && (forall i, j :: 0 <= i < j < |rs| ==> rs[i].hi < rs[j].lo)
  }

  lemma {:induction false} SpacedSnoc(rs: seq<Range>, r: Range)
    ensures Spaced(rs + [r]) <==> Spaced(rs) && r.lo < r.hi && (rs == [] || End(rs) < r.lo)
  {
    var all := rs + [r];
    if Spaced(all) {
      assert forall i :: 0 <= i < |rs| ==> rs[i] == all[i];
      assert all[|rs|].lo < all[|rs|].hi;
    }
    if Spaced(rs) && r.lo < r.hi && (rs == [] || End(rs) < r.lo) {
      forall i | 0 <= i < |rs| ensures rs[i].hi < r.lo {
        assert i < |rs| - 1 ==> rs[i].hi < rs[|rs| - 1].lo;
      }
    }
  }

  lemma {:induction false} CanonicalSnoc(rs: seq<Range>, r: Range)
    ensures Canonical(rs + [r]) <==> Canonical(rs) && r.lo < r.hi && (rs == [] || End(rs) < r.lo)
  {
    assert (rs + [r])[..|rs|] == rs;
  }

  function RangeKey(r: Range): Key {
    (r.lo, r.hi)
  }

  lemma {:induction false} BytesSnoc(rs: seq<Range>, r: Range)
    ensures Bytes(rs + [r]) == Bytes(rs) + Interval(r.lo, r.hi)
  {
    assert (rs + [r])[..|rs|] == rs;
  }

  lemma {:induction false} InBytes(rs: seq<Range>, x: int)
    ensures x in Bytes(rs) <==> exists r :: r in rs && r.lo <= x < r.hi
  {
    if rs != [] {
      var front, last := rs[..|rs| - 1], rs[|rs| - 1];
      InBytes(front, x);
      assert rs == front + [last];
    }
  }

  lemma {:induction false} BytesPermuted(a: seq<Range>, b: seq<Range>)
    requires multiset(a) == multiset(b)
    ensures Bytes(a) == Bytes(b)
  {
    forall x ensures x in Bytes(a) <==> x in Bytes(b) {
      InBytes(a, x);
      InBytes(b, x);
      assert forall r :: r in a <==> r in multiset(a);
      assert forall r :: r in b <==> r in multiset(b);
    }
  }

  /** The last range ends where the denoted set ends. */
  lemma {:induction false} EndBounds(rs: seq<Range>)
    requires Canonical(rs)
    ensures forall x :: x in Bytes(rs) ==> 0 <= x < End(rs)
    ensures rs != [] ==> End(rs) - 1 in Bytes(rs)
  {
    if rs != [] {
      EndBounds(rs[..|rs| - 1]);
    }
  }

  /** A set of offsets has one canonical list only, so the order of the `add` calls never shows. */
  lemma {:induction false} CanonicalUnique(a: seq<Range>, b: seq<Range>)
    requires Canonical(a) && Canonical(b) && Bytes(a) == Bytes(b)
    ensures a == b
  {
    EndBounds(a);
    EndBounds(b);
    if a != [] && b != [] {
      var fa, fb, la, lb := a[..|a| - 1], b[..|b| - 1], a[|a| - 1], b[|b| - 1];
      assert a == fa + [la] && b == fb + [lb];
      EndBounds(fa);
      EndBounds(fb);
      assert la.hi == lb.hi;
      assert la.lo - 1 !in Bytes(a) && lb.lo - 1 !in Bytes(b);
      assert la.lo == lb.lo;
      assert Bytes(fa) == Bytes(a) - Interval(la.lo, la.hi);
      assert Bytes(fb) == Bytes(b) - Interval(lb.lo, lb.hi);
      CanonicalUnique(fa, fb);
    }
  }

  /** Prefixes of a canonical list are canonical, and each next range starts after them. */
  lemma {:induction false} CanonicalPrefix(rs: seq<Range>, i: nat)
    requires Canonical(rs) && i < |rs|
    ensures Canonical(rs[..i]) && Canonical(rs[..i] + [rs[i]])
    ensures rs[..i + 1] == rs[..i] + [rs[i]]
    ensures Bytes(rs[..i + 1]) == Bytes(rs[..i]) + Interval(rs[i].lo, rs[i].hi)
    ensures forall x :: x in Bytes(rs[..i]) ==> 0 <= x < End(rs[..i]) <= rs[i].lo < rs[i].hi
    decreases |rs|
  {
    BytesSnoc(rs[..i], rs[i]);
    if i == |rs| - 1 {
      assert rs == rs[..i] + [rs[i]];
      EndBounds(rs[..i]);
    } else {
      var front := rs[..|rs| - 1];
      CanonicalPrefix(front, i);
      assert front[..i] == rs[..i];
    }
  }

  /** The gap list once everything below `next` has been looked at. */
  ghost function WithGapBefore(gaps: seq<Range>, cursor: nat, next: nat): seq<Range> {
    if next > cursor then gaps + [Range(cursor, next)] else gaps
  }

  lemma {:induction false} GapStep(gaps: seq<Range>, cursor: nat, next: nat, received: set<int>)
    requires Canonical(gaps) && (gaps == [] || End(gaps) < cursor) && cursor <= next
    requires Bytes(gaps) == Interval(0, cursor) - received
    requires forall x :: x in received ==> x < cursor
    ensures Canonical(WithGapBefore(gaps, cursor, next))
    ensures Bytes(WithGapBefore(gaps, cursor, next)) == Interval(0, next) - received
  {
    CanonicalSnoc(gaps, Range(cursor, next));
    BytesSnoc(gaps, Range(cursor, next));
  }

  /** The received set is a prefix interval exactly when the list is one range from 0. */
  lemma {:induction false} PrefixIsOneRange(rs: seq<Range>, e: nat)
    requires Canonical(rs) && 0 < e
    ensures Bytes(rs) == Interval(0, e) <==> rs == [Range(0, e)]
  {
    BytesSnoc([], Range(0, e));
    assert [] + [Range(0, e)] == [Range(0, e)];
    if Bytes(rs) == Interval(0, e) {
      CanonicalUnique(rs, [Range(0, e)]);
    }
  }

  /** Extending the last range over one that starts inside or right after it. */
  lemma {:induction false} Widen(merged: seq<Range>, r: Range, wide: Range)
    requires merged != [] && Canonical(merged) && r.lo < r.hi
    requires merged[|merged| - 1].lo <= r.lo <= merged[|merged| - 1].hi
    requires wide == Range(merged[|merged| - 1].lo,
                           if merged[|merged| - 1].hi < r.hi then r.hi else merged[|merged| - 1].hi)
    ensures Canonical(merged[..|merged| - 1] + [wide])
    ensures Bytes(merged[..|merged| - 1] + [wide]) == Bytes(merged) + Interval(r.lo, r.hi)
  {
    var front, last := merged[..|merged| - 1], merged[|merged| - 1];
    BytesSnoc(front, wide);
    CanonicalSnoc(front, wide);
    assert Interval(last.lo, last.hi) + Interval(r.lo, r.hi) == Interval(wide.lo, wide.hi);
  }

  class ReceivedRanges {
    var ranges: seq<Range>

    ghost predicate Valid()
      reads this
    {
      Canonical(ranges) && End(ranges) < U32
    }

    /** The set of offsets received so far. */
    ghost function Received(): set<int>
      reads this
    {
      Bytes(ranges)
    }

    constructor ()
      ensures Valid() && Received() == {}
    {
      ranges := [];
    }

    /** Callers keep `offset + count` inside 32 bits; a zero count is ignored. */
    method Add(offset: nat, count: nat)
      requires Valid() && offset + count < U32
      modifies this
      ensures Valid()
      ensures Received() == old(Received()) + Interval(offset, offset + count)
    {
      if count == 0 {
        return;
      }
      var r := Range(offset, offset + count);
      CanonicalPairs(ranges);
      BytesSnoc(ranges, r);
      ranges := ranges + [r];
      Merge();
      EndBounds(ranges);
      if End(ranges) >= U32 {
        EndBounds(old(ranges));
        assert false;
      }
    }

    method Merge()
      requires forall r :: r in ranges ==> r.lo < r.hi
      modifies this
      ensures Canonical(ranges) && Received() == old(Received())
    {
      if ranges == [] {
        return;
      }
      var sorted := SortByKey(ranges, RangeKey);
      assert forall r :: r in sorted ==> r in multiset(sorted);
      assert forall r :: r in multiset(ranges) ==> r in ranges;
      assert |sorted| == |multiset(sorted)|;
      BytesPermuted(sorted, ranges);
      assert forall i, j :: 0 <= i < j < |sorted| ==> KeyLe(RangeKey(sorted[i]), RangeKey(sorted[j]));
      ranges := MergeSorted(sorted);
    }

    /** The merging loop over the sorted list. */
    static method MergeSorted(s: seq<Range>) returns (merged: seq<Range>)
      requires s != [] && forall i :: 0 <= i < |s| ==> s[i].lo < s[i].hi
      requires forall i, j :: 0 <= i < j < |s| ==> s[i].lo <= s[j].lo
      ensures Canonical(merged) && Bytes(merged) == Bytes(s)
    {
      merged := [s[0]];
      assert s[..1] == merged;
      CanonicalSnoc([], s[0]);
      for i := 1 to |s|
        invariant merged != [] && Canonical(merged)
        invariant Bytes(merged) == Bytes(s[..i])
        invariant i < |s| ==> merged[|merged| - 1].lo <= s[i].lo
      {
        assert s[..i + 1] == s[..i] + [s[i]];
        BytesSnoc(s[..i], s[i]);
        merged := MergeOne(merged, s[i]);
      }
      assert s[..|s|] == s;
    }

    /** One pass of the merging loop: extend the last range or open a new one. */
    static method MergeOne(merged: seq<Range>, r: Range) returns (out: seq<Range>)
      requires merged != [] && Canonical(merged) && r.lo < r.hi
      requires merged[|merged| - 1].lo <= r.lo
      ensures out != [] && Canonical(out)
      ensures Bytes(out) == Bytes(merged) + Interval(r.lo, r.hi)
      ensures out[|out| - 1].lo <= r.lo
    {
      var front, last := merged[..|merged| - 1], merged[|merged| - 1];
      if r.lo <= last.hi {
        var wide := Range(last.lo, if last.hi < r.hi then r.hi else last.hi);
        out := front + [wide];
        Widen(merged, r, wide);
      } else {
        out := merged + [r];
        BytesSnoc(merged, r);
        CanonicalSnoc(merged, r);
      }
    }

    /** Complete means: nothing asked for, or the received set is one prefix reaching `total`. */
    method Complete(total: nat) returns (done: bool)
      requires Valid()
      ensures done <==> total == 0 || exists e {:trigger Interval(0, e)} :: e >= total && Received() == Interval(0, e)
      ensures Received() <= Interval(0, total) ==> (done <==> Received() == Interval(0, total))
    {
      done := total == 0 || (|ranges| == 1 && ranges[0].lo == 0 && ranges[0].hi >= total);
      if total > 0 {
        if done {
          PrefixIsOneRange(ranges, ranges[0].hi);
          EndBounds(ranges);
        }
        forall e {:trigger Interval(0, e)} | e >= total && Received() == Interval(0, e) ensures done {
          PrefixIsOneRange(ranges, e);
        }
      } else if Received() <= Interval(0, total) {
        assert Received() == Interval(0, 0);
      }
    }

    /** The number of distinct bytes received. */
    method BytesReceived() returns (n: nat)
      requires Valid()
      ensures n == |Received()| && n < U32
    {
      n := 0;
      for i := 0 to |ranges|
        invariant n == |Bytes(ranges[..i])|
        invariant n <= End(ranges[..i])
      {
        CanonicalPrefix(ranges, i);
        IntervalSize(ranges[i].lo, ranges[i].hi);
        assert Bytes(ranges[..i]) !! Interval(ranges[i].lo, ranges[i].hi);
        n := n + (ranges[i].hi - ranges[i].lo);
      }
      assert ranges[..|ranges|] == ranges;
    }

    /** Closes the stretch from `cursor` to `next` in which nothing was received. */
    static method AppendGap(gaps: seq<Range>, cursor: nat, next: nat, ghost received: set<int>) returns (out: seq<Range>)
      requires Canonical(gaps) && (gaps == [] || End(gaps) < cursor) && cursor <= next
      requires Bytes(gaps) == Interval(0, cursor) - received
      requires forall x :: x in received ==> x < cursor
      ensures Canonical(out) && (out == [] || End(out) <= next)
      ensures Bytes(out) == Interval(0, next) - received
    {
      out := gaps;
      GapStep(gaps, cursor, next, received);
      if next > cursor {
        out := out + [Range(cursor, next)];
      }
    }

    /** Exactly the maximal missing intervals below `total` (or below the last received byte, if that is later). */
    method Gaps(total: nat) returns (gaps: seq<Range>)
      requires Valid()
      ensures Canonical(gaps)
      ensures Bytes(gaps) == Interval(0, if total < End(ranges) then End(ranges) else total) - Received()
    {
      gaps := [];
      var cursor := 0;
      for i := 0 to |ranges|
        invariant cursor == End(ranges[..i])
        invariant Canonical(gaps) && (gaps == [] || End(gaps) < cursor)
        invariant Bytes(gaps) == Interval(0, cursor) - Bytes(ranges[..i])
      {
        CanonicalPrefix(ranges, i);
        gaps := AppendGap(gaps, cursor, ranges[i].lo, Bytes(ranges[..i]));
        RangeIsNoGap(ranges[i], Bytes(ranges[..i]));
        cursor := if cursor < ranges[i].hi then ranges[i].hi else cursor;
      }
      assert ranges[..|ranges|] == ranges;
      EndBounds(ranges);
      if cursor < total {
        gaps := AppendGap(gaps, cursor, total, Bytes(ranges));
      }
    }
  }

  lemma {:induction false} RangeIsNoGap(r: Range, received: set<int>)
    requires r.lo < r.hi && forall x :: x in received ==> 0 <= x < r.lo
    ensures Interval(0, r.lo) - received == Interval(0, r.hi) - (received + Interval(r.lo, r.hi))
  {
  }
}
