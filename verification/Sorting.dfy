/** The one sort the sources use (`std::sort`): any ordered rearrangement by a key. */
module Sorting {
  type Key = (int, int)

  predicate KeyLe(a: Key, b: Key) {
    a.0 < b.0 || (a.0 == b.0 && a.1 <= b.1)
  }

  ghost predicate SortedBy<T>(s: seq<T>, key: T -> Key) {
    forall i, j :: 0 <= i < j < |s| ==> KeyLe(key(s[i]), key(s[j]))
  }

  /** Rearranges `s` into key order. The order among equal keys is left open, as `std::sort` leaves it. */
  method SortByKey<T>(s: seq<T>, key: T -> Key) returns (r: seq<T>)
    ensures SortedBy(r, key)
    ensures multiset(r) == multiset(s)
  {
    r := [];
    for i := 0 to |s|
      invariant SortedBy(r, key)
      invariant multiset(r) == multiset(s[..i])
    {
      r := InsertByKey(r, s[i], key);
      assert s[..i + 1] == s[..i] + [s[i]];
    }
    assert s[..|s|] == s;
  }

  method InsertByKey<T>(s: seq<T>, x: T, key: T -> Key) returns (r: seq<T>)
    requires SortedBy(s, key)
    ensures SortedBy(r, key)
    ensures multiset(r) == multiset(s) + multiset{x}
  {
    if s == [] || KeyLe(key(s[|s| - 1]), key(x)) {
      r := s + [x];
    } else {
      var front, last := s[..|s| - 1], s[|s| - 1];
      assert s == front + [last];
      var inner := InsertByKey(front, x, key);
      forall y | y in inner ensures KeyLe(key(y), key(last)) {
        assert y in multiset(inner);
        assert y == x || y in front;
      }
      r := inner + [last];
    }
  }
}
