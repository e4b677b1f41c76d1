/** Left folds over byte buffers, kept free of bit-vectors so that proofs about them stay small. */
module ByteFold {
  import opened MavlinkLog

  function Fold<T>(f: (T, byte) -> T, init: T, data: seq<byte>): T {
    if data == [] then init else f(Fold(f, init, data[..|data| - 1]), data[|data| - 1])
  }

  lemma {:induction false} FoldSnoc<T>(f: (T, byte) -> T, init: T, data: seq<byte>, b: byte)
    ensures Fold(f, init, data + [b]) == f(Fold(f, init, data), b)
  {
    assert (data + [b])[..|data|] == data;
  }

  lemma {:induction false} FoldConcat<T>(f: (T, byte) -> T, init: T, a: seq<byte>, b: seq<byte>)
    ensures Fold(f, init, a + b) == Fold(f, Fold(f, init, a), b)
  {
    if b == [] {
      assert a + b == a;
    } else {
      FoldConcat(f, init, a, b[..|b| - 1]);
      assert (a + b)[..|a + b| - 1] == a + b[..|b| - 1];
    }
  }

  lemma {:induction false} FoldInjective<T(!new)>(f: (T, byte) -> T, x: T, y: T, data: seq<byte>)
    requires forall r, s, b :: f(r, b) == f(s, b) ==> r == s
    requires Fold(f, x, data) == Fold(f, y, data)
    ensures x == y
  {
    if data != [] {
      FoldInjective(f, x, y, data[..|data| - 1]);
    }
  }

  /** One differing byte between a common prefix and a common suffix shows in the result. */
  lemma {:induction false} FoldSeparates<T(!new)>(f: (T, byte) -> T, init: T, prefix: seq<byte>, b: byte, c: byte, suffix: seq<byte>)
    requires forall r, s, d :: f(r, d) == f(s, d) ==> r == s
    requires forall r, d, e :: f(r, d) == f(r, e) ==> d == e
    requires b != c
    ensures Fold(f, init, prefix + [b] + suffix) != Fold(f, init, prefix + [c] + suffix)
  {
    FoldConcat(f, init, prefix + [b], suffix);
    FoldConcat(f, init, prefix + [c], suffix);
    FoldSnoc(f, init, prefix, b);
    FoldSnoc(f, init, prefix, c);
    if Fold(f, init, prefix + [b] + suffix) == Fold(f, init, prefix + [c] + suffix) {
      FoldInjective(f, Fold(f, init, prefix + [b]), Fold(f, init, prefix + [c]), suffix);
    }
  }
}
