/** Oldest-first eviction of verified archives. */
module Storage {
  import opened Sorting

  datatype FileEntry = FileEntry(path: string, mtime: int, size: nat)

  function Sum(files: seq<FileEntry>): nat {
    if files == [] then 0 else Sum(files[..|files| - 1]) + files[|files| - 1].size
  }

  lemma {:induction false} SumSnoc(files: seq<FileEntry>, f: FileEntry)
    ensures Sum(files + [f]) == Sum(files) + f.size
  {
    assert (files + [f])[..|files|] == files;
  }

  lemma {:induction false} SumConcat(a: seq<FileEntry>, b: seq<FileEntry>)
    ensures Sum(a + b) == Sum(a) + Sum(b)
  {
    if b == [] {
      assert a + b == a;
    } else {
      SumConcat(a, b[..|b| - 1]);
      assert (a + b)[..|a + b| - 1] == a + b[..|b| - 1];
    }
  }

  /** A rearrangement keeps the total. */
  lemma {:induction false} SumPermuted(a: seq<FileEntry>, b: seq<FileEntry>)
    requires multiset(a) == multiset(b)
    ensures Sum(a) == Sum(b)
    decreases |a|
  {
    if a == [] {
      assert |b| == |multiset(b)| == 0;
    } else {
      var f := a[|a| - 1];
      assert a == a[..|a| - 1] + [f];
      assert f in multiset(b);
      var i :| 0 <= i < |b| && b[i] == f;
      var rest := Without(b, i);
      assert multiset(a) == multiset(a[..|a| - 1]) + multiset{f};
      assert multiset(a[..|a| - 1]) == multiset(rest) by {
        assert multiset(a) - multiset{f} == multiset(rest);
      }
      SumPermuted(a[..|a| - 1], rest);
    }
  }

  /** `b` without its `i`-th file: the total and the contents drop by that file. */
  lemma {:induction false} Without(b: seq<FileEntry>, i: nat) returns (rest: seq<FileEntry>)
    requires i < |b|
    ensures multiset(b) == multiset(rest) + multiset{b[i]}
    ensures Sum(b) == Sum(rest) + b[i].size
  {
    rest := b[..i] + b[i + 1..];
    assert b == b[..i] + [b[i]] + b[i + 1..];
    SumConcat(b[..i], b[i + 1..]);
    SumConcat(b[..i] + [b[i]], b[i + 1..]);
    SumSnoc(b[..i], b[i]);
  }

  function MtimeKey(f: FileEntry): Key {
    (f.mtime, 0)
  }

  /** Everything removed is at most as recent as everything kept. */
  ghost predicate OldestFirst(removed: seq<FileEntry>, kept: seq<FileEntry>) {
    forall i, j :: 0 <= i < |removed| && 0 <= j < |kept| ==> removed[i].mtime <= kept[j].mtime
  }

  method TotalSize(files: seq<FileEntry>) returns (total: nat)
    ensures total == Sum(files)
  {
    total := 0;
    for i := 0 to |files|
      invariant total == Sum(files[..i])
    {
      assert files[..i + 1] == files[..i] + [files[i]];
      SumSnoc(files[..i], files[i]);
      total := total + files[i].size;
    }
    assert files[..|files|] == files;
  }

  /** The deletion loop over the sorted list: how many files go. */
  method CountEvicted(sorted: seq<FileEntry>, maxBytes: nat) returns (i: nat)
    ensures i <= |sorted| && Sum(sorted) - Sum(sorted[..i]) <= maxBytes
    ensures i > 0 ==> Sum(sorted) - Sum(sorted[..i - 1]) > maxBytes
  {
    var total: int := TotalSize(sorted);
    i := 0;
    while i < |sorted| && total > maxBytes
      invariant i <= |sorted| && total == Sum(sorted) - Sum(sorted[..i])
      invariant i > 0 ==> Sum(sorted) - Sum(sorted[..i - 1]) > maxBytes
    {
      assert sorted[..i + 1] == sorted[..i] + [sorted[i]];
      SumSnoc(sorted[..i], sorted[i]);
      total := total - sorted[i].size;
      i := i + 1;
    }
    assert sorted[..|sorted|] == sorted;
  }

  /**
   * Leaves at most `maxBytes`, removes oldest files first, and no more than needed: putting the last
   * removed file back would exceed the limit.
   */
  method EnforceStorageLimit(verified: seq<FileEntry>, maxBytes: nat)
    returns (removed: seq<FileEntry>, kept: seq<FileEntry>)
    ensures multiset(removed) + multiset(kept) == multiset(verified)
    ensures Sum(kept) <= maxBytes
    ensures removed != [] ==> Sum(kept) + removed[|removed| - 1].size > maxBytes
    ensures OldestFirst(removed, kept) && SortedBy(removed, MtimeKey)
  {
    var total := TotalSize(verified);
    if total <= maxBytes {
      return [], verified;
    }
    var sorted := SortByKey(verified, MtimeKey);
    SumPermuted(sorted, verified);
    var i := CountEvicted(sorted, maxBytes);
    removed, kept := sorted[..i], sorted[i..];
    SplitAt(sorted, i);
  }

  lemma {:induction false} SumSplit(files: seq<FileEntry>, i: nat)
    requires i <= |files|
    ensures multiset(files[..i]) + multiset(files[i..]) == multiset(files)
    ensures Sum(files[i..]) == Sum(files) - Sum(files[..i])
    ensures i > 0 ==> Sum(files[..i]) == Sum(files[..i - 1]) + files[i - 1].size
  {
    assert files == files[..i] + files[i..];
    SumConcat(files[..i], files[i..]);
    if i > 0 {
      assert files[..i] == files[..i - 1] + [files[i - 1]];
      SumSnoc(files[..i - 1], files[i - 1]);
    }
  }

  lemma {:induction false} SplitAt(sorted: seq<FileEntry>, i: nat)
    requires i <= |sorted| && SortedBy(sorted, MtimeKey)
    ensures multiset(sorted[..i]) + multiset(sorted[i..]) == multiset(sorted)
    ensures Sum(sorted[i..]) == Sum(sorted) - Sum(sorted[..i])
    ensures i > 0 ==> Sum(sorted[..i]) == Sum(sorted[..i - 1]) + sorted[i - 1].size
    ensures OldestFirst(sorted[..i], sorted[i..]) && SortedBy(sorted[..i], MtimeKey)
  {
    SumSplit(sorted, i);
    forall a, b | 0 <= a < i && 0 <= b < |sorted| - i ensures sorted[..i][a].mtime <= sorted[i..][b].mtime {
      assert KeyLe(MtimeKey(sorted[a]), MtimeKey(sorted[i + b]));
    }
  }

  // ---- Leftover temporary files ----

  function LastDot(name: string): int {
    if name == "" then -1 else if name[|name| - 1] == '.' then |name| - 1 else LastDot(name[..|name| - 1])
  }

  /** `std::filesystem::path::extension`: from the last dot, unless the name only starts with it. */
  function Extension(name: string): string {
    if 0 < LastDot(name) < |name| then name[LastDot(name)..] else ""
  }

  lemma {:induction false} LastDotOf(stem: string, ext: string)
    requires '.' !in ext
    ensures LastDot(stem + "." + ext) == |stem|
  {
    var name := stem + "." + ext;
    if ext != "" {
      assert name[|name| - 1] == ext[|ext| - 1] && ext[|ext| - 1] in ext;
      assert name[..|name| - 1] == stem + "." + ext[..|ext| - 1];
      LastDotOf(stem, ext[..|ext| - 1]);
    }
  }

  /** Temporary names are recognised whatever they start with, and a final archive name never is. */
  lemma {:induction false} OnlyPartialsMatch(stem: string)
    requires stem != ""
    ensures Extension(stem + ".partial") == ".partial"
    ensures Extension(stem + ".bin") != ".partial"
  {
    LastDotOf(stem, "partial");
    LastDotOf(stem, "bin");
    assert stem + "." + "partial" == stem + ".partial" && stem + "." + "bin" == stem + ".bin";
    assert (stem + ".bin")[|stem|..] == ".bin" && (stem + ".partial")[|stem|..] == ".partial";
  }

  /** The restart: removes the partial files of the temporary directory and nothing else. */
  method CleanupPartials(names: seq<string>) returns (removed: seq<string>, left: seq<string>)
    ensures multiset(removed) + multiset(left) == multiset(names)
    ensures forall n :: n in removed ==> Extension(n) == ".partial"
    ensures forall n :: n in left ==> Extension(n) != ".partial"
  {
    removed, left := [], [];
    for i := 0 to |names|
      invariant multiset(removed) + multiset(left) == multiset(names[..i])
      invariant forall n :: n in removed ==> Extension(n) == ".partial"
      invariant forall n :: n in left ==> Extension(n) != ".partial"
    {
      assert names[..i + 1] == names[..i] + [names[i]];
      if Extension(names[i]) == ".partial" {
        removed := removed + [names[i]];
      } else {
        left := left + [names[i]];
      }
    }
    assert names[..|names|] == names;
  }
}
