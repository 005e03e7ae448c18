/**
 * Pixel filters and the filter list that the builder edits.
 *
 * A filter is a value with a caller-chosen identifier and a predicate over
 * one RGBA pixel ("this pixel is acceptable"). The list operations here are
 * the ones Builder.swift applies to `Options.filters`: `append` and
 * `removeAll(where: id == f.id)`.
 */
module Filters {

  /** Swift's UInt8. */
  type byte = x: int | 0 <= x < 256

  /** The identifier type is not given; only its equality is used. */
  type FilterId(==)

  datatype Filter = Filter(id: FilterId, f: (byte, byte, byte, byte) -> bool)

  /** No filter in `fs` carries the identifier `id`. */
  ghost predicate FreeOf(fs: seq<Filter>, id: FilterId) {
    forall i :: 0 <= i < |fs| ==> fs[i].id != id
  }

  /** Number of filters in `fs` that carry the identifier `id`. */
  function CountId(fs: seq<Filter>, id: FilterId): (n: nat)
    ensures n <= |fs|
  {
    if fs == [] then 0 else (if fs[0].id == id then 1 else 0) + CountId(fs[1..], id)
  }

  /** `r` is obtained from `s` by deleting some elements, keeping the order. */
  ghost predicate IsSubsequence(r: seq<Filter>, s: seq<Filter>)
    decreases |s|
  {
    r == [] ||
    (s != [] &&
     ((r[0] == s[0] && IsSubsequence(r[1..], s[1..])) || IsSubsequence(r, s[1..])))
  }

  /**
   * The filter list after `removeAll(where: { $0.id == id })`: every filter
   * whose identifier differs from `id`, in the original order.
   */
  function WithoutId(fs: seq<Filter>, id: FilterId): (r: seq<Filter>)
    ensures FreeOf(r, id)
    ensures |r| + CountId(fs, id) == |fs|
  {
    if fs == [] then []
    else if fs[0].id == id then WithoutId(fs[1..], id)
    else [fs[0]] + WithoutId(fs[1..], id)
  }

  /** Removing by identifier keeps the survivors in their original order. */
  lemma {:induction false} WithoutIdIsSubsequence(fs: seq<Filter>, id: FilterId)
    ensures IsSubsequence(WithoutId(fs, id), fs)
  {
    if fs != [] {
      WithoutIdIsSubsequence(fs[1..], id);
      var r := WithoutId(fs, id);
      if fs[0].id == id {
        SubsequenceOfTail(r, fs);
      } else {
        assert r[0] == fs[0] && r[1..] == WithoutId(fs[1..], id);
      }
    }
  }

  lemma SubsequenceOfTail(r: seq<Filter>, s: seq<Filter>)
    requires s != [] && IsSubsequence(r, s[1..])
    ensures IsSubsequence(r, s)
  {
  }

  /** A subsequence that avoids `id` can be no longer than the filters of `s` that avoid it. */
  lemma {:induction false} SubsequenceBound(r: seq<Filter>, s: seq<Filter>, id: FilterId)
    requires IsSubsequence(r, s) && FreeOf(r, id)
    ensures |r| + CountId(s, id) <= |s|
    decreases |s|
  {
    if r == [] {
    } else if r[0] == s[0] && IsSubsequence(r[1..], s[1..]) {
      assert FreeOf(r[1..], id);
      SubsequenceBound(r[1..], s[1..], id);
    } else {
      SubsequenceBound(r, s[1..], id);
    }
  }

  /**
   * `WithoutId` is the only such list: a subsequence of `fs` that avoids
   * `id` and has every filter of `fs` that avoids `id` is `WithoutId(fs, id)`.
   */
  lemma {:induction false} WithoutIdUnique(fs: seq<Filter>, id: FilterId, r: seq<Filter>)
    requires IsSubsequence(r, fs) && FreeOf(r, id)
    requires |r| + CountId(fs, id) == |fs|
    ensures r == WithoutId(fs, id)
    decreases |fs|
  {
    if fs == [] {
    } else if fs[0].id == id {
      if r != [] && r[0] == fs[0] {
        assert false;
      }
      assert r == [] || IsSubsequence(r, fs[1..]);
      WithoutIdUnique(fs[1..], id, r);
    } else if r == [] {
      assert false;
    } else if r[0] == fs[0] && IsSubsequence(r[1..], fs[1..]) {
      assert FreeOf(r[1..], id);
      WithoutIdUnique(fs[1..], id, r[1..]);
      assert r == [r[0]] + r[1..];
    } else {
      SubsequenceBound(r, fs[1..], id);
      assert false;
    }
  }

  /** A list without `id` is left as it is. */
  lemma {:induction false} WithoutIdOfFree(fs: seq<Filter>, id: FilterId)
    requires FreeOf(fs, id)
    ensures WithoutId(fs, id) == fs
  {
    if fs != [] {
      assert FreeOf(fs[1..], id);
      WithoutIdOfFree(fs[1..], id);
      assert fs == [fs[0]] + fs[1..];
    }
  }

  /** Removing the same identifier twice is removing it once. */
  lemma WithoutIdIdempotent(fs: seq<Filter>, id: FilterId)
    ensures WithoutId(WithoutId(fs, id), id) == WithoutId(fs, id)
  {
    WithoutIdOfFree(WithoutId(fs, id), id);
  }

  /** Removal distributes over concatenation. */
  lemma {:induction false} WithoutIdAppend(a: seq<Filter>, b: seq<Filter>, id: FilterId)
    ensures WithoutId(a + b, id) == WithoutId(a, id) + WithoutId(b, id)
  {
    if a != [] {
      assert (a + b)[1..] == a[1..] + b;
      WithoutIdAppend(a[1..], b, id);
    } else {
      assert a + b == b;
    }
  }

  /** Appending a filter whose identifier is new and then removing it restores the list. */
  lemma AddThenRemove(fs: seq<Filter>, f: Filter)
    requires FreeOf(fs, f.id)
    ensures WithoutId(fs + [f], f.id) == fs
  {
    WithoutIdAppend(fs, [f], f.id);
    WithoutIdOfFree(fs, f.id);
  }

  /**
   * Swift's `removeAll(where: { $0.id == id })` on a filter list, written as
   * the single pass it performs.
   */
  method RemoveAll(fs: seq<Filter>, id: FilterId) returns (kept: seq<Filter>)
    ensures kept == WithoutId(fs, id)
  {
    kept := [];
    var i := 0;
    while i < |fs|
      invariant 0 <= i <= |fs|
      invariant kept == WithoutId(fs[..i], id)
    {
      WithoutIdAppend(fs[..i], [fs[i]], id);
      assert fs[..i + 1] == fs[..i] + [fs[i]];
      if fs[i].id != id {
        kept := kept + [fs[i]];
      }
      i := i + 1;
    }
    assert fs[..i] == fs;
  }
}
