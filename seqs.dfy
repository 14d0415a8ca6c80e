/**
 * The shape shared by every filtering loop of the source:
 * `for x in xs: if p(x): out.append(f(x))`.
 */
module Seqs {

  /** The images under `f` of the elements of `s` that satisfy `p`, in the order of `s`. */
  function FilterMap<T, U>(s: seq<T>, p: T -> bool, f: T -> U): (r: seq<U>)
    ensures |r| <= |s|
  {
    if |s| == 0 then []
    else FilterMap(s[..|s| - 1], p, f) + (if p(s[|s| - 1]) then [f(s[|s| - 1])] else [])
  }

  /** The number of elements of `s` that satisfy `p`. */
  function Count<T>(s: seq<T>, p: T -> bool): nat {
    if |s| == 0 then 0
    else Count(s[..|s| - 1], p) + (if p(s[|s| - 1]) then 1 else 0)
  }

  /**
   * `idx` lists, in increasing order, exactly the positions of `s` whose
   * element satisfies `p`, and `r` holds the images of those elements.
   */
  ghost predicate Enumerates<T, U>(r: seq<U>, s: seq<T>, p: T -> bool, f: T -> U, idx: seq<nat>) {
    && |idx| == |r|
    && (forall k :: 0 <= k < |idx| ==> idx[k] < |s| && p(s[idx[k]]) && r[k] == f(s[idx[k]]))
    && (forall k, l :: 0 <= k < l < |idx| ==> idx[k] < idx[l])
    && (forall j :: 0 <= j < |s| && p(s[j]) ==> j in idx)
  }

  /** `FilterMap` keeps, in order, exactly the elements that satisfy `p`, and maps each by `f`. */
  lemma {:induction false} FilterMapEnumerates<T, U>(s: seq<T>, p: T -> bool, f: T -> U)
    ensures exists idx :: Enumerates(FilterMap(s, p, f), s, p, f, idx)
  {
    if |s| == 0 {
      assert Enumerates(FilterMap(s, p, f), s, p, f, []);
    } else {
      var n := |s| - 1;
      FilterMapEnumerates(s[..n], p, f);
      var idx0 :| Enumerates(FilterMap(s[..n], p, f), s[..n], p, f, idx0);
      if p(s[n]) {
        EnumeratesKeep(s, p, f, idx0);
      } else {
        EnumeratesSkip(s, p, f, idx0);
      }
    }
  }

  lemma EnumeratesKeep<T, U>(s: seq<T>, p: T -> bool, f: T -> U, idx0: seq<nat>)
    requires |s| > 0 && p(s[|s| - 1])
    requires Enumerates(FilterMap(s[..|s| - 1], p, f), s[..|s| - 1], p, f, idx0)
    ensures Enumerates(FilterMap(s, p, f), s, p, f, idx0 + [|s| - 1])
  {
    var n := |s| - 1;
    var init := FilterMap(s[..n], p, f);
    var r := FilterMap(s, p, f);
    var idx := idx0 + [n];
    assert r == init + [f(s[n])];
    forall k | 0 <= k < |idx|
      ensures idx[k] < |s| && p(s[idx[k]]) && r[k] == f(s[idx[k]])
    {
      if k < |idx0| {
        assert idx[k] == idx0[k] && s[..n][idx0[k]] == s[idx0[k]];
      }
    }
    forall k, l | 0 <= k < l < |idx| ensures idx[k] < idx[l] {
      if l < |idx0| { assert idx[k] == idx0[k] && idx[l] == idx0[l]; }
      else { assert idx[k] == idx0[k] < n; }
    }
    forall j | 0 <= j < |s| && p(s[j]) ensures j in idx {
      if j < n {
        assert s[..n][j] == s[j];
        assert j in idx0;
      } else {
        assert idx[|idx| - 1] == n;
      }
    }
  }

  lemma EnumeratesSkip<T, U>(s: seq<T>, p: T -> bool, f: T -> U, idx0: seq<nat>)
    requires |s| > 0 && !p(s[|s| - 1])
    requires Enumerates(FilterMap(s[..|s| - 1], p, f), s[..|s| - 1], p, f, idx0)
    ensures Enumerates(FilterMap(s, p, f), s, p, f, idx0)
  {
    var n := |s| - 1;
    var r := FilterMap(s, p, f);
    assert r == FilterMap(s[..n], p, f);
    forall k | 0 <= k < |idx0|
      ensures idx0[k] < |s| && p(s[idx0[k]]) && r[k] == f(s[idx0[k]])
    {
      assert s[..n][idx0[k]] == s[idx0[k]];
    }
    SkippedLastCovered(s, p, idx0);
  }

  /** Positions of the prefix that satisfy `p` are all the positions that do, when the last one does not. */
  lemma SkippedLastCovered<T>(s: seq<T>, p: T -> bool, idx: seq<nat>)
    requires |s| > 0 && !p(s[|s| - 1])
    requires forall j :: 0 <= j < |s| - 1 && p(s[..|s| - 1][j]) ==> j in idx
    ensures forall j :: 0 <= j < |s| && p(s[j]) ==> j in idx
  {
    forall j | 0 <= j < |s| && p(s[j]) ensures j in idx {
      assert s[..|s| - 1][j] == s[j];
    }
  }

  /** As many results as elements satisfying `p`. */
  lemma {:induction false} FilterMapLength<T, U>(s: seq<T>, p: T -> bool, f: T -> U)
    ensures |FilterMap(s, p, f)| == Count(s, p)
  {
    if |s| > 0 {
      FilterMapLength(s[..|s| - 1], p, f);
    }
  }

  /** Filtering distributes over concatenation. */
  lemma {:induction false} FilterMapAppend<T, U>(s: seq<T>, t: seq<T>, p: T -> bool, f: T -> U)
    ensures FilterMap(s + t, p, f) == FilterMap(s, p, f) + FilterMap(t, p, f)
    decreases |t|
  {
    if |t| == 0 {
      assert s + t == s;
    } else {
      var n := |t| - 1;
      assert (s + t)[..|s + t| - 1] == s + t[..n];
      FilterMapAppend(s, t[..n], p, f);
    }
  }
}
