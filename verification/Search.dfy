/** Prefix tests and first-occurrence search over sequences, shared by the listing walk
    (`src/index.rs`) and the part-list scanner (`src/gateway.rs`). */
module Search {
  import opened Basics

  predicate StartsWith<T(==)>(s: seq<T>, p: seq<T>) {
    |p| <= |s| && s[..|p|] == p
  }

  predicate OccursAt<T(==)>(s: seq<T>, pat: seq<T>, i: int) {
    0 <= i && i + |pat| <= |s| && s[i..i + |pat|] == pat
  }

  ghost predicate Occurs<T>(s: seq<T>, pat: seq<T>) {
    exists i :: OccursAt(s, pat, i)
  }

  lemma StartsWithExactly<T>(s: seq<T>, p: seq<T>)
    ensures StartsWith(s, p) <==> exists rest :: s == p + rest
  {
    if StartsWith(s, p) { assert s == p + s[|p|..]; }
  }

  lemma OccursExactly<T>(s: seq<T>, pat: seq<T>, i: nat)
    ensures OccursAt(s, pat, i) <==> exists before, after :: |before| == i && s == before + pat + after
  {
    if OccursAt(s, pat, i) { assert s == s[..i] + pat + s[i + |pat|..]; }
  }

  /** The first position at or after `from` at which `pat` occurs. */
  function FindFrom<T(==)>(s: seq<T>, pat: seq<T>, from: nat): (r: Option<nat>)
    ensures r.Some? ==> from <= r.value && OccursAt(s, pat, r.value)
    ensures r.Some? ==> forall j :: from <= j < r.value ==> !OccursAt(s, pat, j)
    ensures r.None? ==> forall j :: from <= j ==> !OccursAt(s, pat, j)
    decreases |s| - from
  {
    if from + |pat| > |s| then None
    else if s[from..from + |pat|] == pat then Some(from)
    else FindFrom(s, pat, from + 1)
  }

  /** `str::find`: the first occurrence of `pat`. */
  function Find<T(==)>(s: seq<T>, pat: seq<T>): (r: Option<nat>)
    ensures r.Some? ==> OccursAt(s, pat, r.value) && forall j :: 0 <= j < r.value ==> !OccursAt(s, pat, j)
    ensures r.None? <==> !Occurs(s, pat)
  {
    FindFrom(s, pat, 0)
  }

  /** The first occurrence is pinned by its two defining facts. */
  lemma FindIs<T>(s: seq<T>, pat: seq<T>, i: nat)
    requires OccursAt(s, pat, i)
    requires forall j :: 0 <= j < i ==> !OccursAt(s, pat, j)
    ensures Find(s, pat) == Some(i)
  {
  }

  /** Whether a pattern occurs at `i` depends only on the bytes up to its end. */
  lemma OccursInPrefix<T>(s: seq<T>, t: seq<T>, pat: seq<T>, i: int)
    requires i + |pat| <= |s|
    ensures OccursAt(s, pat, i) <==> OccursAt(s + t, pat, i)
  {
    if 0 <= i {
      assert (s + t)[i..i + |pat|] == s[i..i + |pat|];
    }
  }

  lemma OccursAtIndex<T>(s: seq<T>, pat: seq<T>, i: int, k: int)
    requires OccursAt(s, pat, i) && 0 <= k < |pat|
    ensures s[i + k] == pat[k]
  {
    assert s[i..i + |pat|][k] == s[i + k];
  }

  lemma SliceOfSlice<T>(s: seq<T>, a: nat, b: nat, i: nat, j: nat)
    requires a <= b <= |s| && i <= j <= b - a
    ensures s[a..b][i..j] == s[a + i..a + j]
  {
    var inner, outer := s[a..b][i..j], s[a + i..a + j];
    forall k | 0 <= k < j - i ensures inner[k] == outer[k] {
      assert s[a..b][i + k] == s[a + i + k];
    }
  }

  lemma SomeMember<T>(s: seq<T>) returns (x: T)
    requires s != []
    ensures x in s
  {
    x := s[0];
  }
}
