/** The bytewise lexicographic order of Rust strings, and sorted traversal of a `BTreeMap`'s keys. */
module ByteOrder {
  import opened Basics
  import opened Search

  predicate Less(a: Str, b: Str) {
    b != [] && (a == [] || a[0] < b[0] || (a[0] == b[0] && Less(a[1..], b[1..])))
  }

  /** `a` and `b` agree before `i`, and there `a` ends or has the smaller byte. */
  ghost predicate PartAt(a: Str, b: Str, i: nat) {
    i <= |a| && i < |b| && a[..i] == b[..i] && (i == |a| || a[i] < b[i])
  }

  /** The order is that of the first differing byte, by value; a proper prefix comes first. */
  lemma {:induction false} LessByValue(a: Str, b: Str)
    ensures Less(a, b) <==> exists i: nat :: PartAt(a, b, i)
  {
    if Less(a, b) {
      if a == [] || a[0] < b[0] {
        assert PartAt(a, b, 0);
      } else {
        LessByValue(a[1..], b[1..]);
        var i: nat :| PartAt(a[1..], b[1..], i);
        assert a[..i + 1] == [a[0]] + a[1..][..i] && b[..i + 1] == [b[0]] + b[1..][..i];
        assert PartAt(a, b, i + 1);
      }
    }
    if i: nat :| PartAt(a, b, i) {
      if i > 0 {
        assert a[0] == a[..i][0] == b[..i][0] == b[0];
        assert a[1..][..i - 1] == a[..i][1..] && b[1..][..i - 1] == b[..i][1..];
        assert PartAt(a[1..], b[1..], i - 1);
        LessByValue(a[1..], b[1..]);
      }
    }
  }

  lemma {:induction false} LessIrreflexive(a: Str)
    ensures !Less(a, a)
  {
    if a != [] { LessIrreflexive(a[1..]); }
  }

  lemma {:induction false} LessTransitive(a: Str, b: Str, c: Str)
    requires Less(a, b) && Less(b, c)
    ensures Less(a, c)
  {
    if a != [] && a[0] == b[0] == c[0] {
      LessTransitive(a[1..], b[1..], c[1..]);
    }
  }

  lemma {:induction false} LessTotal(a: Str, b: Str)
    ensures a == b || Less(a, b) || Less(b, a)
  {
    if a != [] && b != [] && a[0] == b[0] {
      LessTotal(a[1..], b[1..]);
      assert a == [a[0]] + a[1..] && b == [b[0]] + b[1..];
    }
  }

  lemma LessAsymmetric(a: Str, b: Str)
    requires Less(a, b)
    ensures !Less(b, a) && a != b
  {
    if Less(b, a) { LessTransitive(a, b, a); }
    LessIrreflexive(a);
  }

  /** Appending a zero byte gives the immediate successor: nothing lies strictly between. */
  lemma {:induction false} ZeroByteIsSuccessor(a: Str, k: Str)
    ensures Less(a, k) <==> !Less(k, a + [0])
  {
    if a == [] {
      if k != [] {
        assert !Less(k[1..], []);
      }
    } else if k != [] {
      assert (a + [0])[0] == a[0] && (a + [0])[1..] == a[1..] + [0];
      ZeroByteIsSuccessor(a[1..], k[1..]);
    }
  }

  lemma StartsWithStep(s: Str, p: Str)
    requires p != []
    ensures StartsWith(s, p) <==> s != [] && s[0] == p[0] && StartsWith(s[1..], p[1..])
  {
    assert p == [p[0]] + p[1..];
    if |p| <= |s| {
      assert s[..|p|] == [s[0]] + s[1..][..|p| - 1];
    }
  }

  /** A string is never below one of its prefixes. */
  lemma {:induction false} PrefixNotAbove(k: Str, p: Str)
    requires StartsWith(k, p)
    ensures !Less(k, p)
  {
    if p != [] {
      StartsWithStep(k, p);
      PrefixNotAbove(k[1..], p[1..]);
    }
  }

  /** The strings with a given prefix form an interval. */
  lemma {:induction false} PrefixContiguous(p: Str, a: Str, b: Str, c: Str)
    requires StartsWith(a, p) && StartsWith(c, p)
    requires !Less(b, a) && !Less(c, b)
    ensures StartsWith(b, p)
  {
    if p != [] {
      StartsWithStep(a, p);
      StartsWithStep(b, p);
      StartsWithStep(c, p);
      PrefixContiguous(p[1..], a[1..], b[1..], c[1..]);
    }
  }

  /** Two prefixes, neither extending the other, are ordered as the strings that carry them. */
  lemma {:induction false} PrefixOrder(p: Str, q: Str, k: Str, l: Str)
    requires StartsWith(k, p) && StartsWith(l, q) && Less(k, l)
    requires !StartsWith(p, q) && !StartsWith(q, p)
    ensures Less(p, q)
  {
    StartsWithStep(k, p);
    StartsWithStep(l, q);
    StartsWithStep(p, q);
    StartsWithStep(q, p);
    if p[0] == q[0] {
      PrefixOrder(p[1..], q[1..], k[1..], l[1..]);
    }
  }

  ghost predicate Sorted(ks: seq<Str>) {
    forall i, j :: 0 <= i < j < |ks| ==> Less(ks[i], ks[j])
  }

  predicate IsLeast(s: set<Str>, m: Str) {
    m in s && forall k :: k in s ==> k == m || Less(m, k)
  }

  lemma {:induction false} LeastExists(s: set<Str>)
    requires s != {}
    ensures exists m :: IsLeast(s, m)
    decreases |s|
  {
    var x :| x in s;
    var rest := s - {x};
    if rest == {} {
      assert s == {x};
      assert IsLeast(s, x);
    } else {
      LeastExists(rest);
      var l :| IsLeast(rest, l);
      LessTotal(x, l);
      if Less(l, x) {
        assert IsLeast(s, l);
      } else {
        forall k | k in rest && k != l ensures Less(x, k) { LessTransitive(x, l, k); }
        assert IsLeast(s, x);
      }
    }
  }

  lemma LeastUnique(s: set<Str>)
    ensures forall a, b :: IsLeast(s, a) && IsLeast(s, b) ==> a == b
  {
    forall a, b | IsLeast(s, a) && IsLeast(s, b) ensures a == b {
      if a != b { LessAsymmetric(a, b); }
    }
  }

  function Least(s: set<Str>): (m: Str)
    requires s != {}
    ensures IsLeast(s, m)
  {
    LeastExists(s);
    LeastUnique(s);
    var m :| m in s && IsLeast(s, m);
    m
  }

  /** The keys of a `BTreeMap`, in its iteration order. */
  function SortedKeys(s: set<Str>): (ks: seq<Str>)
    ensures Sorted(ks)
    ensures forall k :: k in ks <==> k in s
    decreases |s|
  {
    if s == {} then []
    else
      var m := Least(s);
      var rest := SortedKeys(s - {m});
      assert forall k :: k in rest ==> Less(m, k);
      [m] + rest
  }

  /** `BTreeMap::range(lower..)`. */
  function Range(s: set<Str>, lower: Str): (ks: seq<Str>)
    ensures Sorted(ks)
    ensures forall k :: k in ks <==> k in s && !Less(k, lower)
  {
    SortedKeys(set k | k in s && !Less(k, lower))
  }

  /** A sorted sequence is determined by its elements. */
  lemma {:induction false} SortedUnique(a: seq<Str>, b: seq<Str>)
    requires Sorted(a) && Sorted(b)
    requires forall k :: k in a <==> k in b
    ensures a == b
  {
    if a == [] {
      if b != [] { var k := SomeMember(b); }
    } else {
      assert a[0] in b && b != [] && b[0] in a;
      if a[0] != b[0] {
        assert Less(b[0], a[0]) && Less(a[0], b[0]);
        LessAsymmetric(a[0], b[0]);
      }
      forall k ensures k in a[1..] <==> k in b[1..] {
        LessIrreflexive(k);
        assert k in a <==> k == a[0] || k in a[1..];
        assert k in b <==> k == b[0] || k in b[1..];
      }
      SortedUnique(a[1..], b[1..]);
    }
  }
}
