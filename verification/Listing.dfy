/** What a listing means (`Index::list`, `src/index.rs`): filter the visible keys, roll them up by the
    delimiter, take the first items. The walk in `BucketIndex` is proved against this. */
module Listing {
  import opened Basics
  import opened Search
  import opened ByteOrder
  import opened BucketModel

  /** What one key contributes to a listing: itself, or the folder it sits in. */
  datatype Item = Object(key: Str) | Folder(path: Str)

  datatype ListPage = ListPage(
    keys: seq<(Str, ObjectMeta)>,
    commonPrefixes: seq<Str>,
    nextContinuation: Option<Str>,
    isTruncated: bool,
    keyCount: nat,
    maxKeys: nat)

  function ItemOf(k: Str, prefix: Str, delim: Option<Str>): Item
    requires StartsWith(k, prefix)
  {
    if delim.None? then Object(k)
    else
      var at := Find(k[|prefix|..], delim.value);
      if at.None? then Object(k) else Folder(prefix + k[|prefix|..][..at.value] + delim.value)
  }

  predicate Listed(objects: map<Str, ObjectEntry>, prefix: Str, after: Option<Str>, k: Str) {
    Visible(objects, k) && StartsWith(k, prefix) && (after.Some? ==> Less(after.value, k))
  }

  /** The keys a listing draws from: visible, under the prefix, beyond the token; in key order. */
  function Candidates(objects: map<Str, ObjectEntry>, prefix: Str, after: Option<Str>): (ks: seq<Str>)
    ensures Sorted(ks) && Under(ks, prefix)
    ensures forall k :: k in ks <==> Listed(objects, prefix, after, k)
  {
    SortedKeys(set k | k in objects && Listed(objects, prefix, after, k))
  }

  predicate Under(ks: seq<Str>, prefix: Str) {
    forall k :: k in ks ==> StartsWith(k, prefix)
  }

  /** The distinct items of the keys, in order of first appearance. */
  function Rollup(ks: seq<Str>, prefix: Str, delim: Option<Str>): seq<Item>
    requires Under(ks, prefix)
  {
    if ks == [] then []
    else
      var items := Rollup(ks[..|ks| - 1], prefix, delim);
      var item := ItemOf(ks[|ks| - 1], prefix, delim);
      if item in items then items else items + [item]
  }

  ghost predicate Distinct<T>(s: seq<T>) {
    forall i, j :: 0 <= i < j < |s| ==> s[i] != s[j]
  }

  function Objects(items: seq<Item>): seq<Str> {
    if items == [] then []
    else
      var last := items[|items| - 1];
      Objects(items[..|items| - 1]) + if last.Object? then [last.key] else []
  }

  function Folders(items: seq<Item>): seq<Str> {
    if items == [] then []
    else
      var last := items[|items| - 1];
      Folders(items[..|items| - 1]) + if last.Folder? then [last.path] else []
  }

  /** How many leading keys fit on a page of `n` items. */
  function Cut(ks: seq<Str>, prefix: Str, delim: Option<Str>, n: nat): (c: nat)
    requires Under(ks, prefix)
    ensures c <= |ks| && |Rollup(ks[..c], prefix, delim)| <= n
    ensures c < |ks| ==> |Rollup(ks[..c + 1], prefix, delim)| > n
  {
    assert ks[..|ks|] == ks;
    if |Rollup(ks, prefix, delim)| <= n then |ks|
    else
      var shorter := ks[..|ks| - 1];
      var c := Cut(shorter, prefix, delim, n);
      assert shorter[..c] == ks[..c];
      assert c < |shorter| ==> shorter[..c + 1] == ks[..c + 1];
      c
  }

  /** `keys` is `ks`, all visible, each with its current metadata. */
  ghost predicate Carries(objects: map<Str, ObjectEntry>, keys: seq<(Str, ObjectMeta)>, ks: seq<Str>) {
    |keys| == |ks|
    && forall i :: 0 <= i < |ks| ==>
      Visible(objects, ks[i]) && keys[i] == (ks[i], Current(objects[ks[i]]).value.meta)
  }

  /** The page that shows the first `cap` items of the keys. */
  ghost predicate PageOf(page: ListPage, objects: map<Str, ObjectEntry>, ks: seq<Str>, prefix: Str, delim: Option<Str>,
                         cap: nat)
    requires Under(ks, prefix)
  {
    var items := Rollup(ks, prefix, delim);
    var shown := items[..Min(cap, |items|)];
    var cut := Cut(ks, prefix, delim, cap);
    Carries(objects, page.keys, Objects(shown))
    && page.commonPrefixes == Folders(shown)
    && page.isTruncated == (|items| > cap)
    && page.keyCount == |shown|
    && page.maxKeys == cap
    && (if |items| > cap then 0 < cut && page.nextContinuation == Some(ks[cut - 1])
        else page.nextContinuation == None)
  }

  /** The page that listing `max(1, maxKeys)` items after `after` must return. */
  ghost predicate IsPage(page: ListPage, objects: map<Str, ObjectEntry>, prefix: Str, delim: Option<Str>,
                         after: Option<Str>, maxKeys: nat)
  {
    PageOf(page, objects, Candidates(objects, prefix, after), prefix, delim, Max(1, maxKeys))
  }

  // ---- rollup facts ----

  lemma RollupNothing(ks: seq<Str>, prefix: Str, delim: Option<Str>)
    requires Under(ks, prefix)
    ensures Rollup(ks[..0], prefix, delim) == []
  {
  }

  lemma RollupLast(ks: seq<Str>, prefix: Str, delim: Option<Str>)
    requires Under(ks, prefix) && ks != []
    ensures var items, item := Rollup(ks[..|ks| - 1], prefix, delim), ItemOf(ks[|ks| - 1], prefix, delim);
            Rollup(ks, prefix, delim) == if item in items then items else items + [item]
  {
  }

  lemma {:induction false} RollupPrefix(ks: seq<Str>, i: nat, prefix: Str, delim: Option<Str>)
    requires Under(ks, prefix) && i <= |ks|
    ensures Rollup(ks[..i], prefix, delim) <= Rollup(ks, prefix, delim)
  {
    if i == |ks| {
      assert ks[..i] == ks;
    } else {
      var shorter := ks[..|ks| - 1];
      assert shorter[..i] == ks[..i];
      RollupPrefix(shorter, i, prefix, delim);
    }
  }

  /** The rollup lists exactly the keys' items, none of them twice. */
  lemma {:induction false} RollupItems(ks: seq<Str>, prefix: Str, delim: Option<Str>)
    requires Under(ks, prefix)
    ensures forall k :: k in ks ==> ItemOf(k, prefix, delim) in Rollup(ks, prefix, delim)
    ensures forall x :: x in Rollup(ks, prefix, delim) ==> exists k :: k in ks && ItemOf(k, prefix, delim) == x
    ensures Distinct(Rollup(ks, prefix, delim))
  {
    if ks != [] {
      var shorter := ks[..|ks| - 1];
      RollupItems(shorter, prefix, delim);
      assert ks == shorter + [ks[|ks| - 1]];
      var items := Rollup(ks, prefix, delim);
      var item := ItemOf(ks[|ks| - 1], prefix, delim);
      if item !in Rollup(shorter, prefix, delim) {
        assert items == Rollup(shorter, prefix, delim) + [item];
      }
      forall x | x in items ensures exists k :: k in ks && ItemOf(k, prefix, delim) == x {
        if x in Rollup(shorter, prefix, delim) {
          var k :| k in shorter && ItemOf(k, prefix, delim) == x;
          assert k in ks;
        } else {
          assert ks[|ks| - 1] in ks;
        }
      }
    }
  }

  /** A folder's members are precisely the keys that extend its path. */
  lemma FolderMembers(k: Str, l: Str, prefix: Str, delim: Option<Str>)
    requires StartsWith(k, prefix) && StartsWith(l, prefix)
    requires ItemOf(k, prefix, delim).Folder?
    ensures StartsWith(k, ItemOf(k, prefix, delim).path)
    ensures StartsWith(ItemOf(k, prefix, delim).path, prefix)
    ensures ItemOf(l, prefix, delim) == ItemOf(k, prefix, delim) <==> StartsWith(l, ItemOf(k, prefix, delim).path)
  {
    var d := delim.value;
    FolderPath(k, prefix, d);
    var path := ItemOf(k, prefix, delim).path;
    if StartsWith(l, path) {
      FolderOf(l, k, prefix, d);
    }
    if ItemOf(l, prefix, delim) == ItemOf(k, prefix, delim) {
      FolderPath(l, prefix, d);
    }
  }

  lemma FolderPath(k: Str, prefix: Str, d: Str)
    requires StartsWith(k, prefix) && Find(k[|prefix|..], d).Some?
    ensures ItemOf(k, prefix, Some(d)).path == k[..|prefix| + Find(k[|prefix|..], d).value + |d|]
    ensures StartsWith(ItemOf(k, prefix, Some(d)).path, prefix)
  {
    var rest := k[|prefix|..];
    var i := Find(rest, d).value;
    var path := prefix + rest[..i] + d;
    assert rest[i..i + |d|] == d;
    assert k == prefix + rest;
    assert path == k[..|prefix| + i + |d|];
    assert path[..|prefix|] == prefix;
  }

  lemma FolderOf(l: Str, k: Str, prefix: Str, d: Str)
    requires StartsWith(k, prefix) && StartsWith(l, prefix)
    requires Find(k[|prefix|..], d).Some?
    requires StartsWith(l, k[..|prefix| + Find(k[|prefix|..], d).value + |d|])
    ensures Find(l[|prefix|..], d) == Find(k[|prefix|..], d)
  {
    var kr, lr := k[|prefix|..], l[|prefix|..];
    var i := Find(kr, d).value;
    var n := i + |d|;
    assert kr[..n] == k[..|prefix| + n][|prefix|..];
    assert lr[..n] == l[..|prefix| + n][|prefix|..];
    assert kr == kr[..n] + kr[n..] && lr == lr[..n] + lr[n..];
    forall j | 0 <= j <= i ensures OccursAt(lr, d, j) <==> OccursAt(kr, d, j) {
      OccursInPrefix(kr[..n], kr[n..], d, j);
      OccursInPrefix(lr[..n], lr[n..], d, j);
    }
    FindIs(lr, d, i);
  }

  /** What a key contributes: itself when no delimiter follows the prefix, and otherwise the text up to the end of
      the first one that does. */
  lemma ItemExactly(k: Str, prefix: Str, delim: Option<Str>)
    requires StartsWith(k, prefix)
    ensures ItemOf(k, prefix, delim).Folder? <==>
            delim.Some? && exists i: nat :: |prefix| <= i && OccursAt(k, delim.value, i)
    ensures ItemOf(k, prefix, delim).Object? ==> ItemOf(k, prefix, delim) == Object(k)
    ensures forall i: nat ::
              delim.Some? && |prefix| <= i && OccursAt(k, delim.value, i)
              && (forall j :: |prefix| <= j < i ==> !OccursAt(k, delim.value, j)) ==>
                ItemOf(k, prefix, delim) == Folder(k[..i + |delim.value|])
  {
    if delim.Some? {
      var d, n, rest := delim.value, |prefix|, k[|prefix|..];
      forall i: nat | n <= i ensures OccursAt(k, d, i) <==> OccursAt(rest, d, i - n) {
        OccursBehind(k, d, n, i);
      }
      if Find(rest, d).Some? {
        FolderPath(k, prefix, d);
        assert OccursAt(k, d, n + Find(rest, d).value);
        forall i: nat | n <= i && OccursAt(k, d, i) && (forall j :: n <= j < i ==> !OccursAt(k, d, j))
          ensures ItemOf(k, prefix, delim) == Folder(k[..i + |d|])
        {
          forall j | 0 <= j < i - n ensures !OccursAt(rest, d, j) { assert !OccursAt(k, d, n + j); }
          FindIs(rest, d, i - n);
        }
      }
    }
  }

  /** An occurrence behind the first `n` bytes, seen from there. */
  lemma OccursBehind(k: Str, d: Str, n: nat, i: nat)
    requires n <= |k| && n <= i
    ensures OccursAt(k, d, i) <==> OccursAt(k[n..], d, i - n)
  {
    if i + |d| <= |k| { assert k[n..][i - n..i - n + |d|] == k[i..i + |d|]; }
  }

  /** Items are contiguous in key order: a key between two keys of one item shares that item. */
  lemma ItemContiguous(a: Str, b: Str, c: Str, prefix: Str, delim: Option<Str>)
    requires StartsWith(a, prefix) && StartsWith(b, prefix) && StartsWith(c, prefix)
    requires Less(a, b) && !Less(c, b)
    requires ItemOf(a, prefix, delim) == ItemOf(c, prefix, delim)
    ensures ItemOf(b, prefix, delim) == ItemOf(a, prefix, delim)
  {
    match ItemOf(a, prefix, delim)
    case Object(_) =>
    case Folder(path) =>
      FolderMembers(a, b, prefix, delim);
      FolderMembers(a, c, prefix, delim);
      LessAsymmetric(a, b);
      PrefixContiguous(path, a, b, c);
  }

  /** Once the next key opens a new item, no later key returns to an earlier one. */
  lemma NoReturn(ks: seq<Str>, c: nat, j: nat, prefix: Str, delim: Option<Str>)
    requires Sorted(ks) && Under(ks, prefix) && c <= j < |ks|
    requires ItemOf(ks[c], prefix, delim) !in Rollup(ks[..c], prefix, delim)
    ensures ItemOf(ks[j], prefix, delim) !in Rollup(ks[..c], prefix, delim)
  {
    RollupItems(ks[..c], prefix, delim);
    var x := ItemOf(ks[j], prefix, delim);
    if x in Rollup(ks[..c], prefix, delim) {
      var a :| a in ks[..c] && ItemOf(a, prefix, delim) == x;
      LessIrreflexive(ks[c]);
      if c < j { LessAsymmetric(ks[c], ks[j]); }
      ItemContiguous(a, ks[c], ks[j], prefix, delim);
    }
  }

  /** Rolling up a suffix that shares no item with what precedes it gives the rest of the rollup. */
  lemma {:induction false} RollupSplit(ks: seq<Str>, c: nat, prefix: Str, delim: Option<Str>)
    requires Under(ks, prefix) && c <= |ks|
    requires forall j :: c <= j < |ks| ==> ItemOf(ks[j], prefix, delim) !in Rollup(ks[..c], prefix, delim)
    ensures Under(ks[c..], prefix)
    ensures Rollup(ks, prefix, delim) == Rollup(ks[..c], prefix, delim) + Rollup(ks[c..], prefix, delim)
    decreases |ks|
  {
    if c == |ks| {
      assert ks[..c] == ks && ks[c..] == [];
    } else {
      var shorter := ks[..|ks| - 1];
      assert shorter[..c] == ks[..c] && ks[c..][..|ks| - c - 1] == shorter[c..];
      RollupSplit(shorter, c, prefix, delim);
    }
  }

  lemma {:induction false} ProjectionLengths(items: seq<Item>)
    ensures |Objects(items)| + |Folders(items)| == |items|
  {
    if items != [] { ProjectionLengths(items[..|items| - 1]); }
  }

  lemma ProjectionStep(items: seq<Item>, item: Item)
    ensures Objects(items + [item]) == Objects(items) + if item.Object? then [item.key] else []
    ensures Folders(items + [item]) == Folders(items) + if item.Folder? then [item.path] else []
  {
    assert (items + [item])[..|items|] == items;
  }

  lemma {:induction false} ProjectionElements(items: seq<Item>)
    ensures forall k :: k in Objects(items) <==> Object(k) in items
    ensures forall p :: p in Folders(items) <==> Folder(p) in items
  {
    if items != [] {
      var front := items[..|items| - 1];
      ProjectionElements(front);
      assert items == front + [items[|items| - 1]];
    }
  }

  lemma {:induction false} ObjectsConcat(a: seq<Item>, b: seq<Item>)
    ensures Objects(a + b) == Objects(a) + Objects(b)
  {
    if b == [] {
      assert a + b == a;
    } else {
      ObjectsConcat(a, b[..|b| - 1]);
      assert (a + b)[..|a + b| - 1] == a + b[..|b| - 1];
    }
  }

  lemma {:induction false} FoldersConcat(a: seq<Item>, b: seq<Item>)
    ensures Folders(a + b) == Folders(a) + Folders(b)
  {
    if b == [] {
      assert a + b == a;
    } else {
      FoldersConcat(a, b[..|b| - 1]);
      assert (a + b)[..|a + b| - 1] == a + b[..|b| - 1];
    }
  }

  // ---- the walk ----

  /** How far the walk over `ks` has come at index `i`: it has met the first `n` candidates, and every
      other one lies ahead. */
  ghost predicate Walked(ks: seq<Str>, i: nat, cands: seq<Str>, n: nat) {
    i <= |ks| && n <= |cands|
    && (forall k :: k in cands ==> k in cands[..n] || k in ks[i..])
    && (forall k :: k in cands[..n] ==> k in ks[..i])
  }

  lemma WalkSkip(ks: seq<Str>, i: nat, cands: seq<Str>, n: nat)
    requires Walked(ks, i, cands, n) && i < |ks| && ks[i] !in cands
    ensures Walked(ks, i + 1, cands, n)
  {
    assert ks[i..] == [ks[i]] + ks[i + 1..] && ks[..i + 1] == ks[..i] + [ks[i]];
  }

  lemma WalkMeet(ks: seq<Str>, i: nat, cands: seq<Str>, n: nat)
    requires Sorted(ks) && Sorted(cands)
    requires Walked(ks, i, cands, n) && i < |ks| && ks[i] in cands
    ensures n < |cands| && cands[n] == ks[i] && Walked(ks, i + 1, cands, n + 1)
  {
    assert ks[i..] == [ks[i]] + ks[i + 1..] && ks[..i + 1] == ks[..i] + [ks[i]];
    assert ks[i] !in ks[..i] by {
      LessIrreflexive(ks[i]);
    }
    var m :| 0 <= m < |cands| && cands[m] == ks[i];
    assert n <= m by {
      assert forall l :: 0 <= l < n ==> cands[..n][l] in ks[..i];
    }
    if n < m {
      assert cands[n] in cands;
      if cands[n] in cands[..n] { LessIrreflexive(cands[n]); }
      var j :| 0 <= j < |ks[i..]| && ks[i..][j] == cands[n];
      LessAsymmetric(cands[n], cands[m]);
    }
    assert cands[..n + 1] == cands[..n] + [cands[n]];
  }

  lemma WalkDone(ks: seq<Str>, cands: seq<Str>, n: nat)
    requires Sorted(cands) && Walked(ks, |ks|, cands, n)
    ensures n == |cands|
  {
    if n < |cands| {
      assert cands[n] in cands;
      LessIrreflexive(cands[n]);
    }
  }

  /** The seek bound: exactly the keys beyond the token, or under the prefix when that is larger. */
  function SeekBound(prefix: Str, after: Option<Str>): Str {
    if after.Some? && !Less(after.value, prefix) then after.value + [0] else prefix
  }

  /** Seeking skips no listed key, and passes over only keys that precede the token or the prefix. */
  lemma SeekExact(objects: map<Str, ObjectEntry>, prefix: Str, after: Option<Str>, k: Str)
    ensures Listed(objects, prefix, after, k) <==>
            Visible(objects, k) && StartsWith(k, prefix) && !Less(k, SeekBound(prefix, after))
  {
    if after.Some? {
      ZeroByteIsSuccessor(after.value, k);
      if StartsWith(k, prefix) {
        PrefixNotAbove(k, prefix);
        if Less(after.value, prefix) {
          LessTotal(prefix, k);
          if prefix != k { LessTransitive(after.value, prefix, k); }
        }
      }
    } else if StartsWith(k, prefix) {
      PrefixNotAbove(k, prefix);
    }
  }

  /** Every candidate lies on the walk's path. */
  lemma WalkStart(objects: map<Str, ObjectEntry>, prefix: Str, after: Option<Str>)
    ensures Walked(Range(objects.Keys, SeekBound(prefix, after)), 0, Candidates(objects, prefix, after), 0)
  {
    var ks := Range(objects.Keys, SeekBound(prefix, after));
    forall k | k in Candidates(objects, prefix, after) ensures k in ks[0..] {
      SeekExact(objects, prefix, after, k);
      assert ks[0..] == ks;
    }
  }

  lemma SeekNotBelowPrefix(prefix: Str, after: Option<Str>, k: Str)
    requires !Less(k, SeekBound(prefix, after))
    ensures !Less(k, prefix)
  {
    if after.Some? && !Less(after.value, prefix) && Less(k, prefix) {
      ZeroByteIsSuccessor(after.value, k);
      LessTransitive(after.value, k, prefix);
    }
  }

  /** Once a key at or past the prefix no longer carries it, no larger key does. */
  lemma PastPrefix(k: Str, l: Str, prefix: Str)
    requires !Less(k, prefix) && !StartsWith(k, prefix) && Less(k, l)
    ensures !StartsWith(l, prefix)
  {
    if StartsWith(l, prefix) {
      LessAsymmetric(k, l);
      PrefixContiguous(prefix, prefix, k, l);
    }
  }

  /** Leaving the prefix range ends the walk: every candidate has been met. */
  lemma PrefixLeft(objects: map<Str, ObjectEntry>, i: nat, cands: seq<Str>, n: nat, prefix: Str, after: Option<Str>)
    requires cands == Candidates(objects, prefix, after)
    requires var ks := Range(objects.Keys, SeekBound(prefix, after));
             i < |ks| && !StartsWith(ks[i], prefix) && Walked(ks, i, cands, n)
    ensures n == |cands|
  {
    var ks := Range(objects.Keys, SeekBound(prefix, after));
    assert ks[i] in ks;
    SeekNotBelowPrefix(prefix, after, ks[i]);
    if n < |cands| {
      assert cands[n] in cands;
      LessIrreflexive(cands[n]);
      assert cands[n] !in cands[..n];
      var j :| i <= j < |ks| && ks[j] == cands[n];
      if i < j { PastPrefix(ks[i], ks[j], prefix); }
    }
  }

  /** A key that stands for itself has not been listed by an earlier key. */
  lemma ObjectIsNew(cands: seq<Str>, n: nat, prefix: Str, delim: Option<Str>)
    requires Sorted(cands) && Under(cands, prefix) && n < |cands|
    requires ItemOf(cands[n], prefix, delim).Object?
    ensures ItemOf(cands[n], prefix, delim) !in Rollup(cands[..n], prefix, delim)
  {
    RollupItems(cands[..n], prefix, delim);
    LessIrreflexive(cands[n]);
  }

  /** The walk's accumulators after `n` candidates. */
  ghost predicate Accumulated(objects: map<Str, ObjectEntry>, cands: seq<Str>, n: nat, prefix: Str, delim: Option<Str>,
                              keys: seq<(Str, ObjectMeta)>, commonPrefixes: seq<Str>, lastSeen: Option<Str>)
    requires Under(cands, prefix)
  {
    n <= |cands|
    && var items := Rollup(cands[..n], prefix, delim);
    Carries(objects, keys, Objects(items))
    && commonPrefixes == Folders(items)
    && lastSeen == (if n == 0 then None else Some(cands[n - 1]))
    && |keys| + |commonPrefixes| == |items|
  }

  /** The common prefixes collected so far are the folders listed so far. */
  lemma ListedFolders(objects: map<Str, ObjectEntry>, cands: seq<Str>, n: nat, prefix: Str, delim: Option<Str>,
                      keys: seq<(Str, ObjectMeta)>, commonPrefixes: seq<Str>, lastSeen: Option<Str>)
    requires Under(cands, prefix) && Accumulated(objects, cands, n, prefix, delim, keys, commonPrefixes, lastSeen)
    ensures commonPrefixes == Folders(Rollup(cands[..n], prefix, delim))
    ensures forall p :: p in commonPrefixes <==> Folder(p) in Rollup(cands[..n], prefix, delim)
  {
    ProjectionElements(Rollup(cands[..n], prefix, delim));
  }

  lemma AccumulateNothing(objects: map<Str, ObjectEntry>, cands: seq<Str>, prefix: Str, delim: Option<Str>)
    requires Under(cands, prefix)
    ensures Accumulated(objects, cands, 0, prefix, delim, [], [], None)
  {
  }

  lemma RollupStep(cands: seq<Str>, n: nat, prefix: Str, delim: Option<Str>)
    requires Under(cands, prefix) && n < |cands|
    ensures var items, item := Rollup(cands[..n], prefix, delim), ItemOf(cands[n], prefix, delim);
            Rollup(cands[..n + 1], prefix, delim) == if item in items then items else items + [item]
  {
    assert cands[..n + 1][..n] == cands[..n];
  }

  /** Passing a key whose item is already listed changes nothing but the cursor. */
  lemma AccumulateSeen(objects: map<Str, ObjectEntry>, cands: seq<Str>, n: nat, prefix: Str, delim: Option<Str>,
                       keys: seq<(Str, ObjectMeta)>, commonPrefixes: seq<Str>, lastSeen: Option<Str>)
    requires Under(cands, prefix) && n < |cands|
    requires Accumulated(objects, cands, n, prefix, delim, keys, commonPrefixes, lastSeen)
    requires ItemOf(cands[n], prefix, delim) in Rollup(cands[..n], prefix, delim)
    ensures Accumulated(objects, cands, n + 1, prefix, delim, keys, commonPrefixes, Some(cands[n]))
  {
    RollupStep(cands, n, prefix, delim);
  }

  /** Emitting a new key appends it to the keys. */
  lemma AccumulateObject(objects: map<Str, ObjectEntry>, cands: seq<Str>, n: nat, prefix: Str, delim: Option<Str>,
                         keys: seq<(Str, ObjectMeta)>, commonPrefixes: seq<Str>, lastSeen: Option<Str>)
    requires Under(cands, prefix) && n < |cands| && Visible(objects, cands[n])
    requires Accumulated(objects, cands, n, prefix, delim, keys, commonPrefixes, lastSeen)
    requires ItemOf(cands[n], prefix, delim) == Object(cands[n])
    requires Object(cands[n]) !in Rollup(cands[..n], prefix, delim)
    ensures Accumulated(objects, cands, n + 1, prefix, delim,
                        keys + [(cands[n], Current(objects[cands[n]]).value.meta)], commonPrefixes, Some(cands[n]))
  {
    hide Rollup, Folders, Objects, ItemOf, StartsWith;
    RollupStep(cands, n, prefix, delim);
    ProjectionStep(Rollup(cands[..n], prefix, delim), Object(cands[n]));
  }

  /** Emitting a new folder appends it to the common prefixes. */
  lemma AccumulateFolder(objects: map<Str, ObjectEntry>, cands: seq<Str>, n: nat, prefix: Str, delim: Option<Str>,
                         keys: seq<(Str, ObjectMeta)>, commonPrefixes: seq<Str>, lastSeen: Option<Str>)
    requires Under(cands, prefix) && n < |cands|
    requires Accumulated(objects, cands, n, prefix, delim, keys, commonPrefixes, lastSeen)
    requires var item := ItemOf(cands[n], prefix, delim);
             item.Folder? && item !in Rollup(cands[..n], prefix, delim)
    ensures Accumulated(objects, cands, n + 1, prefix, delim,
                        keys, commonPrefixes + [ItemOf(cands[n], prefix, delim).path], Some(cands[n]))
  {
    hide Rollup, Folders, Objects, ItemOf, StartsWith, Carries;
    RollupStep(cands, n, prefix, delim);
    ProjectionStep(Rollup(cands[..n], prefix, delim), ItemOf(cands[n], prefix, delim));
    var items := Rollup(cands[..n], prefix, delim);
    assert Objects(items + [ItemOf(cands[n], prefix, delim)]) == Objects(items);
  }

  /** Where the walk stops is where the page must be cut. */
  lemma CutAt(ks: seq<Str>, c: nat, prefix: Str, delim: Option<Str>, n: nat)
    requires Under(ks, prefix) && c <= |ks| && |Rollup(ks[..c], prefix, delim)| <= n
    requires c == |ks| || |Rollup(ks[..c + 1], prefix, delim)| > n
    ensures Cut(ks, prefix, delim, n) == c
  {
    hide Rollup, Cut;
    var d := Cut(ks, prefix, delim, n);
    if d < c {
      assert ks[..c][..d + 1] == ks[..d + 1];
      RollupPrefix(ks[..c], d + 1, prefix, delim);
    } else if c < d {
      assert ks[..d][..c + 1] == ks[..c + 1];
      RollupPrefix(ks[..d], c + 1, prefix, delim);
    }
  }

  /** The accumulators of a finished walk make up the page. */
  lemma PageDone(objects: map<Str, ObjectEntry>, cands: seq<Str>, prefix: Str, delim: Option<Str>, cap: nat,
                 n: nat, keys: seq<(Str, ObjectMeta)>, commonPrefixes: seq<Str>, lastSeen: Option<Str>, truncated: bool)
    requires Under(cands, prefix) && 0 < cap
    requires Accumulated(objects, cands, n, prefix, delim, keys, commonPrefixes, lastSeen)
    requires |keys| + |commonPrefixes| <= cap
    requires if truncated
             then n < |cands| && |keys| + |commonPrefixes| == cap
                  && ItemOf(cands[n], prefix, delim) !in Rollup(cands[..n], prefix, delim)
             else n == |cands|
    ensures PageOf(ListPage(keys, commonPrefixes, if truncated then lastSeen else None, truncated,
                            |keys| + |commonPrefixes|, cap),
                   objects, cands, prefix, delim, cap)
  {
    hide Rollup, Objects, Folders, Cut, ItemOf, Carries, StartsWith;
    RollupNothing(cands, prefix, delim);
    var items := Rollup(cands, prefix, delim);
    var shown := Rollup(cands[..n], prefix, delim);
    RollupPrefix(cands, n, prefix, delim);
    if truncated {
      RollupStep(cands, n, prefix, delim);
      RollupPrefix(cands, n + 1, prefix, delim);
    } else {
      assert cands[..n] == cands;
    }
    CutAt(cands, n, prefix, delim, cap);
    assert items[..Min(cap, |items|)] == shown;
  }

  /** The item of the last key is the last item: a folder is only ever extended while it is newest. */
  lemma {:induction false} LastItem(ks: seq<Str>, prefix: Str, delim: Option<Str>)
    requires Sorted(ks) && Under(ks, prefix) && ks != []
    ensures var items := Rollup(ks, prefix, delim);
            items != [] && items[|items| - 1] == ItemOf(ks[|ks| - 1], prefix, delim)
  {
    hide Rollup, ItemOf;
    RollupLast(ks, prefix, delim);
    var shorter := ks[..|ks| - 1];
    var k := ks[|ks| - 1];
    var item := ItemOf(k, prefix, delim);
    if item in Rollup(shorter, prefix, delim) {
      RollupItems(shorter, prefix, delim);
      var a :| a in shorter && ItemOf(a, prefix, delim) == item;
      var b := shorter[|shorter| - 1];
      LastItem(shorter, prefix, delim);
      if a != b {
        LessAsymmetric(b, k);
        ItemContiguous(a, b, k, prefix, delim);
      }
    }
  }

  /** The walk's `contains` fallback is dead: a folder already listed is the one listed last. */
  lemma FolderRepeatsLast(ks: seq<Str>, n: nat, prefix: Str, delim: Option<Str>)
    requires Sorted(ks) && Under(ks, prefix) && n < |ks|
    requires ItemOf(ks[n], prefix, delim).Folder?
    ensures var folders := Folders(Rollup(ks[..n], prefix, delim));
            var path := ItemOf(ks[n], prefix, delim).path;
            path in folders ==> folders[|folders| - 1] == path
  {
    hide Rollup, ItemOf;
    var items := Rollup(ks[..n], prefix, delim);
    var path := ItemOf(ks[n], prefix, delim).path;
    ProjectionElements(items);
    if path in Folders(items) {
      RollupStep(ks, n, prefix, delim);
      LastItem(ks[..n + 1], prefix, delim);
    }
  }
}
