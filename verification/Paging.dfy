/** Following continuation tokens: consecutive pages cut one listing into consecutive pieces. Includes
    the paging loop of `ls` in `src/main.rs`. */
module Paging {
  import opened Basics
  import opened Search
  import opened ByteOrder
  import opened BucketModel
  import opened Listing
  import opened BucketIndex

  /** The items a page shows are the rollup of the keys before the cut. */
  lemma ShownBeforeCut(ks: seq<Str>, prefix: Str, delim: Option<Str>, cap: nat)
    requires Under(ks, prefix)
    ensures var items, cut := Rollup(ks, prefix, delim), Cut(ks, prefix, delim, cap);
            items[..Min(cap, |items|)] == Rollup(ks[..cut], prefix, delim)
            && (cut < |ks| <==> |items| > cap)
            && (cut < |ks| ==> ItemOf(ks[cut], prefix, delim) !in Rollup(ks[..cut], prefix, delim))
  {
    var cut := Cut(ks, prefix, delim, cap);
    RollupPrefix(ks, cut, prefix, delim);
    if cut < |ks| {
      RollupStep(ks, cut, prefix, delim);
      RollupPrefix(ks, cut + 1, prefix, delim);
    } else {
      assert ks[..cut] == ks;
    }
  }

  /** The keys listed after a listed key are the ones that follow it. */
  lemma RestAfter(objects: map<Str, ObjectEntry>, prefix: Str, after: Option<Str>, c: nat)
    requires 0 < c <= |Candidates(objects, prefix, after)|
    ensures Candidates(objects, prefix, Some(Candidates(objects, prefix, after)[c - 1]))
         == Candidates(objects, prefix, after)[c..]
  {
    var ks := Candidates(objects, prefix, after);
    var token := ks[c - 1];
    var rest := Candidates(objects, prefix, Some(token));
    assert Listed(objects, prefix, after, token) by { assert token in ks; }
    forall k | k in rest ensures k in ks[c..] {
      if after.Some? { LessTransitive(after.value, token, k); }
      assert k in ks;
      var j :| 0 <= j < |ks| && ks[j] == k;
      LessIrreflexive(token);
      if j < c - 1 { LessAsymmetric(ks[j], token); }
      assert ks[c..][j - c] == k;
    }
    forall k | k in ks[c..] ensures k in rest {
      var j :| c <= j < |ks| && ks[j] == k;
      assert k in ks;
    }
    SortedUnique(rest, ks[c..]);
  }

  /** What is left after the cut rolls up to what the page left over. */
  lemma RollupAfterCut(ks: seq<Str>, prefix: Str, delim: Option<Str>, cap: nat)
    requires Sorted(ks) && Under(ks, prefix)
    requires Cut(ks, prefix, delim, cap) < |ks|
    ensures var cut, items := Cut(ks, prefix, delim, cap), Rollup(ks, prefix, delim);
            Under(ks[cut..], prefix) && cap < |items| && Rollup(ks[cut..], prefix, delim) == items[cap..]
  {
    var cut := Cut(ks, prefix, delim, cap);
    ShownBeforeCut(ks, prefix, delim, cap);
    forall j | cut <= j < |ks| ensures ItemOf(ks[j], prefix, delim) !in Rollup(ks[..cut], prefix, delim) {
      NoReturn(ks, cut, j, prefix, delim);
    }
    RollupSplit(ks, cut, prefix, delim);
  }

  /** Listing from a page's token finds exactly the keys after the cut, and their rollup is what the
      page left over. */
  lemma NextPage(objects: map<Str, ObjectEntry>, prefix: Str, delim: Option<Str>, after: Option<Str>,
                 maxKeys: nat, page: ListPage)
    requires IsPage(page, objects, prefix, delim, after, maxKeys) && page.isTruncated
    ensures page.nextContinuation.Some?
    ensures |Candidates(objects, prefix, page.nextContinuation)| < |Candidates(objects, prefix, after)|
    ensures var items := Rollup(Candidates(objects, prefix, after), prefix, delim);
            Max(1, maxKeys) < |items|
            && Rollup(Candidates(objects, prefix, page.nextContinuation), prefix, delim) == items[Max(1, maxKeys)..]
  {
    var ks := Candidates(objects, prefix, after);
    var cut := CutOfPage(objects, ks, prefix, delim, Max(1, maxKeys), page);
    RestAfter(objects, prefix, after, cut);
    RollupAfterCut(ks, prefix, delim, Max(1, maxKeys));
  }

  /** A truncated page's token is the last key before the cut. */
  lemma CutOfPage(objects: map<Str, ObjectEntry>, ks: seq<Str>, prefix: Str, delim: Option<Str>, cap: nat,
                  page: ListPage)
    returns (cut: nat)
    requires Under(ks, prefix) && PageOf(page, objects, ks, prefix, delim, cap) && page.isTruncated
    ensures cut == Cut(ks, prefix, delim, cap)
    ensures 0 < cut < |ks| && page.nextContinuation == Some(ks[cut - 1])
  {
    cut := Cut(ks, prefix, delim, cap);
    ShownBeforeCut(ks, prefix, delim, cap);
  }

  /** Asking for at least as many items as there are returns everything, untruncated. */
  lemma UnboundedPage(objects: map<Str, ObjectEntry>, prefix: Str, delim: Option<Str>, maxKeys: nat, page: ListPage)
    requires IsPage(page, objects, prefix, delim, None, maxKeys)
    requires |Rollup(Candidates(objects, prefix, None), prefix, delim)| <= Max(1, maxKeys)
    ensures var items := Rollup(Candidates(objects, prefix, None), prefix, delim);
            !page.isTruncated && page.nextContinuation == None
            && Carries(objects, page.keys, Objects(items)) && page.commonPrefixes == Folders(items)
  {
    var items := Rollup(Candidates(objects, prefix, None), prefix, delim);
    assert items[..|items|] == items;
  }

  /** No path in the list extends another. */
  ghost predicate Antichain(paths: seq<Str>) {
    forall i, j :: 0 <= i < |paths| && 0 <= j < |paths| && i != j ==> !StartsWith(paths[i], paths[j])
  }

  /** A rollup's keys and folders come in strictly increasing order, and no folder extends another. */
  lemma {:induction false} RollupStructure(ks: seq<Str>, prefix: Str, delim: Option<Str>)
    requires Sorted(ks) && Under(ks, prefix)
    ensures Sorted(Objects(Rollup(ks, prefix, delim)))
    ensures Sorted(Folders(Rollup(ks, prefix, delim))) && Antichain(Folders(Rollup(ks, prefix, delim)))
  {
    if ks != [] {
      var shorter := ks[..|ks| - 1];
      var items := Rollup(shorter, prefix, delim);
      var item := ItemOf(ks[|ks| - 1], prefix, delim);
      RollupStructure(shorter, prefix, delim);
      if item !in items {
        ProjectionStep(items, item);
        NewItemBeyond(ks, prefix, delim);
      }
    }
  }

  /** A new last item lies beyond all earlier items of its kind. */
  lemma NewItemBeyond(ks: seq<Str>, prefix: Str, delim: Option<Str>)
    requires Sorted(ks) && Under(ks, prefix) && ks != []
    requires ItemOf(ks[|ks| - 1], prefix, delim) !in Rollup(ks[..|ks| - 1], prefix, delim)
    ensures var items := Rollup(ks[..|ks| - 1], prefix, delim);
            match ItemOf(ks[|ks| - 1], prefix, delim)
            case Object(k) => forall o :: o in Objects(items) ==> Less(o, k)
            case Folder(p) =>
              forall q :: q in Folders(items) ==> Less(q, p) && !StartsWith(q, p) && !StartsWith(p, q)
  {
    var shorter := ks[..|ks| - 1];
    var k := ks[|ks| - 1];
    var items := Rollup(shorter, prefix, delim);
    RollupItems(shorter, prefix, delim);
    ProjectionElements(items);
    match ItemOf(k, prefix, delim) {
      case Object(_) =>
        forall o | o in Objects(items) ensures Less(o, k) {
          assert Object(o) in items;
          var a :| a in shorter && ItemOf(a, prefix, delim) == Object(o);
        }
      case Folder(p) =>
        forall q | q in Folders(items) ensures Less(q, p) && !StartsWith(q, p) && !StartsWith(p, q) {
          assert Folder(q) in items;
          var a :| a in shorter && ItemOf(a, prefix, delim) == Folder(q);
          FolderBeyond(a, k, prefix, delim);
        }
    }
  }

  lemma StartsWithTransitive(k: Str, p: Str, q: Str)
    requires StartsWith(k, p) && StartsWith(p, q)
    ensures StartsWith(k, q)
  {
    assert k[..|q|] == k[..|p|][..|q|];
  }

  /** A later key's new folder lies beyond an earlier key's folder, and neither extends the other. */
  lemma FolderBeyond(a: Str, k: Str, prefix: Str, delim: Option<Str>)
    requires StartsWith(a, prefix) && StartsWith(k, prefix) && Less(a, k)
    requires ItemOf(a, prefix, delim).Folder? && ItemOf(k, prefix, delim).Folder?
    requires ItemOf(a, prefix, delim) != ItemOf(k, prefix, delim)
    ensures var q, p := ItemOf(a, prefix, delim).path, ItemOf(k, prefix, delim).path;
            Less(q, p) && !StartsWith(q, p) && !StartsWith(p, q)
  {
    var q, p := ItemOf(a, prefix, delim).path, ItemOf(k, prefix, delim).path;
    FolderMembers(a, k, prefix, delim);
    FolderMembers(k, a, prefix, delim);
    if StartsWith(p, q) { StartsWithTransitive(k, p, q); }
    if StartsWith(q, p) { StartsWithTransitive(a, q, p); }
    PrefixOrder(q, p, a, k);
  }

  /** The same structure on any single page. */
  lemma PageStructure(objects: map<Str, ObjectEntry>, prefix: Str, delim: Option<Str>, after: Option<Str>,
                      maxKeys: nat, page: ListPage)
    requires IsPage(page, objects, prefix, delim, after, maxKeys)
    ensures Sorted(page.commonPrefixes) && Antichain(page.commonPrefixes)
    ensures forall i, j :: 0 <= i < j < |page.keys| ==> Less(page.keys[i].0, page.keys[j].0)
  {
    var ks := Candidates(objects, prefix, after);
    ShownBeforeCut(ks, prefix, delim, Max(1, maxKeys));
    RollupStructure(ks[..Cut(ks, prefix, delim, Max(1, maxKeys))], prefix, delim);
  }

  /** What has been printed is the first `done` items. */
  ghost predicate Gathered(objects: map<Str, ObjectEntry>, items: seq<Item>, done: nat,
                           folders: seq<Str>, keys: seq<(Str, ObjectMeta)>)
  {
    done <= |items|
    && folders == Folders(items[..done])
    && Carries(objects, keys, Objects(items[..done]))
  }

  lemma GatherNothing(objects: map<Str, ObjectEntry>, items: seq<Item>)
    ensures Gathered(objects, items, 0, [], [])
  {
  }

  /** Printing the next `n` items extends what has been printed. */
  lemma GatherMore(objects: map<Str, ObjectEntry>, items: seq<Item>, done: nat, n: nat,
                   folders: seq<Str>, keys: seq<(Str, ObjectMeta)>, more: seq<(Str, ObjectMeta)>)
    requires Gathered(objects, items, done, folders, keys) && done + n <= |items|
    requires Carries(objects, more, Objects(items[done..][..n]))
    ensures Gathered(objects, items, done + n, folders + Folders(items[done..][..n]), keys + more)
  {
    hide Objects, Folders;
    var a, b := items[..done], items[done..][..n];
    assert items[..done + n] == a + b;
    ObjectsConcat(a, b);
    FoldersConcat(a, b);
  }

  /** A page of the remaining items prints the next `cap` of them, or all when fewer are left. */
  lemma GatherPage(objects: map<Str, ObjectEntry>, ks: seq<Str>, prefix: Str, delim: Option<Str>, cap: nat,
                   page: ListPage, items: seq<Item>, done: nat, folders: seq<Str>, keys: seq<(Str, ObjectMeta)>)
    requires Under(ks, prefix) && PageOf(page, objects, ks, prefix, delim, cap)
    requires Gathered(objects, items, done, folders, keys) && Rollup(ks, prefix, delim) == items[done..]
    ensures Gathered(objects, items, done + Min(cap, |items| - done), folders + page.commonPrefixes, keys + page.keys)
    ensures page.isTruncated <==> done + cap < |items|
  {
    hide Rollup, Folders, Objects, Cut;
    GatherMore(objects, items, done, Min(cap, |items| - done), folders, keys, page.keys);
  }

  /** `ls bucket/prefix`: print pages until the last. What all pages print together is one whole listing:
      every folder once and every key once. */
  method ListTarget(index: Index, bucket: Str, prefix: Str, delimiter: Option<Str>, maxKeys: nat)
    returns (r: Result<(seq<Str>, seq<(Str, ObjectMeta)>), Error>)
    ensures bucket !in index.buckets ==> r == Err(NoSuchBucket)
    ensures bucket in index.buckets ==>
      r.Ok? && WholeListing(index.buckets[bucket].objects, prefix, delimiter, r.value.0, r.value.1)
  {
    hide Rollup, Folders, Objects, Cut;
    if bucket !in index.buckets { return Err(NoSuchBucket); }
    ghost var objects := index.buckets[bucket].objects;
    ghost var items := Rollup(Candidates(objects, prefix, None), prefix, delimiter);
    var folders: seq<Str> := [];
    var keys: seq<(Str, ObjectMeta)> := [];
    var cont: Option<Str> := None;
    ghost var done: nat := 0;
    GatherNothing(objects, items);
    var more := true;
    while more
      invariant Gathered(objects, items, done, folders, keys)
      invariant if more then Rollup(Candidates(objects, prefix, cont), prefix, delimiter) == items[done..]
                else done == |items|
      decreases more, |Candidates(objects, prefix, cont)|
    {
      var listed := index.List(bucket, prefix, delimiter, cont, maxKeys);
      var page := listed.value;
      GatherPage(objects, Candidates(objects, prefix, cont), prefix, delimiter, Max(1, maxKeys),
                 page, items, done, folders, keys);
      if page.isTruncated {
        NextPage(objects, prefix, delimiter, cont, maxKeys, page);
        assert items[done..][Max(1, maxKeys)..] == items[done + Max(1, maxKeys)..];
      }
      folders := folders + page.commonPrefixes;
      keys := keys + page.keys;
      done := done + Min(Max(1, maxKeys), |items| - done);
      if page.nextContinuation.Some? && page.isTruncated {
        cont := page.nextContinuation;
      } else {
        more := false;
      }
    }
    assert items[..|items|] == items;
    RollupStructure(Candidates(objects, prefix, None), prefix, delimiter);
    r := Ok((folders, keys));
  }

  /** One listing of everything: the folders and the visible keys outside them, in order, none twice. */
  ghost predicate WholeListing(objects: map<Str, ObjectEntry>, prefix: Str, delim: Option<Str>,
                               folders: seq<Str>, keys: seq<(Str, ObjectMeta)>)
  {
    var items := Rollup(Candidates(objects, prefix, None), prefix, delim);
    folders == Folders(items) && Carries(objects, keys, Objects(items))
    && Sorted(folders) && Antichain(folders) && Sorted(Objects(items))
  }
}
