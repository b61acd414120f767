/** The index object of `src/index.rs`, whose methods update the buckets in place. Each one is proved
    against its value-level meaning in `BucketModel`. */
module BucketIndex {
  import opened Basics
  import opened ByteOrder
  import opened BucketModel
  import opened Listing
  import opened Search
  import M = BucketModel

  class Index {
    var buckets: Buckets

    constructor ()
      ensures buckets == map[]
    {
      buckets := map[];
    }

    method MakeBucket(name: Str, now: u64) returns (r: Result<Unit, Error>)
      modifies this
      ensures Outcome(old(buckets), M.MakeBucket(old(buckets), name, now), r, buckets)
    {
      if !ValidBucketName(name) { return Err(InvalidBucketName); }
      if name in buckets { return Err(BucketExists); }
      buckets := buckets[name := Bucket(now, false, [], map[])];
      r := Ok(Unit);
    }

    method RemoveBucket(name: Str, force: bool) returns (r: Result<Unit, Error>)
      modifies this
      ensures Outcome(old(buckets), M.RemoveBucket(old(buckets), name, force), r, buckets)
    {
      if name !in buckets { return Err(NoSuchBucket); }
      if !force && |buckets[name].objects| != 0 { return Err(BucketNotEmpty); }
      buckets := buckets - {name};
      r := Ok(Unit);
    }

    method SetVersioning(name: Str, enabled: bool) returns (r: Result<Unit, Error>)
      modifies this
      ensures Outcome(old(buckets), M.SetVersioning(old(buckets), name, enabled), r, buckets)
    {
      if name !in buckets { return Err(NoSuchBucket); }
      buckets := buckets[name := buckets[name].(versioning := enabled)];
      r := Ok(Unit);
    }

    method SetLifecycle(name: Str, rules: seq<LifecycleRule>) returns (r: Result<Unit, Error>)
      modifies this
      ensures Outcome(old(buckets), M.SetLifecycle(old(buckets), name, rules), r, buckets)
    {
      if !ValidLifecycle(rules) { return Err(InvalidLifecycle); }
      if name !in buckets { return Err(NoSuchBucket); }
      buckets := buckets[name := buckets[name].(lifecycle := rules)];
      r := Ok(Unit);
    }

    method Put(bucket: Str, key: Str, meta: ObjectMeta) returns (r: Result<Unit, Error>)
      modifies this
      ensures Outcome(old(buckets), M.Put(old(buckets), bucket, key, meta), r, buckets)
    {
      if !ValidKey(key) { return Err(InvalidKey); }
      if !ValidMetadata(meta.metadata) { return Err(InvalidMetadata); }
      if bucket !in buckets { return Err(NoSuchBucket); }
      var b := buckets[bucket];
      var version := ObjectVersion(meta, false);
      var versions := if key in b.objects then b.objects[key].versions else [];
      if b.versioning {
        versions := versions + [version];
      } else {
        versions := [];
        versions := versions + [version];
        assert versions == [version];
      }
      buckets := buckets[bucket := b.(objects := b.objects[key := ObjectEntry(versions)])];
      r := Ok(Unit);
    }

    method Delete(bucket: Str, key: Str, now: u64) returns (r: Result<Unit, Error>)
      modifies this
      ensures Outcome(old(buckets), M.Delete(old(buckets), bucket, key, now), r, buckets)
    {
      if bucket !in buckets { return Err(NoSuchBucket); }
      var b := buckets[bucket];
      if b.versioning {
        if key in b.objects {
          var entry := b.objects[key];
          if Current(entry).Some? && !Current(entry).value.isDeleteMarker {
            var meta := NewMeta("", 0, "", now);
            meta := meta.(versionId := MarkerId(now));
            entry := ObjectEntry(entry.versions + [ObjectVersion(meta, true)]);
            b := b.(objects := b.objects[key := entry]);
          }
        }
      } else {
        b := b.(objects := b.objects - {key});
      }
      buckets := buckets[bucket := b];
      r := Ok(Unit);
    }

    method DeleteVersion(bucket: Str, key: Str, id: string) returns (r: Result<Unit, Error>)
      modifies this
      ensures Outcome(old(buckets), M.DeleteVersion(old(buckets), bucket, key, id), r, buckets)
    {
      if bucket !in buckets { return Err(NoSuchBucket); }
      var b := buckets[bucket];
      if key in b.objects {
        var versions := b.objects[key].versions;
        var kept: seq<ObjectVersion> := [];
        for i := 0 to |versions|
          invariant kept == Without(versions[..i], id)
        {
          assert versions[..i + 1][..i] == versions[..i];
          if versions[i].meta.versionId != id {
            kept := kept + [versions[i]];
          }
        }
        assert versions[..|versions|] == versions;
        if kept == [] {
          b := b.(objects := b.objects - {key});
        } else {
          b := b.(objects := b.objects[key := ObjectEntry(kept)]);
        }
      }
      buckets := buckets[bucket := b];
      r := Ok(Unit);
    }

    method Copy(srcBucket: Str, srcKey: Str, dstBucket: Str, dstKey: Str, now: u64)
      returns (r: Result<Unit, Error>)
      modifies this
      ensures Outcome(old(buckets), M.Copy(old(buckets), srcBucket, srcKey, dstBucket, dstKey, now), r, buckets)
    {
      match Head(buckets, srcBucket, srcKey) {
        case Err(e) => r := Err(e);
        case Ok(meta) => r := Put(dstBucket, dstKey, meta.(lastModified := now));
      }
    }

    method ExpiredKeys(bucket: Str, now: u64) returns (r: Result<seq<Str>, Error>)
      ensures bucket !in buckets ==> r == Err(NoSuchBucket)
      ensures bucket in buckets ==>
        r.Ok? && Sorted(r.value)
        && forall k :: k in r.value <==> Expired(buckets[bucket], k, now)
      ensures bucket in buckets ==> r == Ok(M.ExpiredKeys(buckets[bucket], now))
    {
      if bucket !in buckets { return Err(NoSuchBucket); }
      var b := buckets[bucket];
      var out: seq<Str> := [];
      if b.lifecycle != [] {
        var ks := SortedKeys(b.objects.Keys);
        for i := 0 to |ks|
          invariant forall k :: k in out <==> k in ks[..i] && Expired(b, k, now)
          invariant Sorted(out)
        {
          var k := ks[i];
          assert forall x :: x in out ==> x in ks[..i] && Less(x, k);
          assert forall x :: x in ks[..i + 1] <==> x in ks[..i] || x == k;
          var entry := b.objects[k];
          if Current(entry).Some? && !Current(entry).value.isDeleteMarker {
            var rule := FirstMatch(b.lifecycle, k);
            if rule.Some? && RuleExpires(rule.value, Current(entry).value.meta.lastModified, now) {
              out := out + [k];
            }
          }
        }
        assert ks[..|ks|] == ks;
      }
      SortedUnique(out, M.ExpiredKeys(b, now));
      r := Ok(out);
    }

    /** The `sweep_expired` loop of `src/store.rs`, on the freshly loaded index. */
    method SweepExpired(bucket: Str, now: u64) returns (r: Result<seq<Str>, Error>)
      modifies this
      ensures bucket !in old(buckets) ==> r == Err(NoSuchBucket) && buckets == old(buckets)
      ensures bucket in old(buckets) ==>
        r == Ok(M.ExpiredKeys(old(buckets)[bucket], now))
        && buckets == old(buckets)[bucket := SweepIn(old(buckets)[bucket], now)]
    {
      r := ExpiredKeys(bucket, now);
      if r.Err? { return; }
      DeleteEach(bucket, r.value, now);
    }

    method DeleteEach(bucket: Str, keys: seq<Str>, now: u64)
      requires bucket in buckets
      modifies this
      ensures buckets == old(buckets)[bucket := DeleteKeys(old(buckets)[bucket], keys, now)]
    {
      for i := 0 to |keys|
        invariant bucket in buckets
        invariant buckets == old(buckets)[bucket := DeleteKeys(old(buckets)[bucket], keys[..i], now)]
      {
        assert keys[..i + 1][..i] == keys[..i];
        var _ := Delete(bucket, keys[i], now);
      }
      assert keys[..|keys|] == keys;
    }

    /** The `sweep_all` loop of `src/store.rs`: every bucket in turn, reporting those with expirations. */
    method SweepAll(now: u64) returns (report: map<Str, seq<Str>>)
      modifies this
      ensures buckets == map b | b in old(buckets) :: SweepIn(old(buckets)[b], now)
      ensures report == map b | b in old(buckets) && M.ExpiredKeys(old(buckets)[b], now) != []
                            :: M.ExpiredKeys(old(buckets)[b], now)
    {
      hide Swept, SweepReport, DeleteKeys, SweepIn, M.ExpiredKeys;
      var names := SortedKeys(buckets.Keys);
      report := map[];
      SweepNothing(buckets, now);
      for i := 0 to |names|
        invariant buckets == Swept(old(buckets), names[..i], now)
        invariant report == SweepReport(old(buckets), names[..i], now)
      {
        var b := names[i];
        SweepStep(old(buckets), names, i, now);
        var expired := ExpiredKeys(b, now);
        if expired.value != [] {
          DeleteEach(b, expired.value, now);
          report := report[b := expired.value];
        }
      }
      SweepEverything(old(buckets), names, now);
    }

    /** `ListObjectsV2`: one page, by seeking and walking the sorted keys. */
    method List(bucket: Str, prefix: Str, delimiter: Option<Str>, startAfter: Option<Str>, maxKeys: nat)
      returns (r: Result<ListPage, Error>)
      ensures bucket !in buckets ==> r == Err(NoSuchBucket)
      ensures bucket in buckets ==>
        r.Ok? && IsPage(r.value, buckets[bucket].objects, prefix, delimiter, startAfter, maxKeys)
    {
      hide Accumulated, Walked, PageOf, Rollup, ItemOf, Range, Candidates, SeekBound, Less;
      if bucket !in buckets { return Err(NoSuchBucket); }
      var objects := buckets[bucket].objects;
      var cap := Max(1, maxKeys);
      var keys: seq<(Str, ObjectMeta)> := [];
      var commonPrefixes: seq<Str> := [];
      var lastSeen: Option<Str> := None;
      var truncated := false;
      var ks := Range(objects.Keys, SeekBound(prefix, startAfter));

      ghost var cands := Candidates(objects, prefix, startAfter);
      ghost var n := 0;
      AccumulateNothing(objects, cands, prefix, delimiter);
      WalkStart(objects, prefix, startAfter);
      var i := 0;
      while i < |ks|
        invariant i <= |ks| && !truncated && Walked(ks, i, cands, n)
        invariant Accumulated(objects, cands, n, prefix, delimiter, keys, commonPrefixes, lastSeen)
        invariant |keys| + |commonPrefixes| <= cap
      {
        var k := ks[i];
        SeekExact(objects, prefix, startAfter, k);
        if !StartsWith(k, prefix) {
          PrefixLeft(objects, i, cands, n, prefix, startAfter);
          break;
        }
        var entry := objects[k];
        if Current(entry).None? || Current(entry).value.isDeleteMarker {
          WalkSkip(ks, i, cands, n);
          i := i + 1;
          continue;
        }
        WalkMeet(ks, i, cands, n);
        keys, commonPrefixes, truncated :=
          Emit(objects, k, prefix, delimiter, cap, keys, commonPrefixes, cands, n, lastSeen);
        if truncated { break; }
        lastSeen := Some(k);
        n := n + 1;
        i := i + 1;
      }
      if i == |ks| { WalkDone(ks, cands, n); }
      PageDone(objects, cands, prefix, delimiter, cap, n, keys, commonPrefixes, lastSeen, truncated);
      var keyCount := |keys| + |commonPrefixes|;
      r := Ok(ListPage(keys, commonPrefixes, if truncated then lastSeen else None, truncated, keyCount, cap));
    }

    /** The body of the listing loop for one visible key: roll it up, emit it, or find the page full. */
    static method Emit(objects: map<Str, ObjectEntry>, k: Str, prefix: Str, delimiter: Option<Str>, cap: nat,
                       keys: seq<(Str, ObjectMeta)>, commonPrefixes: seq<Str>,
                       ghost cands: seq<Str>, ghost n: nat, ghost lastSeen: Option<Str>)
      returns (keys': seq<(Str, ObjectMeta)>, commonPrefixes': seq<Str>, full: bool)
      requires Sorted(cands) && Under(cands, prefix) && n < |cands| && cands[n] == k && Visible(objects, k)
      requires Accumulated(objects, cands, n, prefix, delimiter, keys, commonPrefixes, lastSeen)
      requires |keys| + |commonPrefixes| <= cap
      ensures |keys'| + |commonPrefixes'| <= cap
      ensures !full ==>
        Accumulated(objects, cands, n + 1, prefix, delimiter, keys', commonPrefixes', Some(k))
      ensures full ==>
        keys' == keys && commonPrefixes' == commonPrefixes && |keys| + |commonPrefixes| == cap
        && ItemOf(k, prefix, delimiter) !in Rollup(cands[..n], prefix, delimiter)
    {
      ListedFolders(objects, cands, n, prefix, delimiter, keys, commonPrefixes, lastSeen);
      hide Accumulated, Rollup, Folders;
      assert k in cands;
      keys', commonPrefixes', full := keys, commonPrefixes, false;
      var emitted := |keys| + |commonPrefixes|;
      if delimiter.Some? {
        var rest := k[|prefix|..];
        var at := Find(rest, delimiter.value);
        if at.Some? {
          var cp := prefix + rest[..at.value] + delimiter.value;
          if commonPrefixes != [] && commonPrefixes[|commonPrefixes| - 1] == cp {
            AccumulateSeen(objects, cands, n, prefix, delimiter, keys, commonPrefixes, lastSeen);
          } else if cp in commonPrefixes {
            FolderRepeatsLast(cands, n, prefix, delimiter);
            assert false;
          } else if emitted >= cap {
            full := true;
          } else {
            AccumulateFolder(objects, cands, n, prefix, delimiter, keys, commonPrefixes, lastSeen);
            commonPrefixes' := commonPrefixes + [cp];
          }
          return;
        }
      }
      ObjectIsNew(cands, n, prefix, delimiter);
      if emitted >= cap {
        full := true;
        return;
      }
      AccumulateObject(objects, cands, n, prefix, delimiter, keys, commonPrefixes, lastSeen);
      keys' := keys + [(k, Current(objects[k]).value.meta)];
    }
  }

  lemma SweepStep(bs: Buckets, names: seq<Str>, i: nat, now: u64)
    requires Sorted(names) && i < |names| && names[i] in bs
    ensures var b := names[i];
            b in Swept(bs, names[..i], now)
            && Swept(bs, names[..i], now)[b] == bs[b]
            && Swept(bs, names[..i + 1], now)
               == Swept(bs, names[..i], now)[b := DeleteKeys(bs[b], M.ExpiredKeys(bs[b], now), now)]
            && (M.ExpiredKeys(bs[b], now) == [] ==> Swept(bs, names[..i + 1], now) == Swept(bs, names[..i], now))
            && SweepReport(bs, names[..i + 1], now)
               == if M.ExpiredKeys(bs[b], now) == [] then SweepReport(bs, names[..i], now)
                  else SweepReport(bs, names[..i], now)[b := M.ExpiredKeys(bs[b], now)]
  {
    LessIrreflexive(names[i]);
    assert names[..i + 1] == names[..i] + [names[i]];
    SweptNext(bs, names[..i], names[i], now);
  }

  lemma SweepNothing(bs: Buckets, now: u64)
    ensures Swept(bs, [], now) == bs && SweepReport(bs, [], now) == map[]
  {
  }

  lemma SweepEverything(bs: Buckets, names: seq<Str>, now: u64)
    requires forall b :: b in bs ==> b in names
    ensures Swept(bs, names[..|names|], now) == map b | b in bs :: SweepIn(bs[b], now)
    ensures SweepReport(bs, names[..|names|], now)
         == map b | b in bs && M.ExpiredKeys(bs[b], now) != [] :: M.ExpiredKeys(bs[b], now)
  {
    assert names[..|names|] == names;
  }
}
