/** Version histories over runs of verbs: what stays retrievable while a bucket stays versioned, and
    what conditional puts promise between commits. */
module History {
  import opened Basics
  import opened Text
  import opened BucketModel
  import opened Mutations

  // ---- well-formed histories ----

  ghost predicate IsMarkerId(id: string) {
    exists n: u64 :: id == MarkerId(n)
  }

  /** Metadata as `ObjectMeta::new` builds it, for a content id that no delete marker could carry. */
  ghost predicate GoodMeta(meta: ObjectMeta) {
    meta.versionId == meta.cid && meta.etag == meta.cid && !IsMarkerId(meta.cid)
  }

  ghost predicate GoodVersion(v: ObjectVersion) {
    if v.isDeleteMarker then IsMarkerId(v.meta.versionId) else GoodMeta(v.meta)
  }

  /** Every version in the bucket satisfies `p`. */
  ghost predicate AllIn(b: Bucket, p: ObjectVersion -> bool) {
    forall k :: k in b.objects ==> AllOf(b.objects[k].versions, p)
  }

  ghost predicate AllOf(vs: seq<ObjectVersion>, p: ObjectVersion -> bool) {
    forall v :: v in vs ==> p(v)
  }

  /** Every version the index names satisfies `p`. */
  ghost predicate AllVersions(bs: Buckets, p: ObjectVersion -> bool) {
    forall n :: n in bs ==> AllIn(bs[n], p)
  }

  ghost predicate GoodIndex(bs: Buckets) {
    AllVersions(bs, v => GoodVersion(v))
  }

  ghost predicate GoodMutation(m: Mutation) {
    m.PutM? ==> GoodMeta(m.meta)
  }

  /** Delete markers satisfy `p`, and `p` does not look at modification times. */
  ghost predicate Tolerant(p: ObjectVersion -> bool) {
    (forall now :: p(Marker(now)))
    && forall meta: ObjectMeta, now ::
      p(ObjectVersion(meta, false)) ==> p(ObjectVersion(meta.(lastModified := now), false))
  }

  lemma GoodTolerant()
    ensures Tolerant(v => GoodVersion(v))
  {
  }

  lemma PutKeepsAll(b: Bucket, key: Str, meta: ObjectMeta, p: ObjectVersion -> bool)
    requires AllIn(b, p) && p(ObjectVersion(meta, false))
    ensures AllIn(PutIn(b, key, meta), p)
  {
  }

  lemma DeleteKeepsAll(b: Bucket, key: Str, now: u64, p: ObjectVersion -> bool)
    requires AllIn(b, p) && p(Marker(now))
    ensures AllIn(DeleteIn(b, key, now), p)
  {
    hide Marker;
  }

  lemma {:induction false} DeleteKeysKeepsAll(b: Bucket, keys: seq<Str>, now: u64, p: ObjectVersion -> bool)
    requires AllIn(b, p) && p(Marker(now))
    ensures AllIn(DeleteKeys(b, keys, now), p)
  {
    hide AllIn, DeleteIn, Marker;
    if keys != [] {
      DeleteKeysKeepsAll(b, keys[..|keys| - 1], now, p);
      DeleteKeepsAll(DeleteKeys(b, keys[..|keys| - 1], now), keys[|keys| - 1], now, p);
    }
  }

  /** Removing an id removes exactly the versions that carry it. */
  lemma {:induction false} WithoutExact(vs: seq<ObjectVersion>, id: string)
    ensures forall v :: v in Without(vs, id) <==> v in vs && v.meta.versionId != id
  {
    if vs != [] {
      WithoutExact(vs[..|vs| - 1], id);
      assert vs == vs[..|vs| - 1] + [vs[|vs| - 1]];
    }
  }

  /** What is kept stays in order. */
  lemma {:induction false} WithoutConcat(older: seq<ObjectVersion>, newer: seq<ObjectVersion>, id: string)
    ensures Without(older + newer, id) == Without(older, id) + Without(newer, id)
  {
    if newer == [] {
      assert older + newer == older;
    } else {
      assert (older + newer)[..|older + newer| - 1] == older + newer[..|newer| - 1];
      WithoutConcat(older, newer[..|newer| - 1], id);
    }
  }

  lemma DeleteVersionKeepsAll(b: Bucket, key: Str, id: string, p: ObjectVersion -> bool)
    requires AllIn(b, p)
    ensures AllIn(DeleteVersionIn(b, key, id), p)
  {
    hide Without;
    if key in b.objects { WithoutExact(b.objects[key].versions, id); }
  }

  lemma HeadKeepsAll(bs: Buckets, bucket: Str, key: Str, p: ObjectVersion -> bool)
    requires AllVersions(bs, p) && Head(bs, bucket, key).Ok?
    ensures p(ObjectVersion(Head(bs, bucket, key).value, false))
  {
    var vs := bs[bucket].objects[key].versions;
    assert vs[|vs| - 1] in vs && AllOf(vs, p);
  }

  /** No verb brings in a version other than the one it puts, a copy of one that was there, or a marker. */
  lemma VersionsKept(m: Mutation, bs: Buckets, p: ObjectVersion -> bool)
    requires AllVersions(bs, p) && Tolerant(p)
    requires m.PutM? ==> p(ObjectVersion(m.meta, false))
    ensures AllVersions(After(m, bs), p)
  {
    hide AllIn, PutIn, DeleteIn, DeleteKeys, DeleteVersionIn, SweepIn, Marker, ExpiredKeys, Head;
    match m
    case MakeBucketM(_, now) => NothingToKeep(now, p);
    case RemoveBucketM(_, _) =>
    case SetVersioningM(name, enabled) =>
      if name in bs { SettingsKeepAll(bs[name], bs[name].(versioning := enabled), p); }
    case SetLifecycleM(name, rules) =>
      if name in bs { SettingsKeepAll(bs[name], bs[name].(lifecycle := rules), p); }
    case PutM(bucket, key, meta, _) =>
      if bucket in bs { PutKeepsAll(bs[bucket], key, meta, p); }
    case DeleteM(bucket, key, now) =>
      if bucket in bs { DeleteKeepsAll(bs[bucket], key, now, p); }
    case DeleteVersionM(bucket, key, id) =>
      if bucket in bs { DeleteVersionKeepsAll(bs[bucket], key, id, p); }
    case DeleteManyM(bucket, keys, now) =>
      if bucket in bs { DeleteKeysKeepsAll(bs[bucket], keys, now, p); }
    case CopyM(srcBucket, srcKey, bucket, key, now) =>
      if bucket in bs && Head(bs, srcBucket, srcKey).Ok? {
        HeadKeepsAll(bs, srcBucket, srcKey, p);
        PutKeepsAll(bs[bucket], key, Head(bs, srcBucket, srcKey).value.(lastModified := now), p);
      }
    case SweepM(bucket, now) =>
      if bucket in bs { SweepKeepsAll(bs[bucket], now, p); }
    case SweepAllM(now) =>
      forall b | b in bs ensures AllIn(SweepIn(bs[b], now), p) { SweepKeepsAll(bs[b], now, p); }
  }

  lemma NothingToKeep(now: u64, p: ObjectVersion -> bool)
    ensures AllIn(Bucket(now, false, [], map[]), p)
  {
  }

  lemma SettingsKeepAll(a: Bucket, b: Bucket, p: ObjectVersion -> bool)
    requires AllIn(a, p) && a.objects == b.objects
    ensures AllIn(b, p)
  {
  }

  lemma SweepKeepsAll(b: Bucket, now: u64, p: ObjectVersion -> bool)
    requires AllIn(b, p) && p(Marker(now))
    ensures AllIn(SweepIn(b, now), p)
  {
    DeleteKeysKeepsAll(b, ExpiredKeys(b, now), now, p);
  }

  /** Every verb keeps version ids and content ids in step. */
  lemma GoodKept(m: Mutation, bs: Buckets)
    requires GoodIndex(bs) && GoodMutation(m)
    ensures GoodIndex(After(m, bs))
  {
    hide After, AllVersions, Tolerant;
    GoodTolerant();
    VersionsKept(m, bs, v => GoodVersion(v));
  }

  // ---- runs ----

  /** The index after a run of verbs, each either taking effect or failing without effect. */
  function Run(bs: Buckets, ms: seq<Mutation>): Buckets {
    if ms == [] then bs else After(ms[|ms| - 1], Run(bs, ms[..|ms| - 1]))
  }

  /** The verb keeps the bucket in place, versioned, and removes no version of the key by id. */
  ghost predicate KeepsHistory(m: Mutation, bucket: Str, key: Str) {
    m != SetVersioningM(bucket, false)
    && !(m.RemoveBucketM? && m.name == bucket)
    && !(m.DeleteVersionM? && m.bucket == bucket && m.key == key)
  }

  ghost predicate VersionedAt(bs: Buckets, bucket: Str) {
    bucket in bs && bs[bucket].versioning
  }

  lemma PutAppends(b: Bucket, key: Str, meta: ObjectMeta, k: Str)
    requires b.versioning
    ensures PutIn(b, key, meta).versioning && Versions(b, k) <= Versions(PutIn(b, key, meta), k)
  {
  }

  lemma DeleteVersionElsewhere(b: Bucket, k: Str, id: string, key: Str)
    requires k != key
    ensures SameSettings(b, DeleteVersionIn(b, k, id))
    ensures Versions(DeleteVersionIn(b, k, id), key) == Versions(b, key)
  {
  }

  lemma VersionsByObjects(a: Bucket, b: Bucket, key: Str)
    requires a.objects == b.objects
    ensures Versions(a, key) == Versions(b, key)
  {
  }

  lemma DeleteAppends(b: Bucket, key: Str, now: u64, k: Str)
    requires b.versioning
    ensures DeleteIn(b, key, now).versioning && Versions(b, k) <= Versions(DeleteIn(b, key, now), k)
  {
  }

  /** While a bucket stays versioned, its verbs only ever append to a key's history. */
  lemma StepAppends(m: Mutation, bs: Buckets, bucket: Str, key: Str)
    requires VersionedAt(bs, bucket) && KeepsHistory(m, bucket, key)
    ensures VersionedAt(After(m, bs), bucket)
    ensures Versions(bs[bucket], key) <= Versions(After(m, bs)[bucket], key)
  {
    hide SweepIn, DeleteKeys, DeleteIn, PutIn, ExpiredKeys, Head, Versions;
    var b := bs[bucket];
    match m
    case MakeBucketM(_, _) =>
    case RemoveBucketM(_, _) =>
    case SetVersioningM(_, enabled) => VersionsByObjects(b, b.(versioning := enabled), key);
    case SetLifecycleM(_, rules) => VersionsByObjects(b, b.(lifecycle := rules), key);
    case PutM(_, k, meta, _) => PutAppends(b, k, meta, key);
    case DeleteM(_, k, now) => DeleteAppends(b, k, now, key);
    case DeleteVersionM(_, k, id) => if k != key { DeleteVersionElsewhere(b, k, id, key); }
    case DeleteManyM(_, keys, now) => DeleteManyAppends(b, keys, now, key);
    case CopyM(srcBucket, srcKey, _, k, now) =>
      if Head(bs, srcBucket, srcKey).Ok? {
        PutAppends(b, k, Head(bs, srcBucket, srcKey).value.(lastModified := now), key);
      }
    case SweepM(_, now) => SweepAppends(b, now, key);
    case SweepAllM(now) => SweepAppends(b, now, key);
  }

  lemma SweepAppends(b: Bucket, now: u64, key: Str)
    requires b.versioning
    ensures SweepIn(b, now).versioning && Versions(b, key) <= Versions(SweepIn(b, now), key)
  {
    SweepExact(b, now, key);
  }

  lemma DeleteManyAppends(b: Bucket, keys: seq<Str>, now: u64, key: Str)
    requires b.versioning
    ensures DeleteKeys(b, keys, now).versioning
    ensures Versions(b, key) <= Versions(DeleteKeys(b, keys, now), key)
  {
    DeleteKeysAt(b, keys, now, key);
    if key in keys { DeleteHides(b, key, now); }
  }

  lemma {:induction false} RunAppends(bs: Buckets, ms: seq<Mutation>, bucket: Str, key: Str)
    requires VersionedAt(bs, bucket)
    requires forall m :: m in ms ==> KeepsHistory(m, bucket, key)
    ensures VersionedAt(Run(bs, ms), bucket)
    ensures Versions(bs[bucket], key) <= Versions(Run(bs, ms)[bucket], key)
  {
    if ms != [] {
      RunAppends(bs, ms[..|ms| - 1], bucket, key);
      StepAppends(ms[|ms| - 1], Run(bs, ms[..|ms| - 1]), bucket, key);
    }
  }

  // ---- retrieval by version id ----

  /** The verb keeps the bucket in place and versioned, and does not delete this version. */
  ghost predicate KeepsVersion(m: Mutation, bucket: Str, key: Str, id: string) {
    m != SetVersioningM(bucket, false)
    && !(m.RemoveBucketM? && m.name == bucket)
    && m != DeleteVersionM(bucket, key, id)
  }

  lemma {:induction false} ByVersionFinds(vs: seq<ObjectVersion>, id: string)
    ensures ByVersion(vs, id).Some? <==> exists v :: v in vs && v.meta.versionId == id
    ensures ByVersion(vs, id).Some? ==> ByVersion(vs, id).value in vs && ByVersion(vs, id).value.meta.versionId == id
  {
    if vs != [] {
      ByVersionFinds(vs[..|vs| - 1], id);
      assert vs == vs[..|vs| - 1] + [vs[|vs| - 1]];
    }
  }

  /** Of several versions with one id, the newest is found. */
  lemma {:induction false} ByVersionNewest(vs: seq<ObjectVersion>, id: string, i: nat)
    requires i < |vs| && vs[i].meta.versionId == id
    requires forall j :: i < j < |vs| ==> vs[j].meta.versionId != id
    ensures ByVersion(vs, id) == Some(vs[i])
    decreases |vs|
  {
    if i < |vs| - 1 { ByVersionNewest(vs[..|vs| - 1], id, i); }
  }

  /** Version `i` is the newest with this id. */
  ghost predicate NewestWith(vs: seq<ObjectVersion>, id: string, i: nat) {
    i < |vs| && vs[i].meta.versionId == id && forall j :: i < j < |vs| ==> vs[j].meta.versionId != id
  }

  lemma NewestFound(vs: seq<ObjectVersion>, id: string)
    ensures forall i: nat :: NewestWith(vs, id, i) ==> ByVersion(vs, id) == Some(vs[i])
    ensures ByVersion(vs, id).Some? ==> exists i: nat :: NewestWith(vs, id, i)
    ensures ByVersion(vs, id).None? <==> forall v :: v in vs ==> v.meta.versionId != id
  {
    ByVersionFinds(vs, id);
    forall i: nat | NewestWith(vs, id, i) ensures ByVersion(vs, id) == Some(vs[i]) {
      ByVersionNewest(vs, id, i);
    }
    if ByVersion(vs, id).Some? { var i := NewestExists(vs, id); }
  }

  lemma {:induction false} NewestExists(vs: seq<ObjectVersion>, id: string) returns (i: nat)
    requires exists v :: v in vs && v.meta.versionId == id
    ensures NewestWith(vs, id, i)
    decreases |vs|
  {
    var n := |vs| - 1;
    if vs[n].meta.versionId == id {
      i := n;
    } else {
      var v :| v in vs && v.meta.versionId == id;
      assert v in vs[..n];
      i := NewestExists(vs[..n], id);
    }
  }

  /** What a lookup by version id answers, errors included: the newest version with that id, unless it is a marker. */
  lemma HeadVersionExactly(bs: Buckets, bucket: Str, key: Str, id: string)
    ensures HeadVersion(bs, bucket, key, id) == Err(NoSuchBucket) <==> bucket !in bs
    ensures HeadVersion(bs, bucket, key, id) == Err(NoSuchKey) <==> bucket in bs && key !in bs[bucket].objects
    ensures bucket in bs && key in bs[bucket].objects ==>
              var vs := bs[bucket].objects[key].versions;
              (HeadVersion(bs, bucket, key, id) == Err(NoSuchVersion) <==>
                 forall v :: v in vs ==> v.meta.versionId != id)
              && forall i: nat :: NewestWith(vs, id, i) ==>
                HeadVersion(bs, bucket, key, id) == if vs[i].isDeleteMarker then Err(IsMarker) else Ok(vs[i].meta)
  {
    hide ByVersion, NewestWith;
    if bucket in bs && key in bs[bucket].objects { NewestFound(bs[bucket].objects[key].versions, id); }
  }

  /** What a lookup of the current version answers, errors included. */
  lemma HeadExactly(bs: Buckets, bucket: Str, key: Str)
    ensures Head(bs, bucket, key) == Err(NoSuchBucket) <==> bucket !in bs
    ensures forall meta :: Head(bs, bucket, key) == Ok(meta) <==>
                           bucket in bs && key in bs[bucket].objects
                           && exists older :: bs[bucket].objects[key].versions == older + [ObjectVersion(meta, false)]
    ensures Head(bs, bucket, key).Err? && bucket in bs ==> Head(bs, bucket, key) == Err(NoSuchKey)
  {
    if Head(bs, bucket, key).Ok? {
      var vs := bs[bucket].objects[key].versions;
      assert vs == vs[..|vs| - 1] + [vs[|vs| - 1]];
    }
  }

  /** Some version of the key carries this content id. */
  ghost predicate HasVersion(vs: seq<ObjectVersion>, id: string) {
    exists v :: v in vs && v.meta.versionId == id
  }

  /** In a well-formed index, a content id some version carries is exactly one `head_version` serves. */
  lemma Retrievable(bs: Buckets, bucket: Str, key: Str, id: string)
    requires GoodIndex(bs) && !IsMarkerId(id) && bucket in bs
    ensures HasVersion(Versions(bs[bucket], key), id) <==> HeadVersion(bs, bucket, key, id).Ok?
    ensures HeadVersion(bs, bucket, key, id).Ok? ==> HeadVersion(bs, bucket, key, id).value.cid == id
  {
    ByVersionFinds(Versions(bs[bucket], key), id);
  }

  lemma StepRetains(m: Mutation, bs: Buckets, bucket: Str, key: Str, id: string)
    requires VersionedAt(bs, bucket) && KeepsVersion(m, bucket, key, id)
    requires HasVersion(Versions(bs[bucket], key), id)
    ensures VersionedAt(After(m, bs), bucket) && HasVersion(Versions(After(m, bs)[bucket], key), id)
  {
    var v :| v in Versions(bs[bucket], key) && v.meta.versionId == id;
    if m.DeleteVersionM? && m.bucket == bucket && m.key == key {
      WithoutExact(bs[bucket].objects[key].versions, m.id);
    } else {
      StepAppends(m, bs, bucket, key);
    }
    assert v in Versions(After(m, bs)[bucket], key);
  }

  /** Every content id put on a key of a versioned bucket stays retrievable, with the same content id,
      over every run that neither suspends versioning, nor removes the bucket, nor deletes that version. */
  lemma {:induction false} VersionsSurvive(bs: Buckets, ms: seq<Mutation>, bucket: Str, key: Str, id: string)
    requires GoodIndex(bs) && !IsMarkerId(id)
    requires VersionedAt(bs, bucket) && HeadVersion(bs, bucket, key, id).Ok?
    requires forall m :: m in ms ==> GoodMutation(m) && KeepsVersion(m, bucket, key, id)
    ensures GoodIndex(Run(bs, ms)) && VersionedAt(Run(bs, ms), bucket)
    ensures HeadVersion(Run(bs, ms), bucket, key, id).Ok?
    ensures HeadVersion(Run(bs, ms), bucket, key, id).value.cid == id
  {
    if ms == [] {
      Retrievable(bs, bucket, key, id);
    } else {
      var front, last := ms[..|ms| - 1], ms[|ms| - 1];
      VersionsSurvive(bs, front, bucket, key, id);
      GoodKept(last, Run(bs, front));
      Retrievable(Run(bs, front), bucket, key, id);
      StepRetains(last, Run(bs, front), bucket, key, id);
      Retrievable(Run(bs, ms), bucket, key, id);
    }
  }

  /** A successful put is the current object and is retrievable by its content id. */
  lemma PutIsCurrent(bs: Buckets, bucket: Str, key: Str, meta: ObjectMeta, pre: Preconditions)
    requires GoodIndex(bs) && GoodMeta(meta)
    requires Apply(PutM(bucket, key, meta, pre), bs).Ok?
    ensures var after := After(PutM(bucket, key, meta, pre), bs);
            Head(after, bucket, key) == Ok(meta) && HeadVersion(after, bucket, key, meta.cid).Ok?
  {
    var after := After(PutM(bucket, key, meta, pre), bs);
    GoodKept(PutM(bucket, key, meta, pre), bs);
    assert ObjectVersion(meta, false) in Versions(after[bucket], key);
    Retrievable(after, bucket, key, meta.cid);
  }

  /** How many versions are not markers. */
  ghost function LiveCount(vs: seq<ObjectVersion>): nat {
    |set i | 0 <= i < |vs| && !vs[i].isDeleteMarker|
  }

  lemma LiveCountNext(vs: seq<ObjectVersion>, v: ObjectVersion)
    ensures LiveCount(vs + [v]) == LiveCount(vs) + if v.isDeleteMarker then 0 else 1
  {
    var before := set i | 0 <= i < |vs| && !vs[i].isDeleteMarker;
    var after := set i | 0 <= i < |vs + [v]| && !(vs + [v])[i].isDeleteMarker;
    if v.isDeleteMarker {
      assert after == before;
    } else {
      assert after == before + {|vs|};
    }
  }

  /** Listing versions puts newer ones first and leaves exactly the markers out. */
  lemma {:induction false} LiveMetasNewestFirst(older: seq<ObjectVersion>, newer: seq<ObjectVersion>)
    ensures LiveMetas(older + newer) == LiveMetas(newer) + LiveMetas(older)
    ensures forall meta :: meta in LiveMetas(newer) <==> ObjectVersion(meta, false) in newer
    ensures |LiveMetas(newer)| == LiveCount(newer)
  {
    if newer == [] {
      assert older + newer == older;
    } else {
      var front, last := newer[..|newer| - 1], newer[|newer| - 1];
      assert (older + newer)[..|older + newer| - 1] == older + front;
      assert newer == front + [last];
      LiveMetasNewestFirst(older, front);
      LiveCountNext(front, last);
    }
  }

  /** The listed versions are exactly those that can be asked for by id. */
  lemma ListedAreRetrievable(bs: Buckets, bucket: Str, key: Str, meta: ObjectMeta)
    requires GoodIndex(bs) && ListVersions(bs, bucket, key).Ok?
    ensures var listed := ListVersions(bs, bucket, key).value;
            (meta in listed ==>
               var found := HeadVersion(bs, bucket, key, meta.versionId);
               found.Ok? && found.value in listed && found.value.cid == meta.cid)
            && forall id :: HeadVersion(bs, bucket, key, id).Ok? ==> HeadVersion(bs, bucket, key, id).value in listed
  {
    hide LiveMetas, ByVersion, IsMarkerId;
    var vs := bs[bucket].objects[key].versions;
    assert [] + vs == vs;
    LiveMetasNewestFirst([], vs);
    ByVersionFinds(vs, meta.versionId);
    forall id | HeadVersion(bs, bucket, key, id).Ok?
      ensures HeadVersion(bs, bucket, key, id).value in LiveMetas(vs)
    {
      ByVersionFinds(vs, id);
      assert ByVersion(vs, id).value == ObjectVersion(HeadVersion(bs, bucket, key, id).value, false);
    }
    if meta in LiveMetas(vs) {
      VersionIn(bs, bucket, key, ObjectVersion(meta, false), v => GoodVersion(v));
      VersionIn(bs, bucket, key, ByVersion(vs, meta.versionId).value, v => GoodVersion(v));
    }
  }

  lemma VersionIn(bs: Buckets, bucket: Str, key: Str, v: ObjectVersion, p: ObjectVersion -> bool)
    requires AllVersions(bs, p) && bucket in bs && v in Versions(bs[bucket], key)
    ensures p(v)
  {
    assert AllIn(bs[bucket], p);
    assert AllOf(bs[bucket].objects[key].versions, p);
  }

  /** A copy shares the source's content id, size and metadata, leaves the source key as it was, and fails
      exactly when the source is not visible or the destination cannot take it. */
  lemma CopySharesContent(bs: Buckets, srcBucket: Str, srcKey: Str, bucket: Str, key: Str, now: u64)
    requires GoodIndex(bs)
    ensures var m := CopyM(srcBucket, srcKey, bucket, key, now);
            var source := Head(bs, srcBucket, srcKey);
            (Apply(m, bs).Ok? <==>
               source.Ok? && ValidKey(key) && ValidMetadata(source.value.metadata) && bucket in bs)
            && (Apply(m, bs).Ok? ==>
                  Head(After(m, bs), bucket, key) == Ok(source.value.(lastModified := now))
                  && HeadVersion(After(m, bs), bucket, key, source.value.cid) == Head(After(m, bs), bucket, key)
                  && ((srcBucket, srcKey) != (bucket, key) ==> Head(After(m, bs), srcBucket, srcKey) == source))
  {
    hide ValidKey, ValidMetadata;
    if Head(bs, srcBucket, srcKey).Ok? {
      HeadKeepsAll(bs, srcBucket, srcKey, v => GoodVersion(v));
    }
  }

  /** The verb may act on the key: it names it, or its whole bucket, or sweeps it because it has expired. */
  ghost predicate Touches(m: Mutation, bs: Buckets, bucket: Str, key: Str) {
    match m
    case MakeBucketM(_, _) => false
    case RemoveBucketM(name, _) => name == bucket
    case SetVersioningM(_, _) => false
    case SetLifecycleM(_, _) => false
    case PutM(b, k, _, _) => b == bucket && k == key
    case DeleteM(b, k, _) => b == bucket && k == key
    case DeleteVersionM(b, k, _) => b == bucket && k == key
    case DeleteManyM(b, keys, _) => b == bucket && key in keys
    case CopyM(_, _, b, k, _) => b == bucket && k == key
    case SweepM(b, now) => b == bucket && b in bs && Expired(bs[b], key, now)
    case SweepAllM(now) => bucket in bs && Expired(bs[bucket], key, now)
  }

  /** Every verb leaves the histories of all keys it does not touch exactly as they were. */
  lemma OtherKeysUntouched(m: Mutation, bs: Buckets, bucket: Str, key: Str)
    requires bucket in bs && !Touches(m, bs, bucket, key)
    ensures bucket in After(m, bs) && At(After(m, bs)[bucket], key) == At(bs[bucket], key)
  {
    hide SweepIn, DeleteKeys, ExpiredKeys, Expired, Head;
    match m
    case DeleteManyM(_, keys, now) => DeleteKeysAt(bs[bucket], keys, now, key);
    case SweepM(_, now) => SweepExact(bs[bucket], now, key);
    case SweepAllM(now) => SweepExact(bs[bucket], now, key);
    case _ =>
  }

  // ---- undoing a delete ----

  lemma {:induction false} WithoutKeepsAll(vs: seq<ObjectVersion>, id: string)
    requires forall v :: v in vs ==> v.meta.versionId != id
    ensures Without(vs, id) == vs
  {
    if vs != [] {
      var front, last := vs[..|vs| - 1], vs[|vs| - 1];
      assert vs == front + [last] && last in vs;
      WithoutKeepsAll(front, id);
    }
  }

  lemma WithoutNothing(vs: seq<ObjectVersion>, id: string)
    ensures Without(vs, id) == vs <==> !HasVersion(vs, id)
  {
    hide Without;
    WithoutExact(vs, id);
    if !HasVersion(vs, id) { WithoutKeepsAll(vs, id); }
  }

  /** Deleting a visible key of a versioned bucket hides it; deleting the marker shows the same object
      again. The history itself is restored exactly when no older marker bears the same second. */
  lemma UndoDelete(bs: Buckets, bucket: Str, key: Str, now: u64)
    requires GoodIndex(bs) && VersionedAt(bs, bucket) && Head(bs, bucket, key).Ok?
    ensures var deleted := After(DeleteM(bucket, key, now), bs);
            var undone := After(DeleteVersionM(bucket, key, MarkerId(now)), deleted);
            Head(deleted, bucket, key).Err?
            && Head(undone, bucket, key) == Head(bs, bucket, key)
            && (Versions(undone[bucket], key) == Versions(bs[bucket], key)
                <==> !HasVersion(Versions(bs[bucket], key), MarkerId(now)))
  {
    var vs := Versions(bs[bucket], key);
    var last := vs[|vs| - 1];
    var marked := vs + [Marker(now)];
    assert marked[..|vs|] == vs;
    assert GoodVersion(last) by { assert last in vs; }
    assert last.meta.versionId != MarkerId(now);
    var kept := Without(vs, MarkerId(now));
    assert Without(marked, MarkerId(now)) == kept;
    assert kept[|kept| - 1] == last;
    WithoutNothing(vs, MarkerId(now));
  }

  /** The case in which undoing a delete does not restore the history: an older marker was made in the same
      second, and goes with the new one. */
  lemma SameSecondMarkers() returns (bs: Buckets, bucket: Str, key: Str)
    ensures GoodIndex(bs) && VersionedAt(bs, bucket) && Head(bs, bucket, key).Ok?
    ensures var deleted := After(DeleteM(bucket, key, 5), bs);
            var undone := After(DeleteVersionM(bucket, key, MarkerId(5)), deleted);
            Versions(undone[bucket], key) != Versions(bs[bucket], key)
  {
    hide Apply, After, MarkerId, IsMarkerId;
    var v := ObjectVersion(NewMeta("c", 0, "", 0), false);
    var vs := [v, Marker(5), v];
    bucket, key := [98], [107];
    bs := map[bucket := Bucket(0, true, [], map[key := ObjectEntry(vs)])];
    PlainCid();
    GoodMarker(5);
    assert GoodVersion(v);
    assert AllOf(vs, u => GoodVersion(u));
    assert Marker(5) in vs;
    UndoDelete(bs, bucket, key, 5);
  }

  lemma PlainCid()
    ensures !IsMarkerId("c")
  {
    forall n: u64 ensures MarkerId(n) != "c" {
      assert MarkerId(n)[0] == 'd';
    }
  }

  lemma GoodMarker(now: u64)
    ensures GoodVersion(Marker(now))
  {
  }

  // ---- compare and swap ----

  /** The index that a sequence of committed verbs builds from nothing. */
  function Fold(h: seq<Mutation>): Buckets {
    if h == [] then map[] else After(h[|h| - 1], Fold(h[..|h| - 1]))
  }

  /** Every verb in the history succeeded on the index it found. */
  ghost predicate Committed(h: seq<Mutation>) {
    forall i :: 0 <= i < |h| ==> Apply(h[i], Fold(h[..i])).Ok?
  }

  lemma FoldStep(h: seq<Mutation>, i: nat)
    requires i < |h|
    ensures Fold(h[..i + 1]) == After(h[i], Fold(h[..i]))
  {
    assert h[..i + 1][..i] == h[..i];
  }

  predicate IsWriteOnce(m: Mutation, bucket: Str, key: Str) {
    m.PutM? && m.bucket == bucket && m.key == key && m.pre.ifNoneMatch == Some("*")
  }

  /** The verb took the key from visible to hidden. */
  ghost predicate Hides(m: Mutation, bs: Buckets, bucket: Str, key: Str) {
    Head(bs, bucket, key).Ok? && Head(After(m, bs), bucket, key).Err?
  }

  /** Only a delete of the key or of one of its versions, the removal of its bucket, or a sweep that
      found it expired can hide a key. */
  lemma HidersAre(m: Mutation, bs: Buckets, bucket: Str, key: Str)
    requires Hides(m, bs, bucket, key)
    ensures || (m.RemoveBucketM? && m.name == bucket)
            || (m.DeleteM? && m.bucket == bucket && m.key == key)
            || (m.DeleteVersionM? && m.bucket == bucket && m.key == key)
            || (m.DeleteManyM? && m.bucket == bucket && key in m.keys)
            || (m.SweepM? && m.bucket == bucket && Expired(bs[bucket], key, m.now))
            || (m.SweepAllM? && Expired(bs[bucket], key, m.now))
  {
    hide SweepIn, DeleteKeys, ExpiredKeys;
    match m
    case DeleteManyM(_, keys, now) =>
      DeleteKeysAt(bs[bucket], keys, now, key);
      if key !in keys { VisibleByEntry(DeleteKeys(bs[bucket], keys, now), bs[bucket], key); }
    case SweepM(_, now) => SweepExact(bs[bucket], now, key);
    case SweepAllM(now) => SweepExact(bs[bucket], now, key);
    case _ =>
  }

  lemma WriteOnceStep(m: Mutation, bs: Buckets, bucket: Str, key: Str)
    requires IsWriteOnce(m, bucket, key) && Apply(m, bs).Ok?
    ensures Head(bs, bucket, key).Err? && Head(After(m, bs), bucket, key).Ok?
  {
  }

  /** Between two successful creates-if-absent of one key, some verb hid or removed that key. */
  lemma WriteOnce(h: seq<Mutation>, i: nat, j: nat, bucket: Str, key: Str) returns (k: nat)
    requires Committed(h) && i < j < |h|
    requires IsWriteOnce(h[i], bucket, key) && IsWriteOnce(h[j], bucket, key)
    ensures i < k < j && Hides(h[k], Fold(h[..k]), bucket, key)
  {
    hide IsWriteOnce, Apply, After, Head, Fold;
    FoldStep(h, i);
    WriteOnceStep(h[i], Fold(h[..i]), bucket, key);
    WriteOnceStep(h[j], Fold(h[..j]), bucket, key);
    k := i + 1;
    while Head(Fold(h[..k + 1]), bucket, key).Ok?
      invariant i < k < j && Head(Fold(h[..k]), bucket, key).Ok?
      decreases j - k
    {
      k := k + 1;
    }
    FoldStep(h, k);
  }

  /** A successful put with `If-Match: e`, unless it is `*`, commits directly over an object whose ETag
      is `e`. */
  lemma IfMatchIsCurrent(h: seq<Mutation>, i: nat)
    requires Committed(h) && i < |h| && h[i].PutM?
    requires h[i].pre.ifMatch.Some? && h[i].pre.ifMatch.value != "*"
    ensures var found := Head(Fold(h[..i]), h[i].bucket, h[i].key);
            found.Ok? && found.value.etag == TrimBoth(h[i].pre.ifMatch.value, IsQuote)
  {
  }
}
