/** The mutating verbs of `src/store.rs` as values, with the write preconditions, and what one
    application of a verb may do to the index. */
module Mutations {
  import opened Basics
  import opened Search
  import opened Text
  import opened BucketModel

  datatype Preconditions = Preconditions(
    ifMatch: Option<string>,
    ifNoneMatch: Option<string>,
    ifModifiedSince: Option<u64>,
    ifUnmodifiedSince: Option<u64>)
  {
    predicate Any() {
      ifMatch.Some? || ifNoneMatch.Some? || ifModifiedSince.Some? || ifUnmodifiedSince.Some?
    }

    /** `check_write`: may a put proceed over the current object's ETag, if there is one? */
    predicate CheckWrite(existing: Option<string>) {
      (ifNoneMatch.Some? ==>
         if ifNoneMatch.value == "*" then existing.None?
         else existing.Some? ==> TrimBoth(ifNoneMatch.value, IsQuote) != existing.value)
      && (ifMatch.Some? ==>
         existing.Some? && (ifMatch.value == "*" || TrimBoth(ifMatch.value, IsQuote) == existing.value))
    }
  }

  const NoPreconditions := Preconditions(None, None, None, None)

  datatype Mutation =
    | MakeBucketM(name: Str, now: u64)
    | RemoveBucketM(name: Str, force: bool)
    | SetVersioningM(name: Str, enabled: bool)
    | SetLifecycleM(name: Str, rules: seq<LifecycleRule>)
    | PutM(bucket: Str, key: Str, meta: ObjectMeta, pre: Preconditions)
    | DeleteM(bucket: Str, key: Str, now: u64)
    | DeleteVersionM(bucket: Str, key: Str, id: string)
    | DeleteManyM(bucket: Str, keys: seq<Str>, now: u64)
    | CopyM(srcBucket: Str, srcKey: Str, bucket: Str, key: Str, now: u64)
    | SweepM(bucket: Str, now: u64)
    | SweepAllM(now: u64)

  function CurrentEtag(bs: Buckets, bucket: Str, key: Str): Option<string> {
    match Head(bs, bucket, key)
    case Ok(meta) => Some(meta.etag)
    case Err(_) => None
  }

  /** What a verb computes from the reloaded index, under the lock. */
  function Apply(m: Mutation, bs: Buckets): Result<Buckets, Error> {
    match m
    case MakeBucketM(name, now) => MakeBucket(bs, name, now)
    case RemoveBucketM(name, force) => RemoveBucket(bs, name, force)
    case SetVersioningM(name, enabled) => SetVersioning(bs, name, enabled)
    case SetLifecycleM(name, rules) => SetLifecycle(bs, name, rules)
    case PutM(bucket, key, meta, pre) =>
      if !ValidKey(key) then Err(InvalidKey)
      else if !ValidMetadata(meta.metadata) then Err(InvalidMetadata)
      else if bucket !in bs then Err(NoSuchBucket)
      else if pre.Any() && !pre.CheckWrite(CurrentEtag(bs, bucket, key)) then Err(PreconditionFailed)
      else Put(bs, bucket, key, meta)
    case DeleteM(bucket, key, now) => Delete(bs, bucket, key, now)
    case DeleteVersionM(bucket, key, id) => DeleteVersion(bs, bucket, key, id)
    case DeleteManyM(bucket, keys, now) =>
      if bucket in bs then Ok(bs[bucket := DeleteKeys(bs[bucket], keys, now)]) else Ok(bs)
    case CopyM(srcBucket, srcKey, bucket, key, now) => Copy(bs, srcBucket, srcKey, bucket, key, now)
    case SweepM(bucket, now) =>
      if bucket in bs then Ok(bs[bucket := SweepIn(bs[bucket], now)]) else Err(NoSuchBucket)
    case SweepAllM(now) => Ok(map b | b in bs :: SweepIn(bs[b], now))
  }

  /** A verb's outcome on the index: the new value, or the old one when it fails. */
  function After(m: Mutation, bs: Buckets): Buckets {
    match Apply(m, bs)
    case Ok(v) => v
    case Err(_) => bs
  }

  /** The object at a key carries this ETag. */
  predicate Bears(bs: Buckets, bucket: Str, key: Str, etag: string) {
    Head(bs, bucket, key).Ok? && Head(bs, bucket, key).value.etag == etag
  }

  /** When a put succeeds, header by header. The two date headers play no part in it. */
  lemma PutSucceedsExactly(bs: Buckets, bucket: Str, key: Str, meta: ObjectMeta, pre: Preconditions)
    ensures Apply(PutM(bucket, key, meta, pre), bs).Ok? <==>
            ValidKey(key) && ValidMetadata(meta.metadata) && bucket in bs
            && (pre.ifNoneMatch == Some("*") ==> Head(bs, bucket, key).Err?)
            && (pre.ifNoneMatch.Some? && pre.ifNoneMatch != Some("*") ==>
                  !Bears(bs, bucket, key, TrimBoth(pre.ifNoneMatch.value, IsQuote)))
            && (pre.ifMatch == Some("*") ==> Head(bs, bucket, key).Ok?)
            && (pre.ifMatch.Some? && pre.ifMatch != Some("*") ==>
                  Bears(bs, bucket, key, TrimBoth(pre.ifMatch.value, IsQuote)))
    ensures Apply(PutM(bucket, key, meta, pre), bs).Ok? ==>
              Head(After(PutM(bucket, key, meta, pre), bs), bucket, key) == Ok(meta)
  {
    hide ValidKey, ValidMetadata, TrimBoth;
  }

  // ---- deleting many keys, key by key ----

  /** The entry under a key, if any. */
  function At(b: Bucket, key: Str): Option<ObjectEntry> {
    if key in b.objects then Some(b.objects[key]) else None
  }

  predicate SameSettings(a: Bucket, b: Bucket) {
    a.created == b.created && a.versioning == b.versioning && a.lifecycle == b.lifecycle
  }

  lemma DeleteInTwice(b: Bucket, key: Str, now: u64)
    ensures At(DeleteIn(DeleteIn(b, key, now), key, now), key) == At(DeleteIn(b, key, now), key)
  {
    if b.versioning && Visible(b.objects, key) {
      var vs := b.objects[key].versions;
      assert (vs + [Marker(now)])[|vs|] == Marker(now);
    }
  }

  /** A bulk delete acts on each named key as one delete would, and leaves every other key alone. */
  lemma {:induction false} DeleteKeysAt(b: Bucket, keys: seq<Str>, now: u64, key: Str)
    ensures SameSettings(b, DeleteKeys(b, keys, now))
    ensures At(DeleteKeys(b, keys, now), key) == if key in keys then At(DeleteIn(b, key, now), key) else At(b, key)
  {
    if keys != [] {
      var front, last := keys[..|keys| - 1], keys[|keys| - 1];
      assert keys == front + [last];
      DeleteKeysAt(b, front, now, key);
      if key == last && key in front {
        DeleteInTwice(b, key, now);
        DeleteInLocal(DeleteKeys(b, front, now), DeleteIn(b, key, now), key, now);
      } else if key == last {
        DeleteInLocal(DeleteKeys(b, front, now), b, key, now);
      }
    }
  }

  /** What a delete does to a key depends only on the bucket's settings and that key's entry. */
  lemma DeleteInLocal(a: Bucket, b: Bucket, key: Str, now: u64)
    requires SameSettings(a, b) && At(a, key) == At(b, key)
    ensures At(DeleteIn(a, key, now), key) == At(DeleteIn(b, key, now), key)
  {
  }

  // ---- sweeping ----

  lemma VisibleByEntry(a: Bucket, b: Bucket, key: Str)
    requires At(a, key) == At(b, key)
    ensures Visible(a.objects, key) <==> Visible(b.objects, key)
    ensures SameSettings(a, b) ==> forall t :: Expired(a, key, t) <==> Expired(b, key, t)
  {
  }

  /** What one delete does to a bucket: without versioning the key is gone with its whole history, with it a visible
      key gains one marker of that moment, and nothing else changes. */
  lemma DeleteExactly(b: Bucket, key: Str, now: u64)
    ensures var after := DeleteIn(b, key, now);
            after.created == b.created && after.versioning == b.versioning && after.lifecycle == b.lifecycle
            && after.objects - {key} == b.objects - {key}
            && (!b.versioning ==> key !in after.objects)
            && (b.versioning && !Visible(b.objects, key) ==> after == b)
            && (b.versioning && Visible(b.objects, key) ==>
                  key in after.objects && |Versions(after, key)| == |Versions(b, key)| + 1
                  && Versions(b, key) < Versions(after, key)
                  && var marker := Versions(after, key)[|Versions(b, key)|];
                     marker.isDeleteMarker && marker.meta.lastModified == now
                     && marker.meta.versionId == "delete-marker-" + Decimal(now))
  {
  }

  lemma DeleteHides(b: Bucket, key: Str, now: u64)
    ensures !Visible(DeleteIn(b, key, now).objects, key)
    ensures b.versioning ==> Versions(b, key) <= Versions(DeleteIn(b, key, now), key)
    ensures b.versioning ==>
              LiveMetas(Versions(DeleteIn(b, key, now), key)) == LiveMetas(Versions(b, key))
  {
    if b.versioning && Visible(b.objects, key) {
      var vs := b.objects[key].versions;
      assert (vs + [Marker(now)])[|vs|] == Marker(now) && (vs + [Marker(now)])[..|vs|] == vs;
    }
  }

  /** A sweep at `t` hides exactly the keys it reports and touches no other key or setting; a versioned
      bucket keeps every version; and nothing is left expired. */
  lemma SweepExact(b: Bucket, t: u64, key: Str)
    ensures key in ExpiredKeys(b, t) <==> Expired(b, key, t)
    ensures SameSettings(b, SweepIn(b, t))
    ensures Visible(SweepIn(b, t).objects, key) <==> Visible(b.objects, key) && !Expired(b, key, t)
    ensures !Expired(b, key, t) ==> At(SweepIn(b, t), key) == At(b, key)
    ensures b.versioning ==>
              Versions(b, key) <= Versions(SweepIn(b, t), key)
              && LiveMetas(Versions(SweepIn(b, t), key)) == LiveMetas(Versions(b, key))
    ensures !b.versioning && Expired(b, key, t) ==> At(SweepIn(b, t), key) == None
    ensures !Expired(SweepIn(b, t), key, t)
  {
    DeleteKeysAt(b, ExpiredKeys(b, t), t, key);
    if Expired(b, key, t) {
      DeleteHides(b, key, t);
      VisibleByEntry(SweepIn(b, t), DeleteIn(b, key, t), key);
    } else {
      VisibleByEntry(SweepIn(b, t), b, key);
    }
  }

  /** `sweep_expired`: afterwards nothing in the bucket is expired, and no other bucket changed. */
  lemma SweepBucketExact(bs: Buckets, bucket: Str, t: u64)
    requires bucket in bs
    ensures var after := After(SweepM(bucket, t), bs);
            after.Keys == bs.Keys
            && ExpiredKeys(after[bucket], t) == []
            && forall b :: b in bs && b != bucket ==> after[b] == bs[b]
  {
    NothingExpired(bs[bucket], t);
  }

  /** `sweep_all`: afterwards nothing anywhere is expired. */
  lemma SweepAllExact(bs: Buckets, t: u64)
    ensures var after := After(SweepAllM(t), bs);
            after.Keys == bs.Keys && forall b :: b in bs ==> ExpiredKeys(after[b], t) == []
  {
    forall b | b in bs ensures ExpiredKeys(SweepIn(bs[b], t), t) == [] {
      NothingExpired(bs[b], t);
    }
  }

  lemma NothingExpired(b: Bucket, t: u64)
    ensures ExpiredKeys(SweepIn(b, t), t) == []
  {
    var ks := ExpiredKeys(SweepIn(b, t), t);
    forall k ensures k !in ks {
      SweepExact(b, t, k);
    }
    if ks != [] { var k := SomeMember(ks); }
  }

  /** Without writes in between, what has expired stays expired. */
  lemma ExpiryMonotone(b: Bucket, t: u64, u: u64, key: Str)
    requires t <= u
    ensures key in ExpiredKeys(b, t) ==> key in ExpiredKeys(b, u)
  {
  }
}
