/** The mutating verbs of `src/store.rs` as they act on the loaded index: their checks, and the index methods they
    call. Together they do what `Mutations.Apply` says. */
module StoreVerbs {
  import opened Basics
  import opened Text
  import opened BucketModel
  import opened BucketIndex
  import opened Mutations

  /** `check_write`, branch by branch. */
  method CheckWrite(pre: Preconditions, existing: Option<string>) returns (ok: bool)
    ensures ok == pre.CheckWrite(existing)
  {
    if pre.ifNoneMatch.Some? {
      var m := pre.ifNoneMatch.value;
      if m == "*" && existing.Some? { return false; }
      if m != "*" && existing.Some? && TrimBoth(m, IsQuote) == existing.value { return false; }
    }
    if pre.ifMatch.Some? {
      var m := pre.ifMatch.value;
      if existing.None? { return false; }
      if m != "*" && TrimBoth(m, IsQuote) != existing.value { return false; }
    }
    ok := true;
  }

  /** The index step of `put_object_opts`, preconditions included. */
  method PutObject(index: Index, bucket: Str, key: Str, meta: ObjectMeta, pre: Preconditions)
    returns (r: Result<Unit, Error>)
    modifies index
    ensures Outcome(old(index.buckets), Apply(PutM(bucket, key, meta, pre), old(index.buckets)), r, index.buckets)
  {
    if !ValidKey(key) { return Err(InvalidKey); }
    if !ValidMetadata(meta.metadata) { return Err(InvalidMetadata); }
    if bucket !in index.buckets { return Err(NoSuchBucket); }
    if pre.ifMatch.Some? || pre.ifNoneMatch.Some? || pre.ifModifiedSince.Some? || pre.ifUnmodifiedSince.Some? {
      var found := Head(index.buckets, bucket, key);
      var passes := CheckWrite(pre, if found.Ok? then Some(found.value.etag) else None);
      if !passes { return Err(PreconditionFailed); }
    }
    r := index.Put(bucket, key, meta);
  }

  /** `delete_objects`: each key in turn, in one pass; a missing bucket fails every key and changes nothing. */
  method DeleteObjects(index: Index, bucket: Str, keys: seq<Str>, now: u64)
    modifies index
    ensures Apply(DeleteManyM(bucket, keys, now), old(index.buckets)) == Ok(index.buckets)
  {
    if bucket in index.buckets { index.DeleteEach(bucket, keys, now); }
  }

  /** Every verb, by way of the index methods, has the outcome that the value model gives it. */
  method Perform(index: Index, m: Mutation) returns (r: Result<Unit, Error>)
    modifies index
    ensures Outcome(old(index.buckets), Apply(m, old(index.buckets)), r, index.buckets)
  {
    match m {
      case MakeBucketM(name, now) => r := index.MakeBucket(name, now);
      case RemoveBucketM(name, force) => r := index.RemoveBucket(name, force);
      case SetVersioningM(name, enabled) => r := index.SetVersioning(name, enabled);
      case SetLifecycleM(name, rules) => r := index.SetLifecycle(name, rules);
      case PutM(bucket, key, meta, pre) => r := PutObject(index, bucket, key, meta, pre);
      case DeleteM(bucket, key, now) => r := index.Delete(bucket, key, now);
      case DeleteVersionM(bucket, key, id) => r := index.DeleteVersion(bucket, key, id);
      case DeleteManyM(bucket, keys, now) =>
        DeleteObjects(index, bucket, keys, now);
        r := Ok(Unit);
      case CopyM(srcBucket, srcKey, bucket, key, now) => r := index.Copy(srcBucket, srcKey, bucket, key, now);
      case SweepM(bucket, now) =>
        var swept := index.SweepExpired(bucket, now);
        r := if swept.Ok? then Ok(Unit) else Err(swept.error);
      case SweepAllM(now) =>
        var report := index.SweepAll(now);
        r := Ok(Unit);
    }
  }
}
