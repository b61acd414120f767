/** The bucket index of `src/index.rs` as values: its data model and the meaning of every operation. */
module BucketModel {
  import opened Basics
  import opened Search
  import opened ByteOrder
  import opened Text

  const MAX_USER_METADATA_ENTRIES := 64
  const MAX_USER_METADATA_LEN := 2048
  const MAX_LIFECYCLE_RULES := 64

  datatype ObjectMeta = ObjectMeta(
    cid: string,
    size: u64,
    etag: string,
    contentType: string,
    lastModified: u64,
    versionId: string,
    metadata: map<Str, Str>,
    cacheControl: Option<string>,
    contentDisposition: Option<string>,
    contentEncoding: Option<string>)

  /** `ObjectMeta::new`: the ETag and the version id are the content id. */
  function NewMeta(cid: string, size: u64, contentType: string, now: u64): ObjectMeta {
    ObjectMeta(cid, size, cid, contentType, now, cid, map[], None, None, None)
  }

  /** Everything `ObjectMeta::new` sets, field by field. */
  lemma NewMetaFields(cid: string, size: u64, contentType: string, now: u64)
    ensures var meta := NewMeta(cid, size, contentType, now);
            meta.cid == meta.etag == meta.versionId == cid && meta.size == size
            && meta.contentType == contentType && meta.lastModified == now && meta.metadata == map[]
            && meta.cacheControl == meta.contentDisposition == meta.contentEncoding == None
  {
  }

  datatype ObjectVersion = ObjectVersion(meta: ObjectMeta, isDeleteMarker: bool)

  /** The history of one key, newest last. */
  datatype ObjectEntry = ObjectEntry(versions: seq<ObjectVersion>)

  datatype LifecycleRule = LifecycleRule(prefix: Str, expirationSecs: u64)

  datatype Bucket = Bucket(
    created: u64,
    versioning: bool,
    lifecycle: seq<LifecycleRule>,
    objects: map<Str, ObjectEntry>)

  type Buckets = map<Str, Bucket>

  datatype Error =
    | InvalidBucketName | InvalidKey | InvalidMetadata | InvalidLifecycle
    | BucketExists | BucketNotEmpty
    | NoSuchBucket | NoSuchKey | NoSuchVersion | IsMarker
    | PreconditionFailed

  // ---- validators ----

  predicate ValidKey(key: Str) {
    key != [] && |key| <= 1024 && 0 !in key
  }

  predicate ValidMetadata(m: map<Str, Str>) {
    |m| <= MAX_USER_METADATA_ENTRIES
    && forall k :: k in m ==>
      k != [] && |k| <= MAX_USER_METADATA_LEN && |m[k]| <= MAX_USER_METADATA_LEN && 0 !in k && 0 !in m[k]
  }

  predicate ValidLifecycle(rules: seq<LifecycleRule>) {
    |rules| <= MAX_LIFECYCLE_RULES
    && forall i :: 0 <= i < |rules| ==> |rules[i].prefix| <= 1024 && 0 !in rules[i].prefix
  }

  predicate BucketNameByte(c: u8) {
    'a' as int <= c <= 'z' as int || '0' as int <= c <= '9' as int || c == '-' as int || c == '.' as int
  }

  predicate ValidBucketName(name: Str) {
    3 <= |name| <= 63
    && name[0] != '-' as int && name[0] != '.' as int
    && name[|name| - 1] != '-' as int && name[|name| - 1] != '.' as int
    && forall i :: 0 <= i < |name| ==> BucketNameByte(name[i])
  }

  /** User metadata is refused when it has a 65th entry, an empty key, a key or value of more than 2048 bytes, or a
      zero byte anywhere. */
  lemma MetadataLimits(m: map<Str, Str>)
    ensures !ValidMetadata(m) <==>
            |m| >= 65
            || exists k :: k in m && (|k| == 0 || |k| > 2048 || |m[k]| > 2048
                                      || (exists i :: 0 <= i < |k + m[k]| && (k + m[k])[i] == 0))
  {
    forall k | k in m ensures (exists i :: 0 <= i < |k + m[k]| && (k + m[k])[i] == 0) <==> 0 in k || 0 in m[k] {
      ZeroIn(k, m[k]);
    }
  }

  lemma ZeroIn(a: Str, b: Str)
    ensures (exists i :: 0 <= i < |a + b| && (a + b)[i] == 0) <==> 0 in a || 0 in b
  {
    forall i | 0 <= i < |a + b| && (a + b)[i] == 0 ensures 0 in a || 0 in b {
      assert i < |a| ==> a[i] == 0;
      assert i >= |a| ==> b[i - |a|] == 0;
    }
    if 0 in a {
      var i :| 0 <= i < |a| && a[i] == 0;
      assert (a + b)[i] == 0;
    }
    if 0 in b {
      var i :| 0 <= i < |b| && b[i] == 0;
      assert (a + b)[|a| + i] == 0;
    }
  }

  /** A key is refused when it is empty, when a byte follows its first 1024, or when it splits at a zero byte. */
  lemma KeyLimits(key: Str)
    ensures !ValidKey(key) <==>
            key == [] || 1025 <= |key| || exists before, after :: key == before + [0] + after
  {
    if 0 in key {
      var i :| 0 <= i < |key| && key[i] == 0;
      assert key == key[..i] + [0] + key[i + 1..];
    }
    forall before, after: Str | key == before + [0] + after ensures 0 in key {
      assert key[|before|] == 0;
    }
  }

  /** The rules are refused when there are more than 64, or when a prefix is one that no key could have. */
  lemma LifecycleLimits(rules: seq<LifecycleRule>)
    ensures !ValidLifecycle(rules) <==>
            65 <= |rules| || exists r :: r in rules && r.prefix != [] && !ValidKey(r.prefix)
  {
  }

  /** A name of the pattern `[a-z0-9][a-z0-9.-]{1,61}[a-z0-9]`, taken apart. */
  ghost predicate Spells(name: Str, first: u8, middle: Str, last: u8) {
    name == [first] + middle + [last] && AlphaNumeric(first) && AlphaNumeric(last) && 1 <= |middle| <= 61
    && forall i :: 0 <= i < |middle| ==> AlphaNumeric(middle[i]) || middle[i] == 45 || middle[i] == 46
  }

  lemma SpellsValid(name: Str, first: u8, middle: Str, last: u8)
    requires Spells(name, first, middle, last)
    ensures ValidBucketName(name)
  {
    hide BucketNameByte, AlphaNumeric;
    assert name[0] == first && name[|name| - 1] == last;
    AlphaNumericByte(first);
    AlphaNumericByte(last);
    forall i | 0 < i < |name| - 1 ensures BucketNameByte(name[i]) {
      assert name[i] == middle[i - 1];
      AlphaNumericByte(name[i]);
    }
  }

  lemma ValidSpells(name: Str)
    requires ValidBucketName(name)
    ensures Spells(name, name[0], name[1..|name| - 1], name[|name| - 1])
  {
    hide BucketNameByte, AlphaNumeric;
    forall i | 0 <= i < |name| ensures AlphaNumeric(name[i]) || name[i] == 45 || name[i] == 46 {
      AlphaNumericByte(name[i]);
    }
    AlphaNumericByte(name[0]);
    AlphaNumericByte(name[|name| - 1]);
    assert name == [name[0]] + name[1..|name| - 1] + [name[|name| - 1]];
  }

  /** The bucket names are those of that pattern. */
  lemma BucketNamePattern(name: Str)
    ensures ValidBucketName(name) <==> exists first, middle, last :: Spells(name, first, middle, last)
  {
    hide ValidBucketName, Spells;
    if ValidBucketName(name) {
      LongEnough(name);
      ValidSpells(name);
    }
    forall first, middle, last | Spells(name, first, middle, last) ensures ValidBucketName(name) {
      SpellsValid(name, first, middle, last);
    }
  }

  lemma LongEnough(name: Str)
    ensures ValidBucketName(name) ==> 3 <= |name|
  {
  }

  lemma AlphaNumericByte(c: u8)
    ensures BucketNameByte(c) <==> AlphaNumeric(c) || c == 45 || c == 46
    ensures AlphaNumeric(c) <==> BucketNameByte(c) && c != '-' as int && c != '.' as int
  {
  }

  /** An ASCII digit or lower-case letter. */
  predicate AlphaNumeric(c: u8) {
    48 <= c <= 57 || 97 <= c <= 122
  }

  // ---- queries ----

  function Current(e: ObjectEntry): Option<ObjectVersion> {
    if e.versions == [] then None else Some(e.versions[|e.versions| - 1])
  }

  /** `versions.iter().rev().find(..)`: the newest version with this id. */
  function ByVersion(versions: seq<ObjectVersion>, id: string): Option<ObjectVersion> {
    if versions == [] then None
    else if versions[|versions| - 1].meta.versionId == id then Some(versions[|versions| - 1])
    else ByVersion(versions[..|versions| - 1], id)
  }

  function Entry(bs: Buckets, bucket: Str, key: Str): Result<ObjectEntry, Error> {
    if bucket !in bs then Err(NoSuchBucket)
    else if key !in bs[bucket].objects then Err(NoSuchKey)
    else Ok(bs[bucket].objects[key])
  }

  function Head(bs: Buckets, bucket: Str, key: Str): Result<ObjectMeta, Error> {
    match Entry(bs, bucket, key)
    case Err(e) => Err(e)
    case Ok(entry) =>
      match Current(entry)
      case None => Err(NoSuchKey)
      case Some(v) => if v.isDeleteMarker then Err(NoSuchKey) else Ok(v.meta)
  }

  function HeadVersion(bs: Buckets, bucket: Str, key: Str, id: string): Result<ObjectMeta, Error> {
    match Entry(bs, bucket, key)
    case Err(e) => Err(e)
    case Ok(entry) =>
      match ByVersion(entry.versions, id)
      case None => Err(NoSuchVersion)
      case Some(v) => if v.isDeleteMarker then Err(IsMarker) else Ok(v.meta)
  }

  /** The non-marker versions, newest first. */
  function LiveMetas(versions: seq<ObjectVersion>): seq<ObjectMeta> {
    if versions == [] then []
    else
      var last := versions[|versions| - 1];
      (if last.isDeleteMarker then [] else [last.meta]) + LiveMetas(versions[..|versions| - 1])
  }

  function ListVersions(bs: Buckets, bucket: Str, key: Str): Result<seq<ObjectMeta>, Error> {
    match Entry(bs, bucket, key)
    case Err(e) => Err(e)
    case Ok(entry) => Ok(LiveMetas(entry.versions))
  }

  /** The current version of `k` exists and is not a delete marker. */
  predicate Visible(objects: map<Str, ObjectEntry>, k: Str) {
    k in objects && Current(objects[k]).Some? && !Current(objects[k]).value.isDeleteMarker
  }

  // ---- lifecycle rules ----

  predicate Matches(rule: LifecycleRule, key: Str) {
    rule.prefix == [] || StartsWith(key, rule.prefix)
  }

  predicate RuleExpires(rule: LifecycleRule, lastModified: u64, now: u64) {
    rule.expirationSecs != 0 && now >= SaturatingAdd(lastModified, rule.expirationSecs)
  }

  function FirstMatch(rules: seq<LifecycleRule>, key: Str): Option<LifecycleRule> {
    if rules == [] then None
    else if Matches(rules[0], key) then Some(rules[0])
    else FirstMatch(rules[1..], key)
  }

  lemma MatchesExactly(rule: LifecycleRule, key: Str)
    ensures Matches(rule, key) <==> exists rest :: key == rule.prefix + rest
  {
    StartsWithExactly(key, rule.prefix);
    if rule.prefix == [] { assert key == [] + key; }
  }

  /** A rule of zero seconds never expires; another does once that long has passed, or at the end of time. */
  lemma RuleExpiresExactly(rule: LifecycleRule, lastModified: u64, now: u64)
    ensures RuleExpires(rule, lastModified, now) <==>
            rule.expirationSecs > 0
            && (lastModified + rule.expirationSecs <= now || now == U64_LIMIT - 1)
  {
  }

  /** Rule `i` is the first that matches the key. */
  ghost predicate DecidedBy(rules: seq<LifecycleRule>, key: Str, i: nat) {
    i < |rules| && Matches(rules[i], key) && forall j :: 0 <= j < i ==> !Matches(rules[j], key)
  }

  /** The first matching rule decides, and none only if none matches. */
  lemma {:induction false} FirstMatchExactly(rules: seq<LifecycleRule>, key: Str)
    ensures forall i: nat :: DecidedBy(rules, key, i) ==> FirstMatch(rules, key) == Some(rules[i])
    ensures FirstMatch(rules, key) == None <==> forall i :: 0 <= i < |rules| ==> !Matches(rules[i], key)
    ensures FirstMatch(rules, key).Some? ==> exists i: nat :: DecidedBy(rules, key, i)
    decreases |rules|
  {
    hide Matches;
    if rules != [] {
      var rest := rules[1..];
      assert forall i :: 0 <= i < |rest| ==> rest[i] == rules[i + 1];
      FirstMatchExactly(rest, key);
      if Matches(rules[0], key) {
        assert DecidedBy(rules, key, 0);
      } else {
        forall i: nat | DecidedBy(rules, key, i) ensures FirstMatch(rules, key) == Some(rules[i]) {
          assert DecidedBy(rest, key, i - 1);
        }
        if FirstMatch(rest, key).Some? {
          var i: nat :| DecidedBy(rest, key, i);
          assert DecidedBy(rules, key, i + 1);
        }
        assert forall i :: 0 < i < |rules| ==> rules[i] == rest[i - 1];
      }
    }
  }

  predicate Expired(b: Bucket, key: Str, now: u64) {
    Visible(b.objects, key)
    && FirstMatch(b.lifecycle, key).Some?
    && RuleExpires(FirstMatch(b.lifecycle, key).value, Current(b.objects[key]).value.meta.lastModified, now)
  }

  /** The expired keys of a bucket, sorted. */
  function ExpiredKeys(b: Bucket, now: u64): seq<Str> {
    SortedKeys(set k | k in b.objects && Expired(b, k, now))
  }

  /** Exactly which keys of a bucket are reported: those with a live current version whose first matching rule
      has run out. */
  lemma ExpiredKeysExactly(b: Bucket, now: u64, key: Str)
    ensures key in ExpiredKeys(b, now) <==>
            Visible(b.objects, key)
            && exists i: nat ::
              DecidedBy(b.lifecycle, key, i)
              && RuleExpires(b.lifecycle[i], Current(b.objects[key]).value.meta.lastModified, now)
    ensures Sorted(ExpiredKeys(b, now))
  {
    hide FirstMatch, Matches, RuleExpires;
    FirstMatchExactly(b.lifecycle, key);
    if FirstMatch(b.lifecycle, key).Some? {
      var i: nat :| DecidedBy(b.lifecycle, key, i);
    }
  }

  // ---- mutations, on values ----

  function MakeBucket(bs: Buckets, name: Str, now: u64): Result<Buckets, Error> {
    if !ValidBucketName(name) then Err(InvalidBucketName)
    else if name in bs then Err(BucketExists)
    else Ok(bs[name := Bucket(now, false, [], map[])])
  }

  function RemoveBucket(bs: Buckets, name: Str, force: bool): Result<Buckets, Error> {
    if name !in bs then Err(NoSuchBucket)
    else if !force && bs[name].objects != map[] then Err(BucketNotEmpty)
    else Ok(bs - {name})
  }

  function SetVersioning(bs: Buckets, name: Str, enabled: bool): Result<Buckets, Error> {
    if name !in bs then Err(NoSuchBucket) else Ok(bs[name := bs[name].(versioning := enabled)])
  }

  function SetLifecycle(bs: Buckets, name: Str, rules: seq<LifecycleRule>): Result<Buckets, Error> {
    if !ValidLifecycle(rules) then Err(InvalidLifecycle)
    else if name !in bs then Err(NoSuchBucket)
    else Ok(bs[name := bs[name].(lifecycle := rules)])
  }

  function Versions(b: Bucket, key: Str): seq<ObjectVersion> {
    if key in b.objects then b.objects[key].versions else []
  }

  function PutIn(b: Bucket, key: Str, meta: ObjectMeta): Bucket {
    var v := ObjectVersion(meta, false);
    b.(objects := b.objects[key := ObjectEntry(if b.versioning then Versions(b, key) + [v] else [v])])
  }

  function Put(bs: Buckets, bucket: Str, key: Str, meta: ObjectMeta): Result<Buckets, Error> {
    if !ValidKey(key) then Err(InvalidKey)
    else if !ValidMetadata(meta.metadata) then Err(InvalidMetadata)
    else if bucket !in bs then Err(NoSuchBucket)
    else Ok(bs[bucket := PutIn(bs[bucket], key, meta)])
  }

  /** The version id of a delete marker written at `now`. */
  function MarkerId(now: u64): string {
    "delete-marker-" + Decimal(now)
  }

  function Marker(now: u64): ObjectVersion {
    ObjectVersion(NewMeta("", 0, "", now).(versionId := MarkerId(now)), true)
  }

  function DeleteIn(b: Bucket, key: Str, now: u64): Bucket {
    if !b.versioning then b.(objects := b.objects - {key})
    else if Visible(b.objects, key) then
      b.(objects := b.objects[key := ObjectEntry(b.objects[key].versions + [Marker(now)])])
    else b
  }

  function Delete(bs: Buckets, bucket: Str, key: Str, now: u64): Result<Buckets, Error> {
    if bucket !in bs then Err(NoSuchBucket) else Ok(bs[bucket := DeleteIn(bs[bucket], key, now)])
  }

  /** `retain(|v| v.meta.version_id != id)`. */
  function Without(versions: seq<ObjectVersion>, id: string): seq<ObjectVersion> {
    if versions == [] then []
    else
      var rest := Without(versions[..|versions| - 1], id);
      if versions[|versions| - 1].meta.versionId == id then rest else rest + [versions[|versions| - 1]]
  }

  function DeleteVersionIn(b: Bucket, key: Str, id: string): Bucket {
    if key !in b.objects then b
    else
      var kept := Without(b.objects[key].versions, id);
      b.(objects := if kept == [] then b.objects - {key} else b.objects[key := ObjectEntry(kept)])
  }

  function DeleteVersion(bs: Buckets, bucket: Str, key: Str, id: string): Result<Buckets, Error> {
    if bucket !in bs then Err(NoSuchBucket) else Ok(bs[bucket := DeleteVersionIn(bs[bucket], key, id)])
  }

  function Copy(bs: Buckets, srcBucket: Str, srcKey: Str, dstBucket: Str, dstKey: Str, now: u64)
    : Result<Buckets, Error>
  {
    match Head(bs, srcBucket, srcKey)
    case Err(e) => Err(e)
    case Ok(meta) => Put(bs, dstBucket, dstKey, meta.(lastModified := now))
  }

  /** Deleting keys one after another. */
  function DeleteKeys(b: Bucket, keys: seq<Str>, now: u64): Bucket {
    if keys == [] then b else DeleteIn(DeleteKeys(b, keys[..|keys| - 1], now), keys[|keys| - 1], now)
  }

  /** The bucket after a lifecycle sweep. */
  function SweepIn(b: Bucket, now: u64): Bucket {
    DeleteKeys(b, ExpiredKeys(b, now), now)
  }

  /** Every bucket among `done` swept, the others untouched. */
  function Swept(bs: Buckets, done: seq<Str>, now: u64): Buckets {
    map b | b in bs :: if b in done then SweepIn(bs[b], now) else bs[b]
  }

  /** What the sweep of the buckets among `done` reports: the expired keys, where there are any. */
  function SweepReport(bs: Buckets, done: seq<Str>, now: u64): map<Str, seq<Str>> {
    map b | b in bs && b in done && ExpiredKeys(bs[b], now) != [] :: ExpiredKeys(bs[b], now)
  }

  lemma SweptNext(bs: Buckets, done: seq<Str>, b: Str, now: u64)
    requires b in bs && b !in done
    ensures Swept(bs, done, now)[b] == bs[b]
    ensures Swept(bs, done + [b], now) == Swept(bs, done, now)[b := SweepIn(bs[b], now)]
    ensures ExpiredKeys(bs[b], now) == [] ==> Swept(bs, done + [b], now) == Swept(bs, done, now)
    ensures SweepReport(bs, done + [b], now) ==
            if ExpiredKeys(bs[b], now) == [] then SweepReport(bs, done, now)
            else SweepReport(bs, done, now)[b := ExpiredKeys(bs[b], now)]
  {
    hide ExpiredKeys, SweepIn, DeleteKeys;
    SweepIdle(bs[b], now);
  }

  lemma SweepIdle(b: Bucket, now: u64)
    ensures ExpiredKeys(b, now) == [] ==> SweepIn(b, now) == b
  {
  }

  /** A mutating method follows its value-level meaning: it commits the new value or changes nothing. */
  ghost predicate Outcome(before: Buckets, meaning: Result<Buckets, Error>, r: Result<Unit, Error>, after: Buckets) {
    match meaning
    case Ok(v) => r == Ok(Unit) && after == v
    case Err(e) => r == Err(e) && after == before
  }
}
