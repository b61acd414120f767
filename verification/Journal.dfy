/** The sequential meaning of the two files a store commits to: the bucket index and the table of
    multipart uploads. A log lists the commits in order; replaying it is the single-user store that the
    locking protocol is measured against. */
module Journal {
  import opened Basics
  import opened Division
  import opened BucketModel
  import opened Mutations
  import opened History
  import opened Manifests
  import opened Multipart
  import opened Uploading

  datatype World = World(index: Buckets, uploads: Uploads)

  const Nothing := World(map[], map[])

  /** One commit to one of the files. */
  datatype Event =
    | Verbed(m: Mutation)
    | Bound(id: string, list: PartList, now: u64, m: Mutation)
    | Created(id: string, upload: Upload)
    | PartPut(id: string, num: u32, bytes: Bytes)
    | Finished(id: string)
    | Aborted(id: string)

  /** The put that completing an upload performs, when the part list is acceptable. */
  function CompletionPut(codec: Codec, upload: Upload, list: PartList, now: u64): Option<Mutation> {
    match Assemble(upload, list)
    case None => None
    case Some(manifest) =>
      var cid := codec.cid(codec.encode(manifest));
      var meta := NewMeta(cid, manifest.totalSize, upload.contentType, now).(metadata := upload.metadata);
      Some(PutM(upload.bucket, upload.key, meta, NoPreconditions))
  }

  /** A record as `create_multipart_upload` makes it. */
  predicate FreshUpload(upload: Upload) {
    upload.parts == map[] && upload.partChunk == DEFAULT_PART_CHUNK
  }

  /** What a commit does to the files, where it could have succeeded. */
  function Effect(codec: Codec, e: Event, w: World): Option<World> {
    match e
    case Verbed(m) =>
      if Apply(m, w.index).Ok? then Some(w.(index := After(m, w.index))) else None
    case Bound(id, list, now, m) =>
      if id in w.uploads && CompletionPut(codec, w.uploads[id], list, now) == Some(m) && Apply(m, w.index).Ok?
      then Some(w.(index := After(m, w.index))) else None
    case Created(id, upload) =>
      if id !in w.uploads && upload.bucket in w.index && FreshUpload(upload)
         && Multipart.Create(w.uploads, id, upload).Ok?
      then Some(w.(uploads := Multipart.Create(w.uploads, id, upload).value)) else None
    case PartPut(id, num, bytes) =>
      if |bytes| < U64_LIMIT && Multipart.PutPart(w.uploads, id, PartOf(codec, num, bytes, DEFAULT_PART_CHUNK)).Ok?
      then Some(w.(uploads := Multipart.PutPart(w.uploads, id, PartOf(codec, num, bytes, DEFAULT_PART_CHUNK)).value))
      else None
    case Finished(id) => Some(w.(uploads := Multipart.Remove(w.uploads, id)))
    case Aborted(id) => Some(w.(uploads := Multipart.Remove(w.uploads, id)))
  }

  /** The files after a log of commits, each of which succeeded where it happened. */
  function Replay(codec: Codec, log: seq<Event>): Option<World> {
    if log == [] then Some(Nothing)
    else
      match Replay(codec, log[..|log| - 1])
      case None => None
      case Some(w) => Effect(codec, log[|log| - 1], w)
  }

  lemma ReplayNext(codec: Codec, log: seq<Event>, e: Event)
    requires Replay(codec, log).Some?
    ensures Replay(codec, log + [e]) == Effect(codec, e, Replay(codec, log).value)
  {
    assert (log + [e])[..|log|] == log;
  }

  lemma {:induction false} ReplayPrefix(codec: Codec, log: seq<Event>, i: nat)
    requires Replay(codec, log).Some? && i <= |log|
    ensures Replay(codec, log[..i]).Some?
    ensures i < |log| ==>
              Replay(codec, log[..i + 1]).Some?
              && Effect(codec, log[i], Replay(codec, log[..i]).value) == Replay(codec, log[..i + 1])
    decreases |log|
  {
    if i == |log| {
      assert log[..i] == log;
    } else if i == |log| - 1 {
      assert log[..i + 1] == log;
    } else {
      var front := log[..|log| - 1];
      ReplayPrefix(codec, front, i);
      assert front[..i] == log[..i] && front[..i + 1] == log[..i + 1];
    }
  }

  /** The files after the first `i` commits. */
  function WorldAt(codec: Codec, log: seq<Event>, i: nat): (w: World)
    requires Replay(codec, log).Some? && i <= |log|
    ensures Replay(codec, log[..i]) == Some(w)
    ensures i < |log| ==> Effect(codec, log[i], w).Some? && Replay(codec, log[..i + 1]) == Effect(codec, log[i], w)
  {
    ReplayPrefix(codec, log, i);
    Replay(codec, log[..i]).value
  }

  // ---- the index history inside a log ----

  function Verbs(log: seq<Event>): seq<Mutation> {
    if log == [] then []
    else
      var e := log[|log| - 1];
      Verbs(log[..|log| - 1]) + (if e.Verbed? || e.Bound? then [e.m] else [])
  }

  lemma CommittedNext(h: seq<Mutation>, m: Mutation)
    requires Committed(h) && Apply(m, Fold(h)).Ok?
    ensures Committed(h + [m]) && Fold(h + [m]) == After(m, Fold(h))
  {
    hide Apply, After;
    var next := h + [m];
    assert next[..|h|] == h;
    forall i | 0 <= i < |next| ensures Apply(next[i], Fold(next[..i])).Ok? {
      if i < |h| { assert next[..i] == h[..i]; }
    }
  }

  /** The index file is the fold of the committed verbs, in commit order, each successful in its turn. */
  lemma {:induction false} IndexIsFold(codec: Codec, log: seq<Event>)
    requires Replay(codec, log).Some?
    ensures Replay(codec, log).value.index == Fold(Verbs(log))
    ensures Committed(Verbs(log))
  {
    hide Apply, After, Committed;
    if log == [] {
      NothingCommitted();
    } else {
      var front, e := log[..|log| - 1], log[|log| - 1];
      IndexIsFold(codec, front);
      if e.Verbed? || e.Bound? {
        CommittedNext(Verbs(front), e.m);
      } else {
        assert Verbs(log) == Verbs(front);
      }
    }
  }

  lemma NothingCommitted()
    ensures Committed([]) && Fold([]) == map[]
  {
  }

  // ---- where parts come from ----

  /** Commit `j` put this part, and nothing has replaced it since. */
  ghost predicate LastPut(codec: Codec, log: seq<Event>, j: nat, id: string, num: u32, part: Part) {
    j < |log| && PutsPart(log[j], id, num)
    && |log[j].bytes| < U64_LIMIT && part == PartOf(codec, num, log[j].bytes, DEFAULT_PART_CHUNK)
    && forall k :: j < k < |log| ==> !PutsPart(log[k], id, num)
  }

  predicate PutsPart(e: Event, id: string, num: u32) {
    e.PartPut? && e.id == id && e.num == num
  }

  lemma LastPutKept(codec: Codec, log: seq<Event>, j: nat, id: string, num: u32, part: Part)
    requires log != [] && LastPut(codec, log[..|log| - 1], j, id, num, part) && !PutsPart(log[|log| - 1], id, num)
    ensures LastPut(codec, log, j, id, num, part)
  {
    forall k | j < k < |log| ensures !PutsPart(log[k], id, num) {
      if k < |log| - 1 { assert log[..|log| - 1][k] == log[k]; }
    }
  }

  /** What one commit may do to a part: put it, or leave it. */
  lemma EffectOnPart(codec: Codec, e: Event, w: World, id: string, num: u32)
    requires Effect(codec, e, w).Some?
    requires var after := Effect(codec, e, w).value; id in after.uploads && num in after.uploads[id].parts
    ensures var after := Effect(codec, e, w).value;
            if PutsPart(e, id, num)
            then |e.bytes| < U64_LIMIT
                 && after.uploads[id].parts[num] == PartOf(codec, num, e.bytes, DEFAULT_PART_CHUNK)
            else id in w.uploads && num in w.uploads[id].parts
                 && after.uploads[id].parts[num] == w.uploads[id].parts[num]
  {
    hide Apply, After, PartEtag, Chunks, Cids, CompletionPut;
  }

  /** Every part in the table was put by some commit, the last one for its upload and number. */
  lemma {:induction false} PartFromLog(codec: Codec, log: seq<Event>, id: string, num: u32) returns (j: nat)
    requires Replay(codec, log).Some? && id in Replay(codec, log).value.uploads
    requires num in Replay(codec, log).value.uploads[id].parts
    ensures LastPut(codec, log, j, id, num, Replay(codec, log).value.uploads[id].parts[num])
  {
    hide Effect, PartOf, LastPut;
    var front, e := log[..|log| - 1], log[|log| - 1];
    EffectOnPart(codec, e, Replay(codec, front).value, id, num);
    if PutsPart(e, id, num) {
      j := |log| - 1;
      LastPutHere(codec, log, id, num);
    } else {
      j := PartFromLog(codec, front, id, num);
      LastPutKept(codec, log, j, id, num, Replay(codec, log).value.uploads[id].parts[num]);
    }
  }

  lemma LastPutHere(codec: Codec, log: seq<Event>, id: string, num: u32)
    requires log != [] && PutsPart(log[|log| - 1], id, num) && |log[|log| - 1].bytes| < U64_LIMIT
    ensures LastPut(codec, log, |log| - 1, id, num, PartOf(codec, num, log[|log| - 1].bytes, DEFAULT_PART_CHUNK))
  {
  }

  /** Every record keeps the chunk size it was created with. */
  lemma {:induction false} RecordShape(codec: Codec, log: seq<Event>, id: string)
    requires Replay(codec, log).Some? && id in Replay(codec, log).value.uploads
    ensures Replay(codec, log).value.uploads[id].partChunk == DEFAULT_PART_CHUNK
  {
    hide Apply, After, CompletionPut, PartOf;
    var front, e := log[..|log| - 1], log[|log| - 1];
    if id in Replay(codec, front).value.uploads { RecordShape(codec, front, id); }
  }

  /** The table's bounds hold after every log: sound parts, and no more uploads than the cap. */
  lemma {:induction false} TableBounds(codec: Codec, log: seq<Event>)
    requires Replay(codec, log).Some?
    ensures Bounded(Replay(codec, log).value.uploads)
  {
    hide PartsSound, Effect;
    if log != [] {
      var front, e := log[..|log| - 1], log[|log| - 1];
      TableBounds(codec, front);
      EffectBounds(codec, e, Replay(codec, front).value);
    }
  }

  ghost predicate Bounded(ups: Uploads) {
    |ups| <= MAX_INFLIGHT_UPLOADS && forall id :: id in ups ==> PartsSound(ups[id])
  }

  lemma EffectBounds(codec: Codec, e: Event, w: World)
    requires Effect(codec, e, w).Some? && Bounded(w.uploads)
    ensures Bounded(Effect(codec, e, w).value.uploads)
  {
    hide Apply, After, CompletionPut, PartOf, Bounded, Multipart.Create, Multipart.PutPart, Multipart.Remove;
    match e
    case Verbed(_) =>
    case Bound(_, _, _, _) =>
    case Created(id, upload) => CreateBounds(w.uploads, id, upload);
    case PartPut(id, num, bytes) => PutPartBounds(w.uploads, id, PartOf(codec, num, bytes, DEFAULT_PART_CHUNK));
    case Finished(id) => RemoveBounds(w.uploads, id);
    case Aborted(id) => RemoveBounds(w.uploads, id);
  }

  lemma CreateBounds(ups: Uploads, id: string, upload: Upload)
    requires Bounded(ups) && FreshUpload(upload) && Multipart.Create(ups, id, upload).Ok?
    ensures Bounded(Multipart.Create(ups, id, upload).value)
  {
    hide PartsSound;
    assert ups[id := upload].Keys == ups.Keys + {id};
    NewPartsSound(upload);
  }

  lemma PutPartBounds(ups: Uploads, id: string, part: Part)
    requires Bounded(ups) && Multipart.PutPart(ups, id, part).Ok?
    ensures Bounded(Multipart.PutPart(ups, id, part).value)
  {
    hide PartsSound;
    assert Multipart.PutPart(ups, id, part).value.Keys == ups.Keys;
    OnePartSound(ups[id], part);
  }

  lemma RemoveBounds(ups: Uploads, id: string)
    requires Bounded(ups)
    ensures Bounded(Multipart.Remove(ups, id))
  {
    hide PartsSound;
    RemoveShrinks(ups, id);
  }

  lemma RemoveShrinks(ups: Uploads, id: string)
    ensures |Multipart.Remove(ups, id)| <= |ups|
  {
    assert ups.Keys >= Multipart.Remove(ups, id).Keys;
    SubsetSmaller(Multipart.Remove(ups, id).Keys, ups.Keys);
  }

  lemma SubsetSmaller(a: set<string>, b: set<string>)
    requires a <= b
    ensures |a| <= |b|
  {
    assert b == a + (b - a);
  }

  lemma NewPartsSound(upload: Upload)
    requires FreshUpload(upload)
    ensures PartsSound(upload)
  {
  }

  lemma OnePartSound(upload: Upload, part: Part)
    requires PartsSound(upload) && 1 <= part.partNumber <= MAX_PARTS && 0 < part.size
    ensures PartsSound(upload.(parts := upload.parts[part.partNumber := part]))
  {
  }

  // ---- etags pin content ----

  lemma CitedParts(codec: Codec, log: seq<Event>, id: string, list: PartList) returns (puts: seq<nat>)
    requires Replay(codec, log).Some? && id in Replay(codec, log).value.uploads
    requires AllCited(Replay(codec, log).value.uploads[id], list)
    ensures |puts| == |list|
    ensures var parts := Replay(codec, log).value.uploads[id].parts;
            forall x :: 0 <= x < |list| ==> LastPut(codec, log, puts[x], id, list[x].0, parts[list[x].0])
  {
    hide Replay, LastPut;
    puts := [];
    while |puts| < |list|
      invariant |puts| <= |list|
      invariant var parts := Replay(codec, log).value.uploads[id].parts;
                forall x :: 0 <= x < |puts| ==> LastPut(codec, log, puts[x], id, list[x].0, parts[list[x].0])
    {
      var j := PartFromLog(codec, log, id, list[|puts|].0);
      puts := puts + [j];
    }
  }

  /** Commit `put` uploaded `bytes` as the part that `entry` cites, by its ETag, and no later commit of the
      log replaced that part. */
  ghost predicate Supplies(codec: Codec, log: seq<Event>, put: nat, id: string, entry: (u32, string), bytes: Bytes) {
    put < |log| && PutsPart(log[put], id, entry.0) && log[put].bytes == bytes && |bytes| < U64_LIMIT
    && PartEtag(codec, bytes, DEFAULT_PART_CHUNK) == entry.1
    && forall k :: put < k < |log| ==> !PutsPart(log[k], id, entry.0)
  }

  /** An acceptable list names, through its ETags, the bytes whose concatenation is assembled. */
  lemma CompletionContents(codec: Codec, log: seq<Event>, id: string, list: PartList)
    returns (puts: seq<nat>, contents: seq<Bytes>)
    requires Replay(codec, log).Some? && id in Replay(codec, log).value.uploads
    requires Assemble(Replay(codec, log).value.uploads[id], list).Some?
    ensures |puts| == |contents| == |list|
    ensures forall x :: 0 <= x < |list| ==> Supplies(codec, log, puts[x], id, list[x], contents[x])
    ensures forall x :: 0 <= x < |list| - 1 ==> |contents[x]| % DEFAULT_PART_CHUNK == 0
    ensures |Join(contents)| < U64_LIMIT
    ensures Assemble(Replay(codec, log).value.uploads[id], list)
         == Some(ManifestOf(codec, Join(contents), DEFAULT_PART_CHUNK))
  {
    hide Replay, ManifestOf, Join, Named, TotalSize, PartEtag, Chunks, Cids;
    var upload := Replay(codec, log).value.uploads[id];
    RecordShape(codec, log, id);
    puts := CitedParts(codec, log, id, list);
    contents := [];
    while |contents| < |list|
      invariant |contents| <= |list|
      invariant forall x :: 0 <= x < |contents| ==> Supplies(codec, log, puts[x], id, list[x], contents[x])
      invariant forall x :: 0 <= x < |contents| ==>
                  upload.parts[list[x].0] == PartOf(codec, list[x].0, contents[x], DEFAULT_PART_CHUNK)
    {
      var x := |contents|;
      assert LastPut(codec, log, puts[x], id, list[x].0, upload.parts[list[x].0]);
      contents := contents + [log[puts[x]].bytes];
    }
    forall x | 0 <= x < |list| - 1 ensures |contents[x]| % DEFAULT_PART_CHUNK == 0 {
      assert upload.parts[list[x].0].size % upload.partChunk == 0;
    }
    AssembledIsSinglePut(codec, upload, list, contents);
  }

  /** A committed completion bound exactly the concatenation of the bytes whose uploads, as the cited part
      numbers, returned the cited ETags; any upload that returned a cited ETag was of those same bytes. */
  lemma CompletionPins(codec: Codec, log: seq<Event>, i: nat) returns (puts: seq<nat>, contents: seq<Bytes>)
    requires codec.Lawful() && Replay(codec, log).Some? && i < |log| && log[i].Bound?
    ensures |puts| == |contents| == |log[i].list| && |Join(contents)| < U64_LIMIT
    ensures forall x :: 0 <= x < |contents| ==>
              Supplies(codec, log[..i], puts[x], log[i].id, log[i].list[x], contents[x])
    ensures forall x, bytes: Bytes :: 0 <= x < |contents| && |bytes| < U64_LIMIT ==>
              PartEtag(codec, bytes, DEFAULT_PART_CHUNK) == log[i].list[x].1 ==> bytes == contents[x]
    ensures var upload := WorldAt(codec, log, i).uploads[log[i].id];
            var found := Head(WorldAt(codec, log, i + 1).index, upload.bucket, upload.key);
            found.Ok? && found.value.size == |Join(contents)|
            && found.value.cid == codec.cid(codec.encode(ManifestOf(codec, Join(contents), DEFAULT_PART_CHUNK)))
            && found.value.etag == found.value.versionId == found.value.cid && found.value.lastModified == log[i].now
            && found.value.contentType == upload.contentType && found.value.metadata == upload.metadata
            && found.value.cacheControl == found.value.contentDisposition == found.value.contentEncoding == None
  {
    hide Replay, ManifestOf, Join, PartEtag, Chunks, Cids, Assemble, After, Supplies;
    ReplayPrefix(codec, log, i);
    var w := Replay(codec, log[..i]).value;
    puts, contents := CompletionContents(codec, log[..i], log[i].id, log[i].list);
    SizeOfManifest(codec, Join(contents));
    BoundIsHead(log[i].m, w.index);
    forall x, bytes: Bytes | 0 <= x < |contents| && |bytes| < U64_LIMIT
      && PartEtag(codec, bytes, DEFAULT_PART_CHUNK) == log[i].list[x].1
      ensures bytes == contents[x]
    {
      SuppliesEtag(codec, log[..i], puts[x], log[i].id, log[i].list[x], contents[x]);
      EtagPinsPart(codec, bytes, contents[x], DEFAULT_PART_CHUNK);
    }
  }

  /** Completing twice with one list, as a retry after a crash between the two commits does, binds the same
      object both times, even if parts were uploaded again in between. */
  lemma SameListSameObject(codec: Codec, log: seq<Event>, i: nat, j: nat)
    requires codec.Lawful() && Replay(codec, log).Some? && i < |log| && j < |log|
    requires log[i].Bound? && log[j].Bound? && log[i].list == log[j].list
    ensures log[i].m.PutM? && log[j].m.PutM?
    ensures log[i].m.meta.cid == log[j].m.meta.cid && log[i].m.meta.size == log[j].m.meta.size
  {
    hide Replay, ManifestOf, Join, PartEtag, Chunks, Cids, Assemble, After, Apply, Supplies, Head;
    var putsI, contentsI := CompletionPins(codec, log, i);
    var putsJ, contentsJ := CompletionPins(codec, log, j);
    forall x | 0 <= x < |contentsI| ensures contentsI[x] == contentsJ[x] {
      SuppliesEtag(codec, log[..j], putsJ[x], log[j].id, log[j].list[x], contentsJ[x]);
    }
    assert contentsI == contentsJ;
    BoundIsHead(log[i].m, WorldAt(codec, log, i).index);
    BoundIsHead(log[j].m, WorldAt(codec, log, j).index);
  }

  lemma SuppliesEtag(codec: Codec, log: seq<Event>, put: nat, id: string, entry: (u32, string), bytes: Bytes)
    requires Supplies(codec, log, put, id, entry, bytes)
    ensures |bytes| < U64_LIMIT && PartEtag(codec, bytes, DEFAULT_PART_CHUNK) == entry.1
  {
  }

  lemma SizeOfManifest(codec: Codec, bytes: Bytes)
    requires |bytes| < U64_LIMIT
    ensures ManifestOf(codec, bytes, DEFAULT_PART_CHUNK).totalSize == |bytes|
  {
  }

  lemma BoundIsHead(m: Mutation, bs: Buckets)
    requires m.PutM? && Apply(m, bs).Ok?
    ensures Head(After(m, bs), m.bucket, m.key) == Ok(m.meta)
  {
  }

  // ---- what the log needs stored ----

  /** The content id names bytes of this size, with every blob they need stored. */
  ghost predicate Resolves(codec: Codec, blobs: Blobs, cid: string, size: u64) {
    exists bytes :: |bytes| == size && Stored(codec, blobs, cid, bytes)
  }

  /** The ETag and the version id are the content id. */
  predicate ContentNamed(meta: ObjectMeta) {
    meta.etag == meta.cid && meta.versionId == meta.cid
  }

  /** What a put names is stored. */
  ghost predicate VerbStored(codec: Codec, blobs: Blobs, m: Mutation) {
    m.PutM? ==> ContentNamed(m.meta) && Resolves(codec, blobs, m.meta.cid, m.meta.size)
  }

  ghost predicate EventStored(codec: Codec, blobs: Blobs, e: Event) {
    match e
    case Verbed(m) => VerbStored(codec, blobs, m)
    case Bound(_, _, _, m) => VerbStored(codec, blobs, m)
    case PartPut(_, _, bytes) =>
      |bytes| < U64_LIMIT
      && StoredByManifest(codec, blobs, PartEtag(codec, bytes, DEFAULT_PART_CHUNK), bytes, DEFAULT_PART_CHUNK)
    case _ => true
  }

  ghost predicate LogStored(codec: Codec, blobs: Blobs, log: seq<Event>) {
    forall i :: 0 <= i < |log| ==> EventStored(codec, blobs, log[i])
  }

  ghost predicate VersionResolves(codec: Codec, blobs: Blobs, v: ObjectVersion) {
    v.isDeleteMarker || Resolves(codec, blobs, v.meta.cid, v.meta.size)
  }

  lemma ResolvesTolerant(codec: Codec, blobs: Blobs)
    ensures Tolerant(v => VersionResolves(codec, blobs, v))
  {
  }

  /** Every live version that the replayed index names resolves to stored bytes of its recorded size. */
  lemma {:induction false} VersionsResolve(codec: Codec, blobs: Blobs, log: seq<Event>)
    requires Replay(codec, log).Some? && LogStored(codec, blobs, log)
    ensures AllVersions(Replay(codec, log).value.index, v => VersionResolves(codec, blobs, v))
  {
    hide Apply, After, Resolves, AllIn, CompletionPut, Tolerant;
    if log != [] {
      var front, e := log[..|log| - 1], log[|log| - 1];
      forall i | 0 <= i < |front| ensures EventStored(codec, blobs, front[i]) {
        assert front[i] == log[i];
      }
      VersionsResolve(codec, blobs, front);
      ResolvesTolerant(codec, blobs);
      if e.Verbed? || e.Bound? {
        assert EventStored(codec, blobs, e);
        VersionsKept(e.m, Replay(codec, front).value.index, v => VersionResolves(codec, blobs, v));
      }
    }
  }

  lemma ResolvesGrows(codec: Codec, a: Blobs, b: Blobs, cid: string, size: u64)
    requires Grows(a, b) && Resolves(codec, a, cid, size)
    ensures Resolves(codec, b, cid, size)
  {
    var bytes :| |bytes| == size && Stored(codec, a, cid, bytes);
    StoredGrows(codec, a, b, cid, bytes);
  }

  lemma LogStoredGrows(codec: Codec, a: Blobs, b: Blobs, log: seq<Event>)
    requires Grows(a, b) && LogStored(codec, a, log)
    ensures LogStored(codec, b, log)
  {
    hide Resolves, StoredByManifest, Grows, PartEtag;
    forall i | 0 <= i < |log| ensures EventStored(codec, b, log[i]) {
      assert EventStored(codec, a, log[i]);
      EventStoredGrows(codec, a, b, log[i]);
    }
  }

  lemma EventStoredGrows(codec: Codec, a: Blobs, b: Blobs, e: Event)
    requires Grows(a, b) && EventStored(codec, a, e)
    ensures EventStored(codec, b, e)
  {
    hide Resolves, Chunks, Cids, PartEtag;
    match e
    case Verbed(m) => if m.PutM? { ResolvesGrows(codec, a, b, m.meta.cid, m.meta.size); }
    case Bound(_, _, _, m) => if m.PutM? { ResolvesGrows(codec, a, b, m.meta.cid, m.meta.size); }
    case PartPut(_, _, bytes) => HoldsGrows(codec, a, b, Chunks(bytes, DEFAULT_PART_CHUNK));
    case _ =>
  }

  /** The chunks of a concatenation are stored when those of its pieces are. */
  lemma {:induction false} SpliceHeld(codec: Codec, blobs: Blobs, contents: seq<Bytes>, cs: nat)
    requires 0 < cs && forall i :: 0 <= i < |contents| - 1 ==> |contents[i]| % cs == 0
    requires forall i :: 0 <= i < |contents| ==> HoldsAll(codec, blobs, Chunks(contents[i], cs))
    ensures HoldsAll(codec, blobs, Chunks(Join(contents), cs))
    ensures (forall i :: 0 <= i < |contents| ==> |contents[i]| % cs == 0) ==> |Join(contents)| % cs == 0
  {
    hide HoldsAll, Chunks, Join;
    if contents == [] {
      NothingHeld(codec, blobs, cs);
    } else {
      var n := |contents| - 1;
      var front, last := contents[..n], contents[n];
      assert contents == front + [last];
      forall i | 0 <= i < |front| ensures HoldsAll(codec, blobs, Chunks(front[i], cs)) {
        assert front[i] == contents[i];
      }
      SpliceHeld(codec, blobs, front, cs);
      JoinLast(front, last);
      ChunksConcat(Join(front), last, cs);
      HoldsBoth(codec, blobs, Chunks(Join(front), cs), Chunks(last, cs));
      if |last| % cs == 0 { WholeSum(|Join(front)|, |last|, cs); }
    }
  }

  lemma NothingHeld(codec: Codec, blobs: Blobs, cs: nat)
    requires 0 < cs
    ensures Join([]) == [] && HoldsAll(codec, blobs, Chunks([], cs)) && 0 % cs == 0
  {
    SmallDivision(0, cs);
  }

  lemma HoldsBoth(codec: Codec, blobs: Blobs, a: seq<Bytes>, b: seq<Bytes>)
    requires HoldsAll(codec, blobs, a) && HoldsAll(codec, blobs, b)
    ensures HoldsAll(codec, blobs, a + b)
  {
  }

  /** An assembled object needs only its own manifest stored: its chunks already are. */
  lemma CompletionStored(codec: Codec, blobs: Blobs, log: seq<Event>, id: string, list: PartList)
    requires Replay(codec, log).Some? && id in Replay(codec, log).value.uploads && LogStored(codec, blobs, log)
    requires Assemble(Replay(codec, log).value.uploads[id], list).Some?
    requires Holds(codec, blobs, codec.encode(Assemble(Replay(codec, log).value.uploads[id], list).value))
    ensures var m := Assemble(Replay(codec, log).value.uploads[id], list).value;
            Resolves(codec, blobs, codec.cid(codec.encode(m)), m.totalSize)
  {
    hide Replay, Chunks, Join, Cids, Assemble, HoldsAll, Holds, PartEtag;
    var puts, contents := CompletionContents(codec, log, id, list);
    forall x | 0 <= x < |contents| ensures HoldsAll(codec, blobs, Chunks(contents[x], DEFAULT_PART_CHUNK)) {
      assert Supplies(codec, log, puts[x], id, list[x], contents[x]);
      assert EventStored(codec, blobs, log[puts[x]]);
    }
    SpliceHeld(codec, blobs, contents, DEFAULT_PART_CHUNK);
    var bytes := Join(contents);
    assert StoredByManifest(codec, blobs, codec.cid(codec.encode(ManifestOf(codec, bytes, DEFAULT_PART_CHUNK))),
                            bytes, DEFAULT_PART_CHUNK);
  }

  // ---- how a record leaves the table ----

  /** A record is dropped as finished only right after the commit that bound its object. */
  ghost predicate Ordered(log: seq<Event>) {
    forall i :: 0 <= i < |log| && log[i].Finished? ==> i > 0 && log[i - 1].Bound? && log[i - 1].id == log[i].id
  }

  /** An upload record leaves the table only by an abort, or right after a commit has bound its key: at
      that moment the index serves the object the record's parts assemble into. */
  lemma RecordLeaves(codec: Codec, log: seq<Event>, i: nat, id: string)
    requires Replay(codec, log).Some? && Ordered(log) && i < |log|
    requires id in WorldAt(codec, log, i).uploads && id !in WorldAt(codec, log, i + 1).uploads
    ensures log[i] == Aborted(id)
            || (log[i] == Finished(id) && i > 0 && log[i - 1].Bound? && log[i - 1].id == id
                && var upload := WorldAt(codec, log, i).uploads[id];
                CompletionPut(codec, upload, log[i - 1].list, log[i - 1].now) == Some(log[i - 1].m)
                && Head(WorldAt(codec, log, i).index, upload.bucket, upload.key) == Ok(log[i - 1].m.meta))
  {
    hide Replay, Apply, After, Assemble, PartOf;
    var w := WorldAt(codec, log, i);
    if log[i] == Finished(id) {
      var before := WorldAt(codec, log, i - 1);
      BoundIsHead(log[i - 1].m, WorldAt(codec, log, i - 1).index);
    }
  }
}
