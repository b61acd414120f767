/** The upload command of `src/main.rs`, from the bytes of a file to the bound object: it splits them into
    parts, uploads each, and completes. */
module UploadCommand {
  import opened Basics
  import opened Manifests
  import opened ObjectReads
  import opened BucketModel
  import opened Mutations
  import opened BucketIndex
  import opened Multipart
  import opened Uploading
  import opened Journal
  import opened Protocol
  import M = Multipart

  // ---- the command-line upload loop ----

  /** `(part_size / chunk).max(1) * chunk`. */
  function RoundedPartSize(partSize: nat): (ps: nat)
    ensures 0 < ps && ps % DEFAULT_PART_CHUNK == 0
    ensures if partSize < DEFAULT_PART_CHUNK then ps == DEFAULT_PART_CHUNK
            else partSize - DEFAULT_PART_CHUNK < ps <= partSize
  {
    Max(partSize / DEFAULT_PART_CHUNK, 1) * DEFAULT_PART_CHUNK
  }

  lemma {:induction false} PieceSizes(bytes: Bytes, ps: nat, i: nat)
    requires 0 < ps && i < |Chunks(bytes, ps)|
    ensures 0 < |Chunks(bytes, ps)[i]| <= |bytes|
    ensures i < |Chunks(bytes, ps)| - 1 ==> |Chunks(bytes, ps)[i]| == ps
    decreases |bytes|
  {
    if |bytes| > ps && i > 0 { PieceSizes(bytes[ps..], ps, i - 1); }
  }

  lemma SomePieces(bytes: Bytes, ps: nat)
    requires 0 < ps
    ensures Chunks(bytes, ps) == [] <==> bytes == []
  {
  }

  /** What the loop has recorded after `n` pieces. */
  ghost predicate Recorded(codec: Codec, upload: Upload, pieces: seq<Bytes>, n: nat, parts: PartList) {
    n <= |pieces| && |parts| == n
    && forall i :: 0 <= i < n ==> PieceRecorded(codec, upload, pieces[i], i + 1, parts[i])
  }

  ghost predicate PieceRecorded(codec: Codec, upload: Upload, piece: Bytes, num: nat, entry: (u32, string)) {
    |piece| < U64_LIMIT && num <= MAX_PARTS && num in upload.parts
    && upload.parts[num] == PartOf(codec, num, piece, upload.partChunk)
    && entry == (num, PartEtag(codec, piece, upload.partChunk))
  }

  lemma RecordNext(codec: Codec, upload: Upload, pieces: seq<Bytes>, n: nat, parts: PartList)
    requires Recorded(codec, upload, pieces, n, parts) && n < |pieces| && n + 1 <= MAX_PARTS
    requires |pieces[n]| < U64_LIMIT
    ensures var part := PartOf(codec, n + 1, pieces[n], upload.partChunk);
            Recorded(codec, upload.(parts := upload.parts[n + 1 := part]), pieces, n + 1, parts + [(n + 1, part.etag)])
  {
    hide PartOf, PartEtag;
    PartOfEtag(codec, n + 1, pieces[n], upload.partChunk);
    var part := PartOf(codec, n + 1, pieces[n], upload.partChunk);
    var after := upload.(parts := upload.parts[n + 1 := part]);
    forall i | 0 <= i < n ensures PieceRecorded(codec, after, pieces[i], i + 1, parts[i]) {
      assert PieceRecorded(codec, upload, pieces[i], i + 1, parts[i]);
    }
  }

  lemma PartOfEtag(codec: Codec, num: u32, bytes: Bytes, cs: ChunkSize)
    requires |bytes| < U64_LIMIT
    ensures PartOf(codec, num, bytes, cs).etag == PartEtag(codec, bytes, cs)
    ensures PartOf(codec, num, bytes, cs).partNumber == num && PartOf(codec, num, bytes, cs).size == |bytes|
  {
  }

  /** Pieces cut at a multiple of the chunk size and recorded as parts 1, 2, … are accepted, and assemble
      into the manifest of the whole. */
  lemma RecordedCompletes(codec: Codec, upload: Upload, bytes: Bytes, ps: nat, parts: PartList)
    requires bytes != [] && |bytes| < U64_LIMIT && 0 < ps && ps % upload.partChunk == 0
    requires Recorded(codec, upload, Chunks(bytes, ps), |Chunks(bytes, ps)|, parts)
    ensures Assemble(upload, parts) == Some(ManifestOf(codec, bytes, upload.partChunk))
  {
    hide Chunks, Join, Cids, PartOf, PartEtag, Assemble, ManifestOf;
    var pieces := Chunks(bytes, ps);
    JoinChunks(bytes, ps);
    SomePieces(bytes, ps);
    forall i | 0 <= i < |pieces| - 1 ensures |pieces[i]| % upload.partChunk == 0 {
      PieceSizes(bytes, ps, i);
    }
    forall i | 0 <= i < |pieces|
      ensures parts[i].0 == i + 1 && parts[i].1 == PartEtag(codec, pieces[i], upload.partChunk)
      ensures |pieces[i]| < U64_LIMIT && i + 1 in upload.parts && i + 1 <= MAX_PARTS
      ensures upload.parts[i + 1] == PartOf(codec, i + 1, pieces[i], upload.partChunk)
    {
      assert PieceRecorded(codec, upload, pieces[i], i + 1, parts[i]);
    }
    assert parts[|pieces| - 1].0 == |pieces|;
    BackedAcceptable(codec, upload, parts, pieces);
    AssembledIsSinglePut(codec, upload, parts, pieces);
  }

  /** The chunks of the first `n` pieces are stored. */
  ghost predicate PiecesHeld(codec: Codec, blobs: Blobs, pieces: seq<Bytes>, n: nat) {
    n <= |pieces| && forall i :: 0 <= i < n ==> HoldsAll(codec, blobs, Chunks(pieces[i], DEFAULT_PART_CHUNK))
  }

  lemma PiecesHeldNext(codec: Codec, a: Blobs, b: Blobs, pieces: seq<Bytes>, n: nat)
    requires n < |pieces| && PiecesHeld(codec, a, pieces, n) && Grows(a, b)
    requires HoldsAll(codec, b, Chunks(pieces[n], DEFAULT_PART_CHUNK))
    ensures PiecesHeld(codec, b, pieces, n + 1)
  {
    hide HoldsAll, Grows, Chunks;
    forall i | 0 <= i < n ensures HoldsAll(codec, b, Chunks(pieces[i], DEFAULT_PART_CHUNK)) {
      HoldsGrows(codec, a, b, Chunks(pieces[i], DEFAULT_PART_CHUNK));
    }
  }

  lemma PiecesStored(codec: Codec, blobs: Blobs, bytes: Payload, ps: nat)
    requires 0 < ps && ps % DEFAULT_PART_CHUNK == 0
    requires PiecesHeld(codec, blobs, Chunks(bytes, ps), |Chunks(bytes, ps)|)
    requires Holds(codec, blobs, codec.encode(ManifestOf(codec, bytes, DEFAULT_PART_CHUNK)))
    ensures StoredByManifest(codec, blobs, codec.cid(codec.encode(ManifestOf(codec, bytes, DEFAULT_PART_CHUNK))),
                             bytes, DEFAULT_PART_CHUNK)
  {
    hide Chunks, Join, HoldsAll, Holds, ManifestOf;
    var pieces := Chunks(bytes, ps);
    forall i | 0 <= i < |pieces| - 1 ensures |pieces[i]| % DEFAULT_PART_CHUNK == 0 {
      PieceSizes(bytes, ps, i);
    }
    SpliceHeld(codec, blobs, pieces, DEFAULT_PART_CHUNK);
    JoinChunks(bytes, ps);
  }

  // ---- the loop over the pieces ----

  ghost predicate PiecesFit(pieces: seq<Bytes>, cap: u64) {
    forall i :: 0 <= i < |pieces| ==> |pieces[i]| <= cap
  }

  /** The loop uploads piece after piece as parts 1, 2, …: it gets through exactly when there are at most
      `MAX_PARTS`, none over the maximum object size, and then every piece is recorded and stored. */
  method UploadPieces(codec: Codec, st: MultipartState, id: string, blobs: Blobs, bytes: Payload, ps: nat, cap: u64)
    returns (r: Result<PartList, UploadError>, after: Blobs)
    requires codec.Lawful() && Honest(codec, blobs) && 0 < ps
    requires id in st.uploads && FreshUpload(st.uploads[id])
    modifies st
    ensures Honest(codec, after) && Grows(blobs, after)
    ensures r.Ok? <==> |Chunks(bytes, ps)| <= MAX_PARTS && PiecesFit(Chunks(bytes, ps), cap)
    ensures r.Err? ==> r.error == BadPartNumber || r.error == TooLarge
    ensures id in st.uploads && st.uploads[id] == old(st.uploads[id]).(parts := st.uploads[id].parts)
    ensures st.uploads - {id} == old(st.uploads) - {id}
    ensures r.Ok? ==>
              Recorded(codec, st.uploads[id], Chunks(bytes, ps), |Chunks(bytes, ps)|, r.value)
              && PiecesHeld(codec, after, Chunks(bytes, ps), |Chunks(bytes, ps)|)
  {
    hide Honest, Grows, Recorded, PiecesHeld, Chunks, PartOf, PartEtag, ManifestOf;
    var pieces := Chunks(bytes, ps);
    after := blobs;
    GrowsSelf(codec, blobs);
    var parts: PartList := [];
    RecordNothing(codec, st.uploads[id], after, pieces);
    for n := 0 to |pieces|
      invariant Honest(codec, after) && Grows(blobs, after)
      invariant n <= MAX_PARTS && id in st.uploads && forall i :: 0 <= i < n ==> |pieces[i]| <= cap
      invariant st.uploads[id] == old(st.uploads[id]).(parts := st.uploads[id].parts)
      invariant Recorded(codec, st.uploads[id], pieces, n, parts) && PiecesHeld(codec, after, pieces, n)
      invariant st.uploads - {id} == old(st.uploads) - {id}
    {
      PieceSizes(bytes, ps, n);
      if |pieces[n]| > cap { return Err(TooLarge), after; }
      ghost var before, stored := st.uploads[id], after;
      var part;
      part, after := StorePart(codec, after, n + 1, pieces[n]);
      GrowsTwice(blobs, stored, after);
      PiecesHeldNext(codec, stored, after, pieces, n);
      PartOfEtag(codec, n + 1, pieces[n], DEFAULT_PART_CHUNK);
      OthersUntouched(st.uploads, id, part);
      var put := st.PutPart(id, part);
      if put.Err? { return Err(put.error), after; }
      RecordNext(codec, before, pieces, n, parts);
      parts := parts + [(n + 1, part.etag)];
    }
    r := Ok(parts);
  }

  // ---- binding ----

  datatype Refusal = Refused(error: UploadError) | Unbound(reason: BucketModel.Error)

  lemma PlainPut(bs: Buckets, bucket: Str, key: Str, meta: ObjectMeta)
    ensures Apply(PutM(bucket, key, meta, NoPreconditions), bs) == BucketModel.Put(bs, bucket, key, meta)
  {
  }

  /** `complete_multipart_upload` against table, index and blob store: it succeeds exactly when the list is
      acceptable, what it assembles is within the maximum object size and the index takes the put, and then the
      assembled manifest is stored, the index serves the object and the record is gone; when it fails, table and
      index are as they were. */
  method CompleteUpload(codec: Codec, st: MultipartState, index: Index, id: string, list: PartList, now: u64,
                        blobs: Blobs, cap: u64)
    returns (r: Result<ObjectMeta, Refusal>, after: Blobs)
    requires codec.Lawful() && Honest(codec, blobs) && id in st.uploads
    modifies st, index
    ensures Honest(codec, after) && Grows(blobs, after)
    ensures var put := CompletionPut(codec, old(st.uploads[id]), list, now);
            (r.Ok? <==>
               put.Some? && Assemble(old(st.uploads[id]), list).value.totalSize <= cap
               && Apply(put.value, old(index.buckets)).Ok?)
            && (r.Ok? ==>
                  put.value.PutM? && r.value == put.value.meta
                  && index.buckets == After(put.value, old(index.buckets))
                  && st.uploads == M.Remove(old(st.uploads), id)
                  && Holds(codec, after, codec.encode(Assemble(old(st.uploads[id]), list).value)))
    ensures r.Err? ==> index.buckets == old(index.buckets) && st.uploads == old(st.uploads)
  {
    hide Honest, Grows, Holds, Assemble, Apply;
    after := blobs;
    GrowsSelf(codec, blobs);
    var upload := st.uploads[id];
    var assembled := AssembleManifest(upload, list);
    if assembled.Err? { return Err(Refused(assembled.error)), after; }
    if assembled.value.totalSize > cap { return Err(Refused(TooLarge)), after; }
    var manifestBytes := codec.encode(assembled.value);
    var cid := codec.cid(manifestBytes);
    PutBlobGrows(codec, after, manifestBytes);
    after := after[cid := manifestBytes];
    var meta := NewMeta(cid, assembled.value.totalSize, upload.contentType, now).(metadata := upload.metadata);
    PlainPut(index.buckets, upload.bucket, upload.key, meta);
    var bound := index.Put(upload.bucket, upload.key, meta);
    if bound.Err? { return Err(Unbound(bound.error)), after; }
    var dropped := st.Remove(id);
    r := Ok(meta);
  }

  /** The single put that an empty file is left to, laid out as the blob client chooses. */
  method PutEmpty(codec: Codec, index: Index, upload: Upload, placement: Placement, now: u64, blobs: Blobs)
    returns (r: Result<ObjectMeta, Refusal>, after: Blobs)
    requires codec.Lawful() && Honest(codec, blobs)
    requires placement.Inline? && codec.parse([]).Some? ==> codec.parse([]).value.kind != V1
    modifies index
    ensures Honest(codec, after) && Grows(blobs, after)
    ensures Stored(codec, after, ObjectCid(codec, [], placement), [])
    ensures var meta := MetaFor(upload, ObjectCid(codec, [], placement), 0, now);
            var m := PutM(upload.bucket, upload.key, meta, NoPreconditions);
            (r.Ok? <==> Apply(m, old(index.buckets)).Ok?)
            && (r.Ok? ==> r.value == meta && index.buckets == After(m, old(index.buckets)))
            && (r.Err? ==> index.buckets == old(index.buckets))
  {
    hide Honest, Grows, Apply;
    var todo := if placement.Inline? then [[]] else ObjectBlobs(codec, [], placement.cs);
    after := StoreBlobs(codec, blobs, todo);
    EmptyStored(codec, after, placement, todo);
    var meta := MetaFor(upload, ObjectCid(codec, [], placement), 0, now);
    PlainPut(index.buckets, upload.bucket, upload.key, meta);
    var bound := index.Put(upload.bucket, upload.key, meta);
    r := if bound.Ok? then Ok(meta) else Err(Unbound(bound.error));
  }

  function MetaFor(upload: Upload, cid: string, size: u64, now: u64): ObjectMeta {
    NewMeta(cid, size, upload.contentType, now).(metadata := upload.metadata)
  }

  lemma EmptyStored(codec: Codec, blobs: Blobs, placement: Placement, todo: seq<Bytes>)
    requires placement.Inline? && codec.parse([]).Some? ==> codec.parse([]).value.kind != V1
    requires todo == if placement.Inline? then [[]] else ObjectBlobs(codec, [], placement.cs)
    requires HoldsAll(codec, blobs, todo)
    ensures Stored(codec, blobs, ObjectCid(codec, [], placement), [])
  {
    match placement
    case Inline =>
      assert Holds(codec, blobs, todo[0]);
      assert StoredInline(codec, blobs, ObjectCid(codec, [], placement), []);
    case Chunked(cs) =>
      NoChunks(cs);
      assert Holds(codec, blobs, todo[0]);
      assert StoredByManifest(codec, blobs, ObjectCid(codec, [], placement), [], cs);
  }

  // ---- the command ----

  /** The content id the command binds: the one of a single put with the parts' chunk size. */
  function UploadCid(codec: Codec, bytes: Payload, placement: Placement): string {
    if bytes == [] then ObjectCid(codec, bytes, placement)
    else ObjectCid(codec, bytes, Chunked(DEFAULT_PART_CHUNK))
  }

  /** The upload command on a file's bytes. It succeeds exactly when the file is within the maximum object size,
      the rounded part size needs at most `MAX_PARTS` parts and the index takes the put; then the index serves an
      object of the file's size whose content id is that of a single put, and that id reads back as the file, byte
      for byte. */
  method UploadFile(codec: Codec, st: MultipartState, index: Index, id: string, blobs: Blobs, bytes: Payload,
                    partSize: nat, placement: Placement, now: u64, cap: u64)
    returns (r: Result<ObjectMeta, Refusal>, after: Blobs)
    requires codec.Lawful() && Honest(codec, blobs) && 0 < partSize
    requires id in st.uploads && FreshUpload(st.uploads[id])
    requires placement.Inline? && codec.parse([]).Some? ==> codec.parse([]).value.kind != V1
    modifies st, index
    ensures Honest(codec, after) && Grows(blobs, after)
    ensures var upload := old(st.uploads[id]);
            var meta := MetaFor(upload, UploadCid(codec, bytes, placement), |bytes|, now);
            var m := PutM(upload.bucket, upload.key, meta, NoPreconditions);
            (r.Ok? <==>
               |bytes| <= cap && |Chunks(bytes, RoundedPartSize(partSize))| <= MAX_PARTS
               && Apply(m, old(index.buckets)).Ok?)
            && (r.Ok? ==>
                  r.value == meta && index.buckets == After(m, old(index.buckets))
                  && Head(index.buckets, upload.bucket, upload.key) == Ok(meta)
                  && ReadsAs(codec, after, meta.cid, bytes)
                  && st.uploads == M.Remove(old(st.uploads), id))
    ensures r.Ok? && bytes != [] ==> StoredByManifest(codec, after, r.value.cid, bytes, DEFAULT_PART_CHUNK)
    ensures r.Err? ==> index.buckets == old(index.buckets)
    ensures st.uploads - {id} == old(st.uploads) - {id}
  {
    hide Honest, Grows, Recorded, PiecesHeld, Chunks, ManifestOf, Assemble, RoundedPartSize, Apply, After,
         ReadsAs, Stored, StoredByManifest, Holds, Head;
    ghost var upload := st.uploads[id];
    var ps := RoundedPartSize(partSize);
    var uploaded;
    uploaded, after := UploadPieces(codec, st, id, blobs, bytes, ps, cap);
    PiecesWithin(bytes, ps, cap);
    if uploaded.Err? { return Err(Refused(uploaded.error)), after; }
    var parts := uploaded.value;
    ghost var stored, table := after, st.uploads;
    SomePieces(bytes, ps);
    RecordedLength(codec, st.uploads[id], Chunks(bytes, ps), |Chunks(bytes, ps)|, parts);
    RemoveTwice(table, id);
    if parts == [] {
      var aborted := st.uploads[id];
      var dropped := st.Remove(id);
      r, after := PutEmpty(codec, index, aborted, placement, now, after);
    } else {
      RecordedCompletes(codec, st.uploads[id], bytes, ps, parts);
      CompletesWith(codec, st.uploads[id], bytes, parts, now);
      r, after := CompleteUpload(codec, st, index, id, parts, now, after, cap);
      if r.Ok? {
        HeldLater(codec, stored, after, Chunks(bytes, ps));
        PiecesStored(codec, after, bytes, ps);
      }
    }
    GrowsTwice(blobs, stored, after);
    if r.Ok? {
      if bytes != [] { ManifestStored(codec, after, r.value.cid, bytes); }
      StoredReads(codec, after, r.value.cid, bytes);
      BoundIsHead(PutM(upload.bucket, upload.key, r.value, NoPreconditions), old(index.buckets));
    }
  }

  lemma PiecesWithin(bytes: Payload, ps: nat, cap: u64)
    requires 0 < ps
    ensures |bytes| <= cap ==> PiecesFit(Chunks(bytes, ps), cap)
  {
    forall i | 0 <= i < |Chunks(bytes, ps)| ensures |Chunks(bytes, ps)[i]| <= |bytes| { PieceSizes(bytes, ps, i); }
  }

  lemma RemoveTwice(ups: Uploads, id: string)
    ensures M.Remove(ups, id) - {id} == ups - {id}
    ensures forall before: Uploads :: ups - {id} == before - {id} ==> M.Remove(ups, id) == M.Remove(before, id)
  {
  }

  lemma HeldLater(codec: Codec, a: Blobs, b: Blobs, pieces: seq<Bytes>)
    requires PiecesHeld(codec, a, pieces, |pieces|) && Grows(a, b)
    ensures PiecesHeld(codec, b, pieces, |pieces|)
  {
    hide HoldsAll, Grows, Chunks;
    forall i | 0 <= i < |pieces| ensures HoldsAll(codec, b, Chunks(pieces[i], DEFAULT_PART_CHUNK)) {
      HoldsGrows(codec, a, b, Chunks(pieces[i], DEFAULT_PART_CHUNK));
    }
  }

  lemma CompletesWith(codec: Codec, upload: Upload, bytes: Payload, parts: PartList, now: u64)
    requires Assemble(upload, parts) == Some(ManifestOf(codec, bytes, DEFAULT_PART_CHUNK))
    ensures CompletionPut(codec, upload, parts, now)
         == Some(PutM(upload.bucket, upload.key,
                      MetaFor(upload, ObjectCid(codec, bytes, Chunked(DEFAULT_PART_CHUNK)), |bytes|, now),
                      NoPreconditions))
  {
  }

  lemma ManifestStored(codec: Codec, blobs: Blobs, cid: string, bytes: Bytes)
    requires StoredByManifest(codec, blobs, cid, bytes, DEFAULT_PART_CHUNK)
    ensures Stored(codec, blobs, cid, bytes)
  {
  }

  lemma RecordNothing(codec: Codec, upload: Upload, blobs: Blobs, pieces: seq<Bytes>)
    ensures Recorded(codec, upload, pieces, 0, []) && PiecesHeld(codec, blobs, pieces, 0)
  {
  }

  lemma RecordedLength(codec: Codec, upload: Upload, pieces: seq<Bytes>, n: nat, parts: PartList)
    requires Recorded(codec, upload, pieces, n, parts)
    ensures |parts| == n
  {
  }

  /** Changing one record leaves the others alone. */
  lemma OthersUntouched(ups: Uploads, id: string, part: Part)
    ensures M.Remove(ups, id) - {id} == ups - {id}
    ensures M.PutPart(ups, id, part).Ok? ==> M.PutPart(ups, id, part).value - {id} == ups - {id}
  {
    if id in ups {
      var after := ups[id := ups[id].(parts := ups[id].parts[part.partNumber := part])];
      forall other ensures other in after - {id} <==> other in ups - {id} {
      }
      forall other | other in ups - {id} ensures (after - {id})[other] == (ups - {id})[other] {
      }
      assert after - {id} == ups - {id};
    }
  }
}
