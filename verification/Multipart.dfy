/** Multipart uploads: the upload table of `src/multipart.rs`, the assembly of parts into one manifest,
    and why the result is the manifest a single put would have produced. */
module Multipart {
  import opened Basics
  import opened Division
  import opened Manifests

  const MAX_PARTS: u32 := 10_000
  const MAX_INFLIGHT_UPLOADS: nat := 4096
  /** Chunk sizes are positive: `create_multipart_upload` is their only source. */
  type ChunkSize = x: int | 0 < x < U64_LIMIT witness 1

  const DEFAULT_PART_CHUNK: ChunkSize := 1_048_576

  datatype Part = Part(partNumber: u32, etag: string, size: u64, chunkCids: seq<string>)

  datatype Upload = Upload(
    bucket: Str,
    key: Str,
    partChunk: ChunkSize,
    contentType: string,
    metadata: map<Str, Str>,
    created: u64,
    parts: map<u32, Part>)

  type Uploads = map<string, Upload>

  datatype UploadError = TooManyUploads | BadPartNumber | EmptyPart | NoSuchUpload | BadPartList | TooLarge

  // ---- the table, on values ----

  function Create(ups: Uploads, id: string, upload: Upload): Result<Uploads, UploadError> {
    if |ups| >= MAX_INFLIGHT_UPLOADS && id !in ups then Err(TooManyUploads) else Ok(ups[id := upload])
  }

  function PutPart(ups: Uploads, id: string, part: Part): Result<Uploads, UploadError> {
    if part.partNumber == 0 || part.partNumber > MAX_PARTS then Err(BadPartNumber)
    else if part.size == 0 then Err(EmptyPart)
    else if id !in ups then Err(NoSuchUpload)
    else Ok(ups[id := ups[id].(parts := ups[id].parts[part.partNumber := part])])
  }

  function Remove(ups: Uploads, id: string): Uploads {
    ups - {id}
  }

  /** Parts sit under their own numbers, between 1 and `MAX_PARTS`, and none is empty. */
  ghost predicate PartsSound(upload: Upload) {
    forall n :: n in upload.parts ==>
      1 <= n <= MAX_PARTS && upload.parts[n].partNumber == n && 0 < upload.parts[n].size
  }

  // ---- assembly ----

  type PartList = seq<(u32, string)>

  /** The parts a list names, in its order. */
  function Named(upload: Upload, requested: PartList): (parts: seq<Part>)
    requires forall i :: 0 <= i < |requested| ==> requested[i].0 in upload.parts
    ensures |parts| == |requested|
    ensures forall i :: 0 <= i < |requested| ==> parts[i] == upload.parts[requested[i].0]
  {
    if requested == [] then []
    else
      Named(upload, requested[..|requested| - 1]) + [upload.parts[requested[|requested| - 1].0]]
  }

  function TotalSize(parts: seq<Part>): nat {
    if parts == [] then 0 else TotalSize(parts[..|parts| - 1]) + parts[|parts| - 1].size
  }

  function SplicedChunks(parts: seq<Part>): seq<string> {
    if parts == [] then [] else SplicedChunks(parts[..|parts| - 1]) + parts[|parts| - 1].chunkCids
  }

  /** Every named part was uploaded and is cited with its current ETag. */
  predicate AllCited(upload: Upload, requested: PartList) {
    forall i :: 0 <= i < |requested| ==>
      requested[i].0 in upload.parts && upload.parts[requested[i].0].etag == requested[i].1
  }

  predicate Ascending(requested: PartList) {
    (|requested| > 0 ==> 0 < requested[0].0)
    && forall i :: 0 < i < |requested| ==> requested[i - 1].0 < requested[i].0
  }

  /** The lists that `assemble_manifest` accepts. */
  predicate Acceptable(upload: Upload, requested: PartList)
  {
    requested != [] && |requested| <= MAX_PARTS && Ascending(requested) && AllCited(upload, requested)
    && (forall i :: 0 <= i < |requested| - 1 ==> upload.parts[requested[i].0].size % upload.partChunk == 0)
    && TotalSize(Named(upload, requested)) < U64_LIMIT
  }

  function Assemble(upload: Upload, requested: PartList): Option<Manifest>
  {
    if !Acceptable(upload, requested) then None
    else
      var parts := Named(upload, requested);
      Some(Manifest(V1, upload.partChunk, TotalSize(parts), SplicedChunks(parts)))
  }

  lemma {:induction false} TotalSizeGrows(parts: seq<Part>, i: nat)
    requires i <= |parts|
    ensures TotalSize(parts[..i]) <= TotalSize(parts)
  {
    if i == |parts| {
      assert parts[..i] == parts;
    } else {
      var shorter := parts[..|parts| - 1];
      assert shorter[..i] == parts[..i];
      TotalSizeGrows(shorter, i);
    }
  }

  lemma NamedPrefix(upload: Upload, requested: PartList, i: nat)
    requires i <= |requested| && AllCited(upload, requested)
    ensures AllCited(upload, requested[..i])
    ensures Named(upload, requested[..i]) == Named(upload, requested)[..i]
  {
  }

  /** What the assembly loop knows after `i` entries. */
  ghost predicate Progress(upload: Upload, requested: PartList, i: nat, lastNum: u32, total: u64, chunks: seq<string>)
  {
    i <= |requested|
    && AllCited(upload, requested[..i]) && Ascending(requested[..i])
    && lastNum == (if i == 0 then 0 else requested[i - 1].0)
    && (forall k :: 0 <= k < i && k < |requested| - 1 ==>
          upload.parts[requested[k].0].size % upload.partChunk == 0)
    && total == TotalSize(Named(upload, requested[..i]))
    && chunks == SplicedChunks(Named(upload, requested[..i]))
  }

  /** The loop's checks on entry `i`. */
  predicate EntryOk(upload: Upload, requested: PartList, i: nat, lastNum: u32)
    requires i < |requested|
  {
    var (num, etag) := requested[i];
    num > lastNum && num in upload.parts && upload.parts[num].etag == etag
    && (i + 1 == |requested| || upload.parts[num].size % upload.partChunk == 0)
  }

  lemma {:induction false} NextPart(upload: Upload, requested: PartList, i: nat)
    requires i < |requested|
    requires forall k :: 0 <= k <= i ==> requested[k].0 in upload.parts
    ensures var before, after, part := Named(upload, requested[..i]), Named(upload, requested[..i + 1]),
                                       upload.parts[requested[i].0];
            TotalSize(after) == TotalSize(before) + part.size
            && SplicedChunks(after) == SplicedChunks(before) + part.chunkCids
  {
    assert requested[..i + 1][..i] == requested[..i];
    var before := Named(upload, requested[..i]);
    assert Named(upload, requested[..i + 1]) == before + [upload.parts[requested[i].0]];
    assert (before + [upload.parts[requested[i].0]])[..|before|] == before;
  }

  lemma ProgressStep(upload: Upload, requested: PartList, i: nat, lastNum: u32, total: u64, chunks: seq<string>)
    requires i < |requested|
    requires Progress(upload, requested, i, lastNum, total, chunks) && EntryOk(upload, requested, i, lastNum)
    ensures var part := upload.parts[requested[i].0];
            if total + part.size < U64_LIMIT
            then Progress(upload, requested, i + 1, requested[i].0, total + part.size, chunks + part.chunkCids)
            else !Acceptable(upload, requested)
  {
    hide TotalSize, SplicedChunks, Named;
    assert forall k :: 0 <= k < i ==> requested[..i][k].0 in upload.parts;
    NextPart(upload, requested, i);
    assert forall k :: 0 < k < i ==> requested[..i][k - 1].0 < requested[..i][k].0;
    if AllCited(upload, requested) {
      NamedPrefix(upload, requested, i + 1);
      TotalSizeGrows(Named(upload, requested), i + 1);
    }
  }

  lemma ProgressStops(upload: Upload, requested: PartList, i: nat, lastNum: u32, total: u64, chunks: seq<string>)
    requires i < |requested|
    requires Progress(upload, requested, i, lastNum, total, chunks) && !EntryOk(upload, requested, i, lastNum)
    ensures !Acceptable(upload, requested)
  {
    hide TotalSize, SplicedChunks, Named;
  }

  lemma ProgressDone(upload: Upload, requested: PartList, lastNum: u32, total: u64, chunks: seq<string>)
    requires 0 < |requested| <= MAX_PARTS
    requires Progress(upload, requested, |requested|, lastNum, total, chunks)
    ensures Assemble(upload, requested) == Some(Manifest(V1, upload.partChunk, total, chunks))
  {
    hide TotalSize, SplicedChunks, Named;
    assert requested[..|requested|] == requested;
  }

  /** The assembly loop of `assemble_manifest`: it accepts exactly the acceptable lists, and what it
      builds is the total of the sizes over the splice of the chunk lists. */
  method AssembleManifest(upload: Upload, requested: PartList) returns (r: Result<Manifest, UploadError>)
    ensures r == match Assemble(upload, requested)
                 case Some(m) => Ok(m)
                 case None => Err(BadPartList)
  {
    hide Progress, EntryOk;
    if |requested| == 0 { return Err(BadPartList); }
    if |requested| > MAX_PARTS { return Err(BadPartList); }
    var lastNum: u32 := 0;
    var chunks: seq<string> := [];
    var total: u64 := 0;
    ProgressStart(upload, requested);
    for idx := 0 to |requested|
      invariant Progress(upload, requested, idx, lastNum, total, chunks)
    {
      EntryMeans(upload, requested, idx, lastNum);
      ghost var ok := EntryOk(upload, requested, idx, lastNum);
      if !ok { ProgressStops(upload, requested, idx, lastNum, total, chunks); }
      if ok { ProgressStep(upload, requested, idx, lastNum, total, chunks); }
      var (num, etag) := requested[idx];
      if num <= lastNum { return Err(BadPartList); }
      lastNum := num;
      if num !in upload.parts { return Err(BadPartList); }
      var part := upload.parts[num];
      if part.etag != etag { return Err(BadPartList); }
      var isLast := idx + 1 == |requested|;
      if !isLast && part.size % upload.partChunk != 0 { return Err(BadPartList); }
      if total + part.size >= U64_LIMIT { return Err(BadPartList); }
      total := total + part.size;
      chunks := chunks + part.chunkCids;
    }
    ProgressDone(upload, requested, lastNum, total, chunks);
    r := Ok(Manifest(V1, upload.partChunk, total, chunks));
  }

  lemma ProgressStart(upload: Upload, requested: PartList)
    ensures Progress(upload, requested, 0, 0, 0, [])
  {
  }

  lemma EntryMeans(upload: Upload, requested: PartList, i: nat, lastNum: u32)
    requires i < |requested|
    ensures EntryOk(upload, requested, i, lastNum) <==>
            requested[i].0 > lastNum && requested[i].0 in upload.parts
            && upload.parts[requested[i].0].etag == requested[i].1
            && (i + 1 == |requested| || upload.parts[requested[i].0].size % upload.partChunk == 0)
  {
  }

  // ---- what the parts contain ----

  /** The ETag of a part: the content id of the part's own manifest. */
  function PartEtag(codec: Codec, bytes: Bytes, cs: ChunkSize): string
    requires |bytes| < U64_LIMIT
  {
    codec.cid(codec.encode(ManifestOf(codec, bytes, cs)))
  }

  /** The record `upload_part` makes of a part's bytes. */
  function PartOf(codec: Codec, num: u32, bytes: Bytes, cs: ChunkSize): Part
    requires |bytes| < U64_LIMIT
  {
    Part(num, PartEtag(codec, bytes, cs), |bytes|, Cids(codec, Chunks(bytes, cs)))
  }

  /** `contents` are the bytes behind the named parts. */
  ghost predicate Backed(codec: Codec, upload: Upload, requested: PartList, contents: seq<Bytes>)
  {
    |contents| == |requested|
    && forall i :: 0 <= i < |requested| ==>
      |contents[i]| < U64_LIMIT && requested[i].0 in upload.parts
      && upload.parts[requested[i].0] == PartOf(codec, requested[i].0, contents[i], upload.partChunk)
  }

  lemma BackedFront(codec: Codec, upload: Upload, requested: PartList, contents: seq<Bytes>)
    requires Backed(codec, upload, requested, contents) && requested != []
    ensures var n := |requested| - 1;
            Backed(codec, upload, requested[..n], contents[..n])
            && contents == contents[..n] + [contents[n]] && requested[..n + 1] == requested
            && upload.parts[requested[n].0].size == |contents[n]|
            && upload.parts[requested[n].0].chunkCids == Cids(codec, Chunks(contents[n], upload.partChunk))
  {
  }

  lemma SpliceNothing(codec: Codec, upload: Upload, cs: nat)
    requires 0 < cs
    ensures TotalSize(Named(upload, [])) == |Join([])| == 0
    ensures SplicedChunks(Named(upload, [])) == Cids(codec, Chunks(Join([]), cs))
  {
  }

  lemma {:induction false} SpliceBacked(codec: Codec, upload: Upload, requested: PartList, contents: seq<Bytes>)
    requires Backed(codec, upload, requested, contents)
    requires forall i :: 0 <= i < |requested| - 1 ==> |contents[i]| % upload.partChunk == 0
    ensures TotalSize(Named(upload, requested)) == |Join(contents)|
    ensures SplicedChunks(Named(upload, requested)) == Cids(codec, Chunks(Join(contents), upload.partChunk))
    ensures (forall i :: 0 <= i < |requested| ==> |contents[i]| % upload.partChunk == 0) ==>
              |Join(contents)| % upload.partChunk == 0
    decreases |requested|
  {
    hide TotalSize, SplicedChunks, Named, Chunks, Join, Cids;
    var cs := upload.partChunk;
    if requested == [] {
      assert contents == [];
      SpliceNothing(codec, upload, cs);
    } else {
      var n := |requested| - 1;
      var front, last := contents[..n], contents[n];
      BackedFront(codec, upload, requested, contents);
      SpliceBacked(codec, upload, requested[..n], front);
      NextPart(upload, requested, n);
      JoinLast(front, last);
      ChunksConcat(Join(front), last, cs);
      CidsConcat(codec, Chunks(Join(front), cs), Chunks(last, cs));
      if |last| % cs == 0 { WholeSum(|Join(front)|, |last|, cs); }
    }
  }

  /** Completing a multipart upload yields the manifest that chunking the whole object would: same size,
      same chunk list, same content id, and as many chunks as the size needs. */
  lemma AssembledIsSinglePut(codec: Codec, upload: Upload, requested: PartList, contents: seq<Bytes>)
    requires Backed(codec, upload, requested, contents)
    requires Assemble(upload, requested).Some?
    ensures |Join(contents)| < U64_LIMIT
    ensures Assemble(upload, requested) == Some(ManifestOf(codec, Join(contents), upload.partChunk))
    ensures Assemble(upload, requested).value.totalSize == |Join(contents)|
    ensures |Assemble(upload, requested).value.chunks|
         == (|Join(contents)| + upload.partChunk - 1) / upload.partChunk
  {
    forall i | 0 <= i < |requested| - 1 ensures |contents[i]| % upload.partChunk == 0 {
      assert upload.parts[requested[i].0].size == |contents[i]|;
    }
    SpliceBacked(codec, upload, requested, contents);
    ChunkCount(Join(contents), upload.partChunk);
  }

  /** A list whose parts are all backed is accepted exactly when it is nonempty, short enough, ascending,
      correctly cited, whole up to its last part, and not too large. */
  lemma BackedAcceptable(codec: Codec, upload: Upload, requested: PartList, contents: seq<Bytes>)
    requires Backed(codec, upload, requested, contents)
    requires forall i :: 0 <= i < |requested| - 1 ==> |contents[i]| % upload.partChunk == 0
    ensures Assemble(upload, requested).Some? <==>
            requested != [] && |requested| <= MAX_PARTS && Ascending(requested)
            && |Join(contents)| < U64_LIMIT
            && forall i :: 0 <= i < |requested| ==> requested[i].1 == PartEtag(codec, contents[i], upload.partChunk)
  {
    hide TotalSize, Named, Chunks, Join, Cids, ManifestOf, PartEtag;
    SpliceBacked(codec, upload, requested, contents);
    forall i | 0 <= i < |requested|
      ensures upload.parts[requested[i].0].etag == PartEtag(codec, contents[i], upload.partChunk)
      ensures upload.parts[requested[i].0].size == |contents[i]|
    {
    }
  }

  /** A part's ETag pins its bytes: citing an ETag that different bytes earned is a mismatch. */
  lemma EtagPinsPart(codec: Codec, a: Bytes, b: Bytes, cs: ChunkSize)
    requires codec.Lawful() && |a| < U64_LIMIT && |b| < U64_LIMIT
    ensures PartEtag(codec, a, cs) == PartEtag(codec, b, cs) <==> a == b
  {
    if PartEtag(codec, a, cs) == PartEtag(codec, b, cs) { ManifestPinsBytes(codec, a, b, cs); }
  }

  /** The ETag of a part is not, in general, the content id of its bytes: it is only for bytes that happen to be
      their own printed manifest. */
  lemma EtagIsContentId(codec: Codec, bytes: Bytes, cs: ChunkSize)
    requires codec.Lawful() && |bytes| < U64_LIMIT
    ensures PartEtag(codec, bytes, cs) == codec.cid(bytes) <==> bytes == codec.encode(ManifestOf(codec, bytes, cs))
  {
  }

  /** Completing with an ETag that belonged to bytes since replaced by different bytes fails. */
  lemma ReplacedPartRejected(codec: Codec, upload: Upload, requested: PartList, i: nat, cited: Bytes, current: Bytes)
    requires codec.Lawful() && i < |requested|
    requires |cited| < U64_LIMIT && |current| < U64_LIMIT && cited != current
    requires requested[i].0 in upload.parts
    requires upload.parts[requested[i].0] == PartOf(codec, requested[i].0, current, upload.partChunk)
    requires requested[i].1 == PartEtag(codec, cited, upload.partChunk)
    ensures Assemble(upload, requested) == None
  {
    EtagPinsPart(codec, cited, current, upload.partChunk);
  }
}
