/** The imperative side of multipart uploads: the upload table that `src/multipart.rs` mutates, and the
    storing of a part by `upload_part`. */
module Uploading {
  import opened Basics
  import opened Search
  import opened Manifests
  import opened Multipart
  import M = Multipart

  // ---- parts in part-number order ----

  predicate IsLeast(m: u32, s: set<u32>) {
    m in s && forall n :: n in s ==> m <= n
  }

  function Least(s: set<u32>): (m: u32)
    requires s != {}
    ensures IsLeast(m, s)
  {
    LeastExists(s);
    var m :| IsLeast(m, s);
    m
  }

  lemma {:induction false} LeastExists(s: set<u32>)
    requires s != {}
    ensures exists m :: IsLeast(m, s)
    decreases |s|
  {
    hide IsLeast;
    var a :| a in s;
    if s - {a} == {} {
      LeastAlone(a, s);
    } else {
      LeastExists(s - {a});
      var m :| IsLeast(m, s - {a});
      LeastWith(a, m, s);
    }
  }

  lemma LeastAlone(a: u32, s: set<u32>)
    requires a in s && s - {a} == {}
    ensures IsLeast(a, s)
  {
    forall n | n in s ensures a <= n { assert n == a || n in s - {a}; }
  }

  lemma LeastWith(a: u32, m: u32, s: set<u32>)
    requires a in s && IsLeast(m, s - {a})
    ensures IsLeast(if a < m then a else m, s)
  {
    forall n | n in s ensures (if a < m then a else m) <= n { assert n == a || n in s - {a}; }
  }

  /** A set of part numbers as `BTreeMap` iterates over it. */
  function Numbers(s: set<u32>): (ns: seq<u32>)
    ensures forall i, j :: 0 <= i < j < |ns| ==> ns[i] < ns[j]
    ensures forall n :: n in ns <==> n in s
    decreases |s|
  {
    if s == {} then []
    else
      var m := Least(s);
      var rest := Numbers(s - {m});
      assert forall n :: n in rest ==> m < n;
      [m] + rest
  }

  function OrderedParts(upload: Upload): (parts: seq<Part>)
    ensures |parts| == |Numbers(upload.parts.Keys)|
  {
    var ns := Numbers(upload.parts.Keys);
    seq(|ns|, i requires 0 <= i < |ns| => assert ns[i] in ns; upload.parts[ns[i]])
  }

  /** `Upload::assembled_size`, whose unchecked sum wraps around in a release build. */
  function AssembledSize(upload: Upload): u64 {
    TotalSize(OrderedParts(upload)) % U64_LIMIT
  }

  /** The wrapping sum of `assembled_size`, part by part. */
  method SumOfSizes(upload: Upload) returns (total: u64)
    ensures total == AssembledSize(upload)
  {
    hide TotalSize;
    var parts := OrderedParts(upload);
    total := 0;
    SumStep(parts, 0, 0);
    for i := 0 to |parts|
      invariant total == TotalSize(parts[..i]) % U64_LIMIT
    {
      SumStep(parts, i, total);
      total := (total + parts[i].size) % U64_LIMIT;
    }
    assert parts[..|parts|] == parts;
  }

  lemma SumStep(parts: seq<Part>, i: nat, total: u64)
    requires i <= |parts|
    ensures i == 0 ==> TotalSize(parts[..i]) == 0
    ensures i < |parts| && total == TotalSize(parts[..i]) % U64_LIMIT ==>
              (total + parts[i].size) % U64_LIMIT == TotalSize(parts[..i + 1]) % U64_LIMIT
  {
    if i < |parts| { assert parts[..i + 1][..i] == parts[..i]; }
  }

  /** `listed` holds every part of the upload once, by ascending part number. */
  ghost predicate InOrder(upload: Upload, listed: seq<Part>) {
    |listed| == |upload.parts|
    && (forall n :: n in upload.parts ==> upload.parts[n] in listed)
    && (forall part :: part in listed ==> exists n :: n in upload.parts && upload.parts[n] == part)
    && (PartsSound(upload) ==> forall i, j :: 0 <= i < j < |listed| ==> listed[i].partNumber < listed[j].partNumber)
  }

  lemma {:induction false} NumbersCount(s: set<u32>)
    ensures |Numbers(s)| == |s|
    decreases |s|
  {
    if s != {} { NumbersCount(s - {Least(s)}); }
  }

  lemma OrderedPartAt(upload: Upload, i: nat)
    requires i < |Numbers(upload.parts.Keys)|
    ensures Numbers(upload.parts.Keys)[i] in upload.parts
    ensures OrderedParts(upload)[i] == upload.parts[Numbers(upload.parts.Keys)[i]]
  {
    assert Numbers(upload.parts.Keys)[i] in Numbers(upload.parts.Keys);
  }

  lemma OrderedPartsInOrder(upload: Upload)
    ensures InOrder(upload, OrderedParts(upload))
  {
    hide Numbers, OrderedParts, PartsSound;
    var ns, parts := Numbers(upload.parts.Keys), OrderedParts(upload);
    NumbersCount(upload.parts.Keys);
    forall n | n in upload.parts ensures upload.parts[n] in parts {
      assert n in ns;
      var i :| 0 <= i < |ns| && ns[i] == n;
      OrderedPartAt(upload, i);
    }
    forall part | part in parts ensures exists n :: n in upload.parts && upload.parts[n] == part {
      var i :| 0 <= i < |parts| && parts[i] == part;
      OrderedPartAt(upload, i);
    }
    if PartsSound(upload) {
      forall i, j | 0 <= i < j < |parts| ensures parts[i].partNumber < parts[j].partNumber {
        OrderedPartAt(upload, i);
        OrderedPartAt(upload, j);
        SoundNumber(upload, ns[i]);
        SoundNumber(upload, ns[j]);
      }
    }
  }

  lemma SoundNumber(upload: Upload, n: u32)
    requires PartsSound(upload) && n in upload.parts
    ensures upload.parts[n].partNumber == n
  {
  }

  /** The list that cites every part, in order. */
  function Everything(upload: Upload): (list: PartList)
    ensures |list| == |Numbers(upload.parts.Keys)|
    ensures AllCited(upload, list)
  {
    var ns := Numbers(upload.parts.Keys);
    seq(|ns|, i requires 0 <= i < |ns| => assert ns[i] in ns; (ns[i], upload.parts[ns[i]].etag))
  }

  /** Completing with every part gives an object of the assembled size; the wrapped-around sum is never taken
      for it. */
  lemma AssembledSizeIsTotal(upload: Upload)
    ensures Assemble(upload, Everything(upload)).Some? ==>
              Assemble(upload, Everything(upload)).value.totalSize == AssembledSize(upload)
    ensures Assemble(upload, Everything(upload)).Some? <==>
              upload.parts != map[] && 0 !in upload.parts && |Everything(upload)| <= MAX_PARTS
              && TotalSize(OrderedParts(upload)) < U64_LIMIT && LowerPartsWhole(upload)
  {
    hide TotalSize, Named;
    var list, ns := Everything(upload), Numbers(upload.parts.Keys);
    assert Named(upload, list) == OrderedParts(upload);
    NumbersAscend(upload);
    OnlyLastShort(upload);
  }

  lemma NumbersAscend(upload: Upload)
    ensures Everything(upload) == [] <==> upload.parts == map[]
    ensures Ascending(Everything(upload)) <==> 0 !in upload.parts
  {
    var list, ns := Everything(upload), Numbers(upload.parts.Keys);
    if ns == [] {
      assert forall n :: n !in upload.parts.Keys;
    } else {
      var first := SomeMember(ns);
      assert first in upload.parts;
      if 0 in upload.parts {
        assert 0 in ns;
        var i :| 0 <= i < |ns| && ns[i] == 0;
        assert i == 0;
      }
    }
  }

  /** Every part below another one is a whole number of chunks. */
  ghost predicate LowerPartsWhole(upload: Upload) {
    forall n, larger :: n in upload.parts && larger in upload.parts && n < larger ==>
      upload.parts[n].size % upload.partChunk == 0
  }

  ghost predicate AllButLastWhole(upload: Upload, list: PartList)
    requires AllCited(upload, list)
  {
    forall i :: 0 <= i < |list| - 1 ==> upload.parts[list[i].0].size % upload.partChunk == 0
  }

  lemma OnlyLastShort(upload: Upload)
    ensures AllButLastWhole(upload, Everything(upload)) <==> LowerPartsWhole(upload)
  {
    hide Numbers;
    var list, ns := Everything(upload), Numbers(upload.parts.Keys);
    if AllButLastWhole(upload, list) {
      forall n, larger | n in upload.parts && larger in upload.parts && n < larger
        ensures upload.parts[n].size % upload.partChunk == 0
      {
        assert n in ns && larger in ns;
        var i, j :| 0 <= i < |ns| && 0 <= j < |ns| && ns[i] == n && ns[j] == larger;
        assert i < j;
        assert list[i].0 == n;
      }
    }
    if LowerPartsWhole(upload) {
      forall i | 0 <= i < |list| - 1 ensures upload.parts[list[i].0].size % upload.partChunk == 0 {
        assert ns[i] in ns && ns[i + 1] in ns && ns[i] < ns[i + 1];
      }
    }
  }

  // ---- the table ----

  ghost predicate TableOutcome(before: Uploads, meaning: Result<Uploads, UploadError>, r: Result<Unit, UploadError>,
                               after: Uploads)
  {
    match meaning
    case Ok(v) => r == Ok(Unit) && after == v
    case Err(e) => r == Err(e) && after == before
  }

  class MultipartState {
    var uploads: Uploads

    constructor ()
      ensures uploads == map[]
    {
      uploads := map[];
    }

    method Create(id: string, upload: Upload) returns (r: Result<Unit, UploadError>)
      modifies this
      ensures TableOutcome(old(uploads), M.Create(old(uploads), id, upload), r, uploads)
    {
      if |uploads| >= MAX_INFLIGHT_UPLOADS && id !in uploads { return Err(TooManyUploads); }
      uploads := uploads[id := upload];
      return Ok(Unit);
    }

    method PutPart(id: string, part: Part) returns (r: Result<Unit, UploadError>)
      modifies this
      ensures TableOutcome(old(uploads), M.PutPart(old(uploads), id, part), r, uploads)
    {
      if part.partNumber == 0 || part.partNumber > MAX_PARTS { return Err(BadPartNumber); }
      if part.size == 0 { return Err(EmptyPart); }
      if id !in uploads { return Err(NoSuchUpload); }
      var up := uploads[id];
      uploads := uploads[id := up.(parts := up.parts[part.partNumber := part])];
      return Ok(Unit);
    }

    method ListParts(id: string) returns (r: Result<seq<Part>, UploadError>)
      ensures if id in uploads then r.Ok? && InOrder(uploads[id], r.value) else r == Err(NoSuchUpload)
    {
      if id !in uploads { return Err(NoSuchUpload); }
      OrderedPartsInOrder(uploads[id]);
      return Ok(OrderedParts(uploads[id]));
    }

    method Remove(id: string) returns (dropped: Option<Upload>)
      modifies this
      ensures uploads == M.Remove(old(uploads), id)
      ensures dropped == if id in old(uploads) then Some(old(uploads)[id]) else None
    {
      dropped := if id in uploads then Some(uploads[id]) else None;
      uploads := uploads - {id};
    }
  }

  // ---- storing a part ----

  /** The blobs `upload_part` stores for a part, in order: its chunks, then its own manifest. */
  function ObjectBlobs(codec: Codec, bytes: Bytes, cs: ChunkSize): seq<Bytes>
    requires |bytes| < U64_LIMIT
  {
    Chunks(bytes, cs) + [codec.encode(ManifestOf(codec, bytes, cs))]
  }

  /** They are exactly the blobs that the part's manifest and its ETag name. */
  lemma BlobsNeeded(codec: Codec, bytes: Bytes, cs: ChunkSize, blob: Bytes)
    requires codec.Lawful() && |bytes| < U64_LIMIT
    ensures blob in ObjectBlobs(codec, bytes, cs) <==>
            codec.cid(blob) in ManifestOf(codec, bytes, cs).chunks || codec.cid(blob) == PartEtag(codec, bytes, cs)
  {
    hide Chunks;
    var chunks := Chunks(bytes, cs);
    assert |Cids(codec, chunks)| == |chunks|;
    forall i | 0 <= i < |chunks| && chunks[i] == blob ensures codec.cid(blob) in Cids(codec, chunks) {
      assert Cids(codec, chunks)[i] == codec.cid(blob);
    }
    if codec.cid(blob) in Cids(codec, chunks) {
      var i :| 0 <= i < |chunks| && Cids(codec, chunks)[i] == codec.cid(blob);
      assert chunks[i] == blob;
    }
  }

  lemma PutBlobGrows(codec: Codec, blobs: Blobs, bytes: Bytes)
    requires codec.Lawful() && Honest(codec, blobs)
    ensures var after := blobs[codec.cid(bytes) := bytes];
            Honest(codec, after) && Grows(blobs, after) && Holds(codec, after, bytes)
  {
  }

  lemma HoldsGrows(codec: Codec, a: Blobs, b: Blobs, chunks: seq<Bytes>)
    requires Grows(a, b) && HoldsAll(codec, a, chunks)
    ensures HoldsAll(codec, b, chunks)
  {
    forall i | 0 <= i < |chunks| ensures Holds(codec, b, chunks[i]) {
      assert Holds(codec, a, chunks[i]);
    }
  }

  /** Storing blobs one after another: afterwards all are held, and nothing stored before is lost. */
  method StoreBlobs(codec: Codec, blobs: Blobs, todo: seq<Bytes>) returns (after: Blobs)
    requires codec.Lawful() && Honest(codec, blobs)
    ensures Honest(codec, after) && Grows(blobs, after) && HoldsAll(codec, after, todo)
  {
    hide Honest, Grows, Holds, HoldsAll;
    after := blobs;
    GrowsSelf(codec, blobs);
    for i := 0 to |todo|
      invariant Honest(codec, after) && Grows(blobs, after)
      invariant HoldsAll(codec, after, todo[..i])
    {
      PutBlobGrows(codec, after, todo[i]);
      HoldsNext(codec, blobs, after, after[codec.cid(todo[i]) := todo[i]], todo, i);
      after := after[codec.cid(todo[i]) := todo[i]];
    }
    assert todo[..|todo|] == todo;
  }

  /** `upload_part` against the blob store: the part it records is the one whose ETag pins these bytes,
      everything the part needs is stored, and nothing stored before is lost. */
  method StorePart(codec: Codec, blobs: Blobs, num: u32, bytes: Bytes) returns (part: Part, after: Blobs)
    requires codec.Lawful() && Honest(codec, blobs) && |bytes| < U64_LIMIT
    ensures part == PartOf(codec, num, bytes, DEFAULT_PART_CHUNK)
    ensures Honest(codec, after) && Grows(blobs, after)
    ensures StoredByManifest(codec, after, part.etag, bytes, DEFAULT_PART_CHUNK)
  {
    hide Honest, Grows, Holds, HoldsAll, Chunks, Cids;
    var manifest := ManifestOf(codec, bytes, DEFAULT_PART_CHUNK);
    var chunks := Chunks(bytes, DEFAULT_PART_CHUNK);
    after := StoreBlobs(codec, blobs, chunks);
    var manifestBytes := codec.encode(manifest);
    var etag := codec.cid(manifestBytes);
    PutBlobGrows(codec, after, manifestBytes);
    HoldsGrows(codec, after, after[etag := manifestBytes], chunks);
    GrowsTwice(blobs, after, after[etag := manifestBytes]);
    after := after[etag := manifestBytes];
    part := Part(num, etag, |bytes|, manifest.chunks);
  }

  lemma GrowsSelf(codec: Codec, a: Blobs)
    ensures Grows(a, a) && HoldsAll(codec, a, [])
  {
  }

  lemma GrowsTwice(a: Blobs, b: Blobs, c: Blobs)
    requires Grows(a, b) && Grows(b, c)
    ensures Grows(a, c)
  {
  }

  lemma HoldsNext(codec: Codec, a: Blobs, b: Blobs, c: Blobs, chunks: seq<Bytes>, i: nat)
    requires i < |chunks| && Grows(a, b) && Grows(b, c) && HoldsAll(codec, b, chunks[..i])
    requires Holds(codec, c, chunks[i])
    ensures Grows(a, c) && HoldsAll(codec, c, chunks[..i + 1])
  {
    HoldsGrows(codec, b, c, chunks[..i]);
    assert chunks[..i + 1] == chunks[..i] + [chunks[i]];
  }
}
