/** Reading an object back, whole or by range (`src/store.rs`), from a blob store that may or may not
    hold what the index names. */
module ObjectReads {
  import opened Basics
  import opened Division
  import opened Manifests
  import opened RangeReads

  datatype ReadError = InvalidRange | Backend

  /** Fetching one blob and checking it against its content id. */
  function FetchChunk(codec: Codec, blobs: Blobs, cid: string): Option<Bytes> {
    if cid in blobs && codec.cid(blobs[cid]) == cid then Some(blobs[cid]) else None
  }

  /** Fetching chunks in order; one missing or corrupt chunk fails the whole read. */
  function FetchAll(codec: Codec, blobs: Blobs, cids: seq<string>): Option<Bytes> {
    if cids == [] then Some([])
    else
      match (FetchAll(codec, blobs, cids[..|cids| - 1]), FetchChunk(codec, blobs, cids[|cids| - 1]))
      case (Some(front), Some(last)) => Some(front + last)
      case _ => None
  }

  /** `fetch_manifest`: one blob, parsed, of the supported kind. */
  function FetchManifest(codec: Codec, blobs: Blobs, cid: string): Option<Manifest> {
    if cid !in blobs then None
    else match codec.parse(blobs[cid])
         case Some(m) => if m.kind == V1 then Some(m) else None
         case None => None
  }

  /** The blob client's whole-object read: by manifest when the blob is one, else the blob itself. */
  function GetObject(codec: Codec, blobs: Blobs, cid: string): Option<Bytes> {
    match FetchManifest(codec, blobs, cid)
    case Some(m) => FetchAll(codec, blobs, m.chunks)
    case None => FetchChunk(codec, blobs, cid)
  }

  /** What `get_object_range_opts` returns for an object of recorded size `size`. `reached` says whether
      the node answered the manifest fetch; when it did not, the code falls back to the whole object. */
  function RangedRead(codec: Codec, blobs: Blobs, cid: string, size: u64, header: string, reached: bool)
    : Result<(Bytes, u64, u64), ReadError>
  {
    match ParseRange(header, size)
    case Err(_) => Err(InvalidRange)
    case Ok((start, end)) =>
      match if reached then FetchManifest(codec, blobs, cid) else None
      case Some(m) =>
        (match Covering(m, start, end)
         case Err(_) => Err(InvalidRange)
         case Ok(cov) =>
           (match FetchAll(codec, blobs, Select(m.chunks, cov.chunkIndices))
            case None => Err(Backend)
            case Some(concat) =>
              match Slice(cov, concat)
              case None => Err(Backend)
              case Some(window) => Ok((window, start, end))))
      case None =>
        match GetObject(codec, blobs, cid)
        case None => Err(Backend)
        case Some(full) => if end < |full| then Ok((full[start..end + 1], start, end)) else Err(InvalidRange)
  }

  /** The elements at the given indices; an index out of range is skipped. */
  function Select(s: seq<string>, indices: seq<nat>): (r: seq<string>)
    ensures (forall i :: 0 <= i < |indices| ==> indices[i] < |s|) ==>
              |r| == |indices| && forall i :: 0 <= i < |indices| ==> r[i] == s[indices[i]]
  {
    if indices == [] then []
    else if indices[0] < |s| then [s[indices[0]]] + Select(s, indices[1..])
    else Select(s, indices[1..])
  }

  lemma CoveringInRange(m: Manifest, start: u64, end: u64)
    requires Covering(m, start, end).Ok?
    ensures forall i :: i in Covering(m, start, end).value.chunkIndices ==> i < |m.chunks|
  {
    ChunkOrder(start, end, m.chunkSize);
  }

  /** The ranged read, with its loop over the covering chunks. */
  method GetObjectRange(codec: Codec, blobs: Blobs, cid: string, size: u64, header: string, reached: bool)
    returns (r: Result<(Bytes, u64, u64), ReadError>)
    ensures r == RangedRead(codec, blobs, cid, size, header, reached)
  {
    hide ParseRange, Covering, Slice, FetchAll, FetchManifest, GetObject, Select;
    var parsed := ParseRange(header, size);
    if parsed.Err? { return Err(InvalidRange); }
    var start, end := parsed.value.0, parsed.value.1;
    var manifest := if reached then FetchManifest(codec, blobs, cid) else None;
    if manifest.Some? {
      var m := manifest.value;
      var cover := Covering(m, start, end);
      if cover.Err? { return Err(InvalidRange); }
      var cov := cover.value;
      CoveringInRange(m, start, end);
      var concat := FetchCovering(codec, blobs, m.chunks, cov.chunkIndices);
      if concat.None? { return Err(Backend); }
      var window := Slice(cov, concat.value);
      if window.None? { return Err(Backend); }
      r := Ok((window.value, start, end));
    } else {
      var full := GetObject(codec, blobs, cid);
      if full.None? { return Err(Backend); }
      if end >= |full.value| { return Err(InvalidRange); }
      r := Ok((full.value[start..end + 1], start, end));
    }
  }

  method FetchCovering(codec: Codec, blobs: Blobs, chunks: seq<string>, indices: seq<nat>) returns (r: Option<Bytes>)
    requires forall i :: i in indices ==> i < |chunks|
    ensures r == FetchAll(codec, blobs, Select(chunks, indices))
  {
    ghost var cids := Select(chunks, indices);
    assert forall i :: 0 <= i < |indices| ==> indices[i] in indices;
    var concat: Bytes := [];
    for i := 0 to |indices|
      invariant FetchAll(codec, blobs, cids[..i]) == Some(concat)
    {
      var cid := chunks[indices[i]];
      assert cids[..i + 1][..i] == cids[..i];
      var chunk := FetchChunk(codec, blobs, cid);
      if chunk.None? {
        FetchFails(codec, blobs, cids, i + 1);
        return None;
      }
      concat := concat + chunk.value;
    }
    assert cids[..|indices|] == cids;
    r := Some(concat);
  }

  lemma {:induction false} FetchFails(codec: Codec, blobs: Blobs, cids: seq<string>, i: nat)
    requires i <= |cids| && FetchAll(codec, blobs, cids[..i]).None?
    ensures FetchAll(codec, blobs, cids).None?
  {
    if i == |cids| {
      assert cids[..i] == cids;
    } else {
      var shorter := cids[..|cids| - 1];
      assert shorter[..i] == cids[..i];
      FetchFails(codec, blobs, shorter, i);
    }
  }

  /** Stored chunks fetch back as their concatenation. */
  lemma {:induction false} FetchStored(codec: Codec, blobs: Blobs, chunks: seq<Bytes>)
    requires HoldsAll(codec, blobs, chunks)
    ensures FetchAll(codec, blobs, Cids(codec, chunks)) == Some(Join(chunks))
  {
    if chunks != [] {
      var front, last := chunks[..|chunks| - 1], chunks[|chunks| - 1];
      assert chunks == front + [last];
      assert Holds(codec, blobs, last);
      FetchStored(codec, blobs, front);
      CidsConcat(codec, front, [last]);
      JoinLast(front, last);
      assert Cids(codec, [last]) == [codec.cid(last)];
      assert Cids(codec, chunks)[..|chunks| - 1] == Cids(codec, front);
    }
  }

  /** A whole read of a stored object returns its bytes. */
  lemma FullReadExact(codec: Codec, blobs: Blobs, cid: string, bytes: Bytes)
    requires codec.Lawful() && Stored(codec, blobs, cid, bytes)
    ensures GetObject(codec, blobs, cid) == Some(bytes)
  {
    if !StoredInline(codec, blobs, cid, bytes) {
      var cs: u64 :| StoredByManifest(codec, blobs, cid, bytes, cs);
      FetchStored(codec, blobs, Chunks(bytes, cs));
      JoinChunks(bytes, cs);
      assert codec.parse(codec.encode(ManifestOf(codec, bytes, cs))) == Some(ManifestOf(codec, bytes, cs));
    }
  }

  /** What a ranged read of these bytes means: the positions the header designates, or its rejection. */
  function RangeOf(bytes: Bytes, header: string): Result<(Bytes, u64, u64), ReadError>
    requires |bytes| < U64_LIMIT
  {
    match ParseRange(header, |bytes|)
    case Err(_) => Err(InvalidRange)
    case Ok((start, end)) => Ok((bytes[start..end + 1], start, end))
  }

  /** The content id reads as these bytes: whole, and by every range, whether or not the manifest fetch that
      precedes a ranged read gets through. */
  ghost predicate ReadsAs(codec: Codec, blobs: Blobs, cid: string, bytes: Bytes) {
    |bytes| < U64_LIMIT && GetObject(codec, blobs, cid) == Some(bytes)
    && forall header, reached :: RangedRead(codec, blobs, cid, |bytes|, header, reached) == RangeOf(bytes, header)
  }

  lemma StoredReads(codec: Codec, blobs: Blobs, cid: string, bytes: Bytes)
    requires codec.Lawful() && Stored(codec, blobs, cid, bytes)
    ensures ReadsAs(codec, blobs, cid, bytes)
  {
    hide GetObject, RangedRead, RangeOf;
    StoredLength(codec, blobs, cid, bytes);
    FullReadExact(codec, blobs, cid, bytes);
    forall header, reached
      ensures RangedRead(codec, blobs, cid, |bytes|, header, reached) == RangeOf(bytes, header)
    {
      RangedReadExact(codec, blobs, cid, bytes, header, reached);
    }
  }

  lemma StoredLength(codec: Codec, blobs: Blobs, cid: string, bytes: Bytes)
    requires Stored(codec, blobs, cid, bytes)
    ensures |bytes| < U64_LIMIT
  {
  }

  /** For every stored object whose recorded size is its length, every accepted header yields exactly the
      full object's bytes from start to end inclusive, and a rejected header is the only failure. */
  lemma RangedReadExact(codec: Codec, blobs: Blobs, cid: string, bytes: Bytes, header: string, reached: bool)
    requires codec.Lawful() && Stored(codec, blobs, cid, bytes) && |bytes| < U64_LIMIT
    ensures RangedRead(codec, blobs, cid, |bytes|, header, reached) == RangeOf(bytes, header)
    ensures GetObject(codec, blobs, cid) == Some(bytes)
  {
    hide ParseRange, Slice, Covering, FetchAll, Chunks, Join, Cids;
    FullReadExact(codec, blobs, cid, bytes);
    if reached && ParseRange(header, |bytes|).Ok? && !StoredInline(codec, blobs, cid, bytes) {
      var (start, end) := ParseRange(header, |bytes|).value;
      var cs: u64 :| StoredByManifest(codec, blobs, cid, bytes, cs);
      var m := ManifestOf(codec, bytes, cs);
      assert codec.parse(codec.encode(m)) == Some(m);
      CoveringExact(codec, bytes, cs, start, end);
      SelectRun(codec, Chunks(bytes, cs), ChunkOf(start, cs), ChunkOf(end, cs));
      FetchStored(codec, blobs, Chunks(bytes, cs)[ChunkOf(start, cs)..ChunkOf(end, cs) + 1]);
    }
  }

  lemma SelectRun(codec: Codec, chunks: seq<Bytes>, first: nat, last: nat)
    requires first <= last < |chunks|
    ensures Select(Cids(codec, chunks), Indices(first, last)) == Cids(codec, chunks[first..last + 1])
  {
    hide Cids, Select, Indices;
    var a, b := Select(Cids(codec, chunks), Indices(first, last)), Cids(codec, chunks[first..last + 1]);
    forall i | 0 <= i < last + 1 - first ensures a[i] == b[i] {
      assert Indices(first, last)[i] == first + i;
    }
  }

  // ---- reads that must fail ----

  /** A blob is served exactly when it is there and its content id is the one asked for. */
  lemma FetchChunkExactly(codec: Codec, blobs: Blobs, cid: string, bytes: Bytes)
    ensures FetchChunk(codec, blobs, cid) == Some(bytes) <==>
            cid in blobs && blobs[cid] == bytes && codec.cid(bytes) == cid
  {
  }

  /** The chunk is missing, or fails its content check. */
  predicate Unusable(codec: Codec, blobs: Blobs, cid: string) {
    cid !in blobs || codec.cid(blobs[cid]) != cid
  }

  /** Fetching chunks fails exactly when one of them is unusable. */
  lemma {:induction false} FetchAllFails(codec: Codec, blobs: Blobs, cids: seq<string>)
    ensures FetchAll(codec, blobs, cids) == None <==> exists c :: c in cids && Unusable(codec, blobs, c)
  {
    hide Unusable, FetchChunk;
    if cids != [] {
      var front, last := cids[..|cids| - 1], cids[|cids| - 1];
      FetchAllFails(codec, blobs, front);
      UsableIsFetched(codec, blobs, last);
      assert last in cids;
      forall c ensures c in cids <==> c in front || c == last {
        assert cids == front + [last];
      }
    }
  }

  lemma UsableIsFetched(codec: Codec, blobs: Blobs, cid: string)
    ensures FetchChunk(codec, blobs, cid) == None <==> Unusable(codec, blobs, cid)
  {
  }

  /** A whole read of an object with a manifest fails exactly when one of its chunks is unusable. */
  lemma CorruptChunkFailsRead(codec: Codec, blobs: Blobs, cid: string)
    requires FetchManifest(codec, blobs, cid).Some?
    ensures GetObject(codec, blobs, cid) == None <==>
            exists c :: c in FetchManifest(codec, blobs, cid).value.chunks && Unusable(codec, blobs, c)
  {
    FetchAllFails(codec, blobs, FetchManifest(codec, blobs, cid).value.chunks);
  }

  /** A ranged read fails in the back end whenever a chunk that its window needs is unusable. */
  lemma CorruptChunkFailsRange(codec: Codec, blobs: Blobs, cid: string, size: u64, header: string, i: nat)
    requires FetchManifest(codec, blobs, cid).Some? && ParseRange(header, size).Ok?
    requires var (start, end) := ParseRange(header, size).value;
             var m := FetchManifest(codec, blobs, cid).value;
             Covering(m, start, end).Ok? && i in Covering(m, start, end).value.chunkIndices
             && i < |m.chunks| && Unusable(codec, blobs, m.chunks[i])
    ensures RangedRead(codec, blobs, cid, size, header, true) == Err(Backend)
  {
    hide ParseRange, FetchAll, Select, Unusable;
    var (start, end) := ParseRange(header, size).value;
    var m := FetchManifest(codec, blobs, cid).value;
    var indices := Covering(m, start, end).value.chunkIndices;
    CoveringInRange(m, start, end);
    SelectHolds(m.chunks, indices, i);
    FetchAllFails(codec, blobs, Select(m.chunks, indices));
  }

  lemma SelectHolds(s: seq<string>, indices: seq<nat>, i: nat)
    requires i in indices && forall k :: k in indices ==> k < |s|
    ensures s[i] in Select(s, indices)
  {
    hide Select;
    var x :| 0 <= x < |indices| && indices[x] == i;
    assert forall y :: 0 <= y < |indices| ==> indices[y] in indices;
    assert Select(s, indices)[x] == s[indices[x]];
  }

  /** A manifest is one blob, parsed, of the supported kind. */
  lemma FetchManifestExactly(codec: Codec, blobs: Blobs, cid: string, m: Manifest)
    ensures FetchManifest(codec, blobs, cid) == Some(m) <==>
            m.kind == V1 && exists bytes :: cid in blobs && blobs[cid] == bytes && codec.parse(bytes) == Some(m)
  {
  }
}
