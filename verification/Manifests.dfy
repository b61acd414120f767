/** Content-addressed objects: fixed-size chunking, manifests, and the blob store that holds both. The
    blob client and the serialised form of a manifest live outside the repository, so they enter as a
    codec about which only injectivity and the parse/print round trip are assumed. */
module Manifests {
  import opened Basics
  import opened Division

  type Bytes = seq<bv8>

  datatype Kind = V1 | OtherKind(name: string)

  datatype Manifest = Manifest(kind: Kind, chunkSize: u64, totalSize: u64, chunks: seq<string>)

  datatype Codec = Codec(
    cid: Bytes -> string,
    encode: Manifest -> Bytes,
    parse: Bytes -> Option<Manifest>)
  {
    /** Equal content ids mean equal bytes, and a printed manifest parses back. */
    ghost predicate Lawful() {
      (forall a, b :: cid(a) == cid(b) ==> a == b)
      && (forall m :: parse(encode(m)) == Some(m))
    }
  }

  /** Splitting into chunks of `cs` bytes, the last possibly shorter. */
  function Chunks(bytes: Bytes, cs: nat): (chunks: seq<Bytes>)
    requires 0 < cs
    decreases |bytes|
  {
    if bytes == [] then []
    else if |bytes| <= cs then [bytes]
    else [bytes[..cs]] + Chunks(bytes[cs..], cs)
  }

  function Join(chunks: seq<Bytes>): Bytes {
    if chunks == [] then [] else chunks[0] + Join(chunks[1..])
  }

  function Cids(codec: Codec, chunks: seq<Bytes>): (cids: seq<string>)
    ensures |cids| == |chunks|
    ensures forall i :: 0 <= i < |chunks| ==> cids[i] == codec.cid(chunks[i])
  {
    if chunks == [] then [] else [codec.cid(chunks[0])] + Cids(codec, chunks[1..])
  }

  /** The manifest `chunk_object` builds. */
  function ManifestOf(codec: Codec, bytes: Bytes, cs: u64): Manifest
    requires 0 < cs && |bytes| < U64_LIMIT
  {
    Manifest(V1, cs, |bytes|, Cids(codec, Chunks(bytes, cs)))
  }

  // ---- chunking facts ----

  lemma {:induction false} JoinChunks(bytes: Bytes, cs: nat)
    requires 0 < cs
    ensures Join(Chunks(bytes, cs)) == bytes
    decreases |bytes|
  {
    if |bytes| > cs {
      JoinChunks(bytes[cs..], cs);
      assert ([bytes[..cs]] + Chunks(bytes[cs..], cs))[1..] == Chunks(bytes[cs..], cs);
    }
  }

  lemma {:induction false} JoinLast(chunks: seq<Bytes>, last: Bytes)
    ensures Join(chunks + [last]) == Join(chunks) + last
  {
    if chunks != [] {
      JoinLast(chunks[1..], last);
      assert (chunks + [last])[1..] == chunks[1..] + [last];
    } else {
      assert [last][1..] == [];
    }
  }

  /** Chunking commutes with concatenation when the first piece is a whole number of chunks. */
  lemma {:induction false} ChunksConcat(a: Bytes, b: Bytes, cs: nat)
    requires 0 < cs && |a| % cs == 0
    ensures Chunks(a + b, cs) == Chunks(a, cs) + Chunks(b, cs)
    decreases |a|
  {
    if a == [] {
      assert a + b == b;
    } else {
      DivideStep(|a|, cs);
      assert (a + b)[..cs] == a[..cs] && (a + b)[cs..] == a[cs..] + b;
      ChunksConcat(a[cs..], b, cs);
      if b == [] {
        assert a + b == a;
      } else {
        FirstChunk(a, cs);
      }
    }
  }

  lemma DivideStep(n: nat, cs: nat)
    requires 0 < cs && 0 < n && n % cs == 0
    ensures cs <= n && (n - cs) % cs == 0
  {
    if n < cs { SmallDivision(n, cs); } else { RemainderStep(n, cs); }
  }

  lemma FirstChunk(a: Bytes, cs: nat)
    requires 0 < cs <= |a|
    ensures Chunks(a, cs) == [a[..cs]] + Chunks(a[cs..], cs)
  {
    if |a| == cs { assert a[..cs] == a && a[cs..] == []; }
  }

  /** The number of chunks is the size divided by the chunk size, rounded up. */
  lemma {:induction false} ChunkCount(bytes: Bytes, cs: nat)
    requires 0 < cs
    ensures |Chunks(bytes, cs)| == (|bytes| + cs - 1) / cs
    decreases |bytes|
  {
    if bytes == [] {
      SmallDivision(cs - 1, cs);
    } else if |bytes| <= cs {
      RemainderStep(|bytes| + cs - 1, cs);
      SmallDivision(|bytes| - 1, cs);
    } else {
      ChunkCount(bytes[cs..], cs);
      RemainderStep(|bytes| + cs - 1, cs);
    }
  }

  /** Cutting at a chunk boundary cuts the chunk list there. */
  lemma {:induction false} ChunksSplit(bytes: Bytes, cs: nat, k: nat)
    requires 0 < cs && Boundary(k, cs) <= |bytes|
    ensures |Chunks(bytes[..Boundary(k, cs)], cs)| == k
    ensures Chunks(bytes, cs) == Chunks(bytes[..Boundary(k, cs)], cs) + Chunks(bytes[Boundary(k, cs)..], cs)
    decreases k
  {
    hide Boundary, Chunks;
    var n := Boundary(k, cs);
    if k == 0 {
      BoundaryStep(0, cs);
      NoChunks(cs);
      assert bytes[..n] == [] && bytes[n..] == bytes;
    } else {
      BoundaryStep(k - 1, cs);
      var rest := bytes[cs..];
      FirstChunk(bytes, cs);
      FirstChunk(bytes[..n], cs);
      ChunksSplit(rest, cs, k - 1);
      assert bytes[..n][..cs] == bytes[..cs] && bytes[..n][cs..] == rest[..Boundary(k - 1, cs)];
      assert rest[Boundary(k - 1, cs)..] == bytes[n..];
    }
  }

  lemma NoChunks(cs: nat)
    requires 0 < cs
    ensures Chunks([], cs) == []
  {
  }

  lemma {:induction false} CidsConcat(codec: Codec, a: seq<Bytes>, b: seq<Bytes>)
    ensures Cids(codec, a + b) == Cids(codec, a) + Cids(codec, b)
  {
  }

  lemma CidsInjective(codec: Codec, a: seq<Bytes>, b: seq<Bytes>)
    requires codec.Lawful() && Cids(codec, a) == Cids(codec, b)
    ensures a == b
  {
    assert |a| == |b|;
    forall i | 0 <= i < |a| ensures a[i] == b[i] {
      assert codec.cid(a[i]) == Cids(codec, a)[i] == codec.cid(b[i]);
    }
  }

  /** The content id of a manifest pins the bytes it was built from. */
  lemma ManifestPinsBytes(codec: Codec, a: Bytes, b: Bytes, cs: u64)
    requires codec.Lawful() && 0 < cs && |a| < U64_LIMIT && |b| < U64_LIMIT
    requires codec.cid(codec.encode(ManifestOf(codec, a, cs))) == codec.cid(codec.encode(ManifestOf(codec, b, cs)))
    ensures a == b
  {
    var m, n := ManifestOf(codec, a, cs), ManifestOf(codec, b, cs);
    assert codec.encode(m) == codec.encode(n);
    assert codec.parse(codec.encode(m)) == Some(m) && codec.parse(codec.encode(n)) == Some(n);
    CidsInjective(codec, Chunks(a, cs), Chunks(b, cs));
    JoinChunks(a, cs);
    JoinChunks(b, cs);
  }

  // ---- the blob store ----

  type Blobs = map<string, Bytes>

  /** Every blob is stored under its own content id. */
  ghost predicate Honest(codec: Codec, blobs: Blobs) {
    forall c :: c in blobs ==> c == codec.cid(blobs[c])
  }

  ghost predicate Holds(codec: Codec, blobs: Blobs, bytes: Bytes) {
    codec.cid(bytes) in blobs && blobs[codec.cid(bytes)] == bytes
  }

  ghost predicate HoldsAll(codec: Codec, blobs: Blobs, chunks: seq<Bytes>) {
    forall i :: 0 <= i < |chunks| ==> Holds(codec, blobs, chunks[i])
  }

  /** `cid` names `bytes` through a stored manifest, all of whose chunks are stored. */
  ghost predicate StoredByManifest(codec: Codec, blobs: Blobs, cid: string, bytes: Bytes, cs: u64) {
    0 < cs && |bytes| < U64_LIMIT
    && cid == codec.cid(codec.encode(ManifestOf(codec, bytes, cs)))
    && Holds(codec, blobs, codec.encode(ManifestOf(codec, bytes, cs)))
    && HoldsAll(codec, blobs, Chunks(bytes, cs))
  }

  /** `cid` names `bytes` as a single blob that cannot be taken for a manifest. */
  ghost predicate StoredInline(codec: Codec, blobs: Blobs, cid: string, bytes: Bytes) {
    |bytes| < U64_LIMIT && cid == codec.cid(bytes) && Holds(codec, blobs, bytes)
    && (codec.parse(bytes).Some? ==> codec.parse(bytes).value.kind != V1)
  }

  ghost predicate Stored(codec: Codec, blobs: Blobs, cid: string, bytes: Bytes) {
    StoredInline(codec, blobs, cid, bytes) || exists cs: u64 :: StoredByManifest(codec, blobs, cid, bytes, cs)
  }

  /** The store only grows, and what it names stays named. */
  ghost predicate Grows(a: Blobs, b: Blobs) {
    forall c :: c in a ==> c in b && b[c] == a[c]
  }

  lemma StoredGrows(codec: Codec, a: Blobs, b: Blobs, cid: string, bytes: Bytes)
    requires Grows(a, b) && Stored(codec, a, cid, bytes)
    ensures Stored(codec, b, cid, bytes)
  {
    if !StoredInline(codec, a, cid, bytes) {
      var cs: u64 :| StoredByManifest(codec, a, cid, bytes, cs);
      assert StoredByManifest(codec, b, cid, bytes, cs);
    }
  }
}
