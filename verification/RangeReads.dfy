/** Ranged reads: `src/range.rs` and `get_object_range_opts` of `src/store.rs`. */
module RangeReads {
  import opened Basics
  import opened Division
  import opened Search
  import opened Text
  import opened Manifests

  datatype RangeError = BadUnit | MultipleRanges | Malformed | Unsatisfiable

  /** The start and end of a range given its two trimmed halves, before the final check. */
  function Bounds(a: string, b: string, size: u64): (r: Result<(u64, u64), RangeError>)
    requires 0 < size
    ensures r.Err? ==> r.error.Malformed? || r.error.Unsatisfiable?
  {
    if a == "" then
      match ParseUnsigned(b, U64_LIMIT)
      case None => Err(Malformed)
      case Some(n) => if n == 0 then Err(Unsatisfiable) else Ok((size - Min(n, size), size - 1))
    else if b == "" then
      match ParseUnsigned(a, U64_LIMIT)
      case None => Err(Malformed)
      case Some(s) => Ok((s, size - 1))
    else
      match (ParseUnsigned(a, U64_LIMIT), ParseUnsigned(b, U64_LIMIT))
      case (Some(s), Some(e)) => Ok((s, Min(e, size - 1)))
      case _ => Err(Malformed)
  }

  /** `parse_range`. Whatever it accepts is a window inside the object. */
  function ParseRange(header: string, size: u64): (r: Result<(u64, u64), RangeError>)
    ensures r.Ok? ==> r.value.0 <= r.value.1 < size
  {
    var trimmed := Trim(header);
    if !StartsWith(trimmed, "bytes=") then Err(BadUnit)
    else
      var spec := trimmed[6..];
      if ',' in spec then Err(MultipleRanges)
      else
        var dash := Find(spec, "-");
        if dash.None? then Err(Malformed)
        else if size == 0 then Err(Unsatisfiable)
        else
          match Bounds(Trim(spec[..dash.value]), Trim(spec[dash.value + 1..]), size)
          case Err(e) => Err(e)
          case Ok((start, end)) =>
            if start > end || start >= size then Err(Unsatisfiable) else Ok((start, end))
  }

  // ---- the byte ranges of section 14.1.2 of RFC 9110 ----

  /** One range-spec, as its digit strings. */
  datatype ByteRange = FromTo(first: string, last: string) | From(start: string) | Suffix(length: string)
  {
    predicate Wellformed() {
      match this
      case FromTo(a, b) => a != "" && b != "" && AllDigits(a) && AllDigits(b)
      case From(a) => a != "" && AllDigits(a)
      case Suffix(n) => n != "" && AllDigits(n)
    }

    function Header(): string {
      match this
      case FromTo(a, b) => "bytes=" + a + "-" + b
      case From(a) => "bytes=" + a + "-"
      case Suffix(n) => "bytes=" + "-" + n
    }

    /** A last position below the first makes the range invalid. */
    predicate Valid()
      requires Wellformed()
    {
      FromTo? ==> Numeral(first) <= Numeral(last)
    }

    predicate Satisfiable(size: u64)
      requires Wellformed()
    {
      match this
      case FromTo(a, _) => Numeral(a) < size
      case From(a) => Numeral(a) < size
      case Suffix(n) => Numeral(n) != 0
    }

    predicate FitsU64()
      requires Wellformed()
    {
      match this
      case FromTo(a, b) => Numeral(a) < U64_LIMIT && Numeral(b) < U64_LIMIT
      case From(a) => Numeral(a) < U64_LIMIT
      case Suffix(n) => Numeral(n) < U64_LIMIT
    }

    /** Does the range designate position `p` of an object of this size? */
    predicate Designates(size: u64, p: nat)
      requires Wellformed()
    {
      p < size
      && match this
         case FromTo(a, b) => Numeral(a) <= p <= Numeral(b)
         case From(a) => Numeral(a) <= p
         case Suffix(n) => size - Numeral(n) <= p
    }
  }

  lemma DigitsTight(s: string)
    requires AllDigits(s)
    ensures Trim(s) == s
    ensures forall i :: 0 <= i < |s| ==> s[i] != '-' && s[i] != ','
  {
    forall i | 0 <= i < |s| ensures !IsWhitespace(s[i]) && s[i] != '-' && s[i] != ',' {
      assert IsDigit(s[i]);
    }
    TrimTight(s, IsWhitespace);
  }

  lemma SplitAtDash(a: string, b: string)
    requires AllDigits(a) && AllDigits(b)
    ensures var spec := a + "-" + b;
            Find(spec, "-") == Some(|a|) && ',' !in spec && spec[..|a|] == a && spec[|a| + 1..] == b
  {
    var spec := a + "-" + b;
    DigitsTight(a);
    DigitsTight(b);
    assert spec[|a|..|a| + 1] == "-";
    forall j | 0 <= j < |a| ensures !OccursAt(spec, "-", j) {
      if OccursAt(spec, "-", j) { OccursAtIndex(spec, "-", j, 0); }
    }
    FindIs(spec, "-", |a|);
  }

  /** On a header of this shape, parsing is reading the two halves. */
  lemma ParseSplit(a: string, b: string, size: u64)
    requires AllDigits(a) && AllDigits(b)
    ensures ParseRange("bytes=" + a + "-" + b, size) ==
            if size == 0 then Err(Unsatisfiable)
            else match Bounds(a, b, size)
                 case Err(e) => Err(e)
                 case Ok((s, e)) => if s > e || s >= size then Err(Unsatisfiable) else Ok((s, e))
  {
    hide Bounds, TrimStart, TrimEnd, Find;
    var spec := a + "-" + b;
    var header := "bytes=" + spec;
    assert "bytes=" + a + "-" + b == header;
    SplitAtDash(a, b);
    DigitsTight(a);
    DigitsTight(b);
    assert Tight(header, IsWhitespace) by {
      if b == "" { assert header[|header| - 1] == '-'; } else { assert IsDigit(b[|b| - 1]); }
    }
    TrimTight(header, IsWhitespace);
    assert header[..6] == "bytes=" && header[6..] == spec;
  }

  lemma ParseDigits(s: string)
    requires s != "" && AllDigits(s)
    ensures ParseUnsigned(s, U64_LIMIT) == if Numeral(s) < U64_LIMIT then Some(Numeral(s)) else None
  {
    assert IsDigit(s[0]);
  }

  lemma ParseShape(r: ByteRange, size: u64)
    requires r.Wellformed()
    ensures ParseRange(r.Header(), size).Ok? <==>
            r.FitsU64() && r.Valid() && r.Satisfiable(size) && size != 0
    ensures ParseRange(r.Header(), size).Ok? ==>
              var (s, e) := ParseRange(r.Header(), size).value;
              match r
              case FromTo(a, b) => s == Numeral(a) && e == Min(Numeral(b), size - 1)
              case From(a) => s == Numeral(a) && e == size - 1
              case Suffix(n) => s == size - Min(Numeral(n), size) && e == size - 1
    ensures ParseRange(r.Header(), size).Err? ==>
              ParseRange(r.Header(), size).error == if size == 0 || r.FitsU64() then Unsatisfiable else Malformed
  {
    hide ParseRange, ParseUnsigned, Numeral;
    match r
    case FromTo(a, b) =>
      ParseSplit(a, b, size);
      ParseDigits(a);
      ParseDigits(b);
    case From(a) =>
      assert "bytes=" + a + "-" == "bytes=" + a + "-" + "";
      ParseSplit(a, "", size);
      ParseDigits(a);
    case Suffix(n) =>
      assert "bytes=" + "-" + n == "bytes=" + "" + "-" + n;
      ParseSplit("", n, size);
      ParseDigits(n);
  }

  /** On every single byte range, parsing succeeds exactly when the range is valid and satisfiable, its
      numbers fit in 64 bits and the object is not empty; and it returns precisely the designated
      positions. Otherwise the range is called unsatisfiable, or malformed if a number does not fit. */
  lemma ParseExact(r: ByteRange, size: u64)
    requires r.Wellformed()
    ensures ParseRange(r.Header(), size).Ok? <==>
            r.Valid() && r.Satisfiable(size) && r.FitsU64() && size != 0
    ensures ParseRange(r.Header(), size).Ok? ==>
              var (s, e) := ParseRange(r.Header(), size).value;
              forall p: nat :: r.Designates(size, p) <==> s <= p <= e
    ensures ParseRange(r.Header(), size).Err? ==>
              ParseRange(r.Header(), size).error == if size == 0 || r.FitsU64() then Unsatisfiable else Malformed
  {
    hide ParseRange;
    ParseShape(r, size);
  }

  /** Where the code departs from the standard: a suffix of an empty object is satisfiable, and refused. */
  lemma SuffixOfEmptyObject()
    ensures var r := Suffix("5");
            r.Wellformed() && r.Valid() && r.Satisfiable(0) && r.FitsU64() && ParseRange(r.Header(), 0).Err?
  {
    var r := Suffix("5");
    assert IsDigit("5"[0]);
    assert "5"[..0] == "";
    assert Numeral("5") == 5;
    ParseShape(r, 0);
  }

  /** Printing a window and parsing it gives the window back. */
  lemma ParsePrinted(start: u64, end: u64, size: u64)
    requires start <= end < size
    ensures ParseRange("bytes=" + Decimal(start) + "-" + Decimal(end), size) == Ok((start, end))
  {
    ParseShape(FromTo(Decimal(start), Decimal(end)), size);
  }

  /** Any header at all is accepted exactly when, trimmed, it is `bytes=`, two halves without commas and the first
      dash between them, and the trimmed halves bound a window of the object. */
  lemma ParseRangeExactly(header: string, size: u64, start: u64, end: u64)
    ensures ParseRange(header, size) == Ok((start, end)) <==>
            size != 0 && start <= end && start < size
            && exists a, b ::
              Trim(header) == "bytes=" + (a + "-" + b) && '-' !in a && ',' !in a && ',' !in b
              && Bounds(Trim(a), Trim(b), size) == Ok((start, end))
  {
    hide Bounds, Trim;
    var trimmed := Trim(header);
    if ParseRange(header, size) == Ok((start, end)) {
      var spec := trimmed[6..];
      var dash := Find(spec, "-").value;
      assert trimmed == "bytes=" + spec;
      var a, b := spec[..dash], spec[dash + 1..];
      assert spec[dash..dash + 1] == "-";
      assert spec == a + "-" + b;
      forall i | 0 <= i < |a| ensures a[i] != '-' {
        assert !OccursAt(spec, "-", i);
        assert spec[i..i + 1] == [a[i]];
      }
    }
    forall a, b | trimmed == "bytes=" + (a + "-" + b) && '-' !in a
      ensures trimmed[..6] == "bytes=" && trimmed[6..] == a + "-" + b
      ensures Find(a + "-" + b, "-") == Some(|a|) && (a + "-" + b)[..|a|] == a && (a + "-" + b)[|a| + 1..] == b
    {
      FirstDash(a, b);
    }
  }

  /** Which headers are refused for their unit, and which for naming several ranges. */
  lemma ParseRefuses(header: string, size: u64)
    ensures ParseRange(header, size) == Err(BadUnit) <==> !exists spec :: Trim(header) == "bytes=" + spec
    ensures ParseRange(header, size) == Err(MultipleRanges) <==>
            exists a, b :: Trim(header) == "bytes=" + (a + "," + b)
  {
    hide Bounds, Trim;
    var trimmed := Trim(header);
    StartsWithExactly(trimmed, "bytes=");
    if StartsWith(trimmed, "bytes=") {
      var spec := trimmed[6..];
      assert trimmed == "bytes=" + spec;
      if ',' in spec {
        var i :| 0 <= i < |spec| && spec[i] == ',';
        assert spec == spec[..i] + "," + spec[i + 1..];
      }
      forall a, b | trimmed == "bytes=" + (a + "," + b) ensures ',' in spec {
        assert spec == a + "," + b && spec[|a|] == ',';
      }
    }
  }

  lemma FirstDash(a: string, b: string)
    requires '-' !in a
    ensures Find(a + "-" + b, "-") == Some(|a|)
  {
    var spec := a + "-" + b;
    assert spec[|a|..|a| + 1] == "-";
    forall j | 0 <= j < |a| ensures !OccursAt(spec, "-", j) {
      assert spec[j] == a[j] && a[j] in a;
      if OccursAt(spec, "-", j) { OccursAtIndex(spec, "-", j, 0); }
    }
    FindIs(spec, "-", |a|);
  }

  // ---- covering chunks ----

  datatype CoveringRange = CoveringRange(
    start: u64, end: u64, length: nat, chunkIndices: seq<nat>, offsetInFirst: nat)

  datatype CoverError = ZeroChunkSize | OutOfBounds | TooFewChunks

  function Indices(first: nat, last: nat): (r: seq<nat>)
    requires first <= last + 1
    ensures |r| == last + 1 - first
    ensures forall i :: 0 <= i < |r| ==> r[i] == first + i
    decreases last + 1 - first
  {
    if first == last + 1 then [] else [first] + Indices(first + 1, last)
  }

  function Covering(m: Manifest, start: u64, end: u64): Result<CoveringRange, CoverError> {
    if m.chunkSize == 0 then Err(ZeroChunkSize)
    else if start > end || end >= m.totalSize then Err(OutOfBounds)
    else
      var first, last := ChunkOf(start, m.chunkSize), ChunkOf(end, m.chunkSize);
      if last >= |m.chunks| then Err(TooFewChunks)
      else
        ChunkOrder(start, end, m.chunkSize);
        Ok(CoveringRange(start, end, end - start + 1, Indices(first, last), start - Boundary(first, m.chunkSize)))
  }

  lemma ChunkOrder(a: nat, b: nat, cs: nat)
    requires 0 < cs && a <= b
    ensures ChunkOf(a, cs) <= ChunkOf(b, cs)
  {
    hide ChunkOf, Boundary;
    BoundaryOrder(ChunkOf(b, cs), ChunkOf(a, cs), cs);
  }

  function Slice(range: CoveringRange, concat: Bytes): Option<Bytes> {
    if range.offsetInFirst + range.length > |concat| then None
    else Some(concat[range.offsetInFirst..range.offsetInFirst + range.length])
  }

  /** The chunks whose indices run from `first` to `last`, joined, are the bytes between the boundaries. */
  lemma ChunkRun(bytes: Bytes, cs: nat, first: nat, last: nat)
    requires 0 < cs && first <= last && Boundary(last, cs) < |bytes|
    ensures last < |Chunks(bytes, cs)|
    ensures Boundary(first, cs) <= Boundary(last, cs)
    ensures Join(Chunks(bytes, cs)[first..last + 1])
         == bytes[Boundary(first, cs)..Min(Boundary(last, cs) + cs, |bytes|)]
  {
    hide Boundary, Chunks, Join;
    BoundaryOrder(first, last, cs);
    var lo, mid, hi := Boundary(first, cs), Boundary(last, cs), Min(Boundary(last, cs) + cs, |bytes|);
    var all := Chunks(bytes, cs);
    // The chunks before `last` and the chunk at `last`.
    ChunksSplit(bytes, cs, last);
    SplitFirst(bytes[mid..], cs);
    assert bytes[mid..][..Min(cs, |bytes[mid..]|)] == bytes[mid..hi];
    assert all[..last + 1] == Chunks(bytes[..mid], cs) + [bytes[mid..hi]];
    // The chunks before `first` leave the ones wanted.
    ChunksSplit(bytes[..mid], cs, first);
    assert bytes[..mid][..lo] == bytes[..lo] && bytes[..mid][lo..] == bytes[lo..mid];
    assert all[first..last + 1] == all[..last + 1][first..] == Chunks(bytes[lo..mid], cs) + [bytes[mid..hi]];
    JoinLast(Chunks(bytes[lo..mid], cs), bytes[mid..hi]);
    JoinChunks(bytes[lo..mid], cs);
    assert bytes[lo..mid] + bytes[mid..hi] == bytes[lo..hi];
  }

  lemma SplitFirst(bytes: Bytes, cs: nat)
    requires 0 < cs && bytes != []
    ensures Chunks(bytes, cs) != [] && Chunks(bytes, cs)[0] == bytes[..Min(cs, |bytes|)]
  {
  }

  /** A covering range of a well-formed manifest never fails, and slicing its chunks gives the window. */
  lemma CoveringExact(codec: Codec, bytes: Bytes, cs: u64, start: u64, end: u64)
    requires 0 < cs && |bytes| < U64_LIMIT && start <= end < |bytes|
    ensures var r := Covering(ManifestOf(codec, bytes, cs), start, end);
            var first, last := ChunkOf(start, cs), ChunkOf(end, cs);
            r.Ok? && first <= last < |Chunks(bytes, cs)|
            && r.value.chunkIndices == Indices(first, last)
            && Slice(r.value, Join(Chunks(bytes, cs)[first..last + 1])) == Some(bytes[start..end + 1])
  {
    hide ChunkOf, Boundary, Chunks, Join, Indices;
    var first, last := ChunkOf(start, cs), ChunkOf(end, cs);
    ChunkOrder(start, end, cs);
    ChunkRun(bytes, cs, first, last);
    var joined := Join(Chunks(bytes, cs)[first..last + 1]);
    var off := start - Boundary(first, cs);
    SliceOfSlice(bytes, start - off, Min(Boundary(last, cs) + cs, |bytes|), off, off + (end - start + 1));
  }

  /** When covering succeeds, on any manifest at all, and where the window lies in the first chunk. */
  lemma CoveringExactly(m: Manifest, start: u64, end: u64)
    ensures Covering(m, start, end).Ok? <==>
            m.chunkSize != 0 && start <= end < m.totalSize && end < Boundary(|m.chunks|, m.chunkSize)
    ensures Covering(m, start, end).Ok? ==>
              var cov := Covering(m, start, end).value;
              cov.start == start && cov.end == end && cov.length == end - start + 1
              && cov.chunkIndices != [] && cov.offsetInFirst < m.chunkSize
              && start == Boundary(cov.chunkIndices[0], m.chunkSize) + cov.offsetInFirst
    ensures Covering(m, start, end).Err? ==>
              Covering(m, start, end).error ==
              if m.chunkSize == 0 then ZeroChunkSize
              else if start <= end < m.totalSize then TooFewChunks else OutOfBounds
  {
    hide ChunkOf, Boundary;
    if m.chunkSize != 0 && start <= end {
      var cs := m.chunkSize;
      ChunkOrder(start, end, cs);
      BoundaryOrder(ChunkOf(end, cs), |m.chunks|, cs);
      BoundaryOrder(|m.chunks|, ChunkOf(end, cs), cs);
    }
  }

  lemma SliceExactly(range: CoveringRange, concat: Bytes, window: Bytes)
    ensures Slice(range, concat) == Some(window) <==>
            |window| == range.length
            && exists before, after :: |before| == range.offsetInFirst && concat == before + window + after
  {
    if Slice(range, concat) == Some(window) {
      var n := range.offsetInFirst;
      assert concat == concat[..n] + window + concat[n + |window|..];
    }
  }

  /** Byte `p` of the object lies in chunk `i`. */
  predicate InChunk(m: Manifest, i: nat, p: nat) {
    Boundary(i, m.chunkSize) <= p < Boundary(i, m.chunkSize) + m.chunkSize
  }

  /** The fetched chunks are exactly those that intersect the window. */
  lemma FetchedChunksIntersect(m: Manifest, start: u64, end: u64, i: nat)
    requires Covering(m, start, end).Ok?
    ensures i in Covering(m, start, end).value.chunkIndices <==> exists p: nat :: start <= p <= end && InChunk(m, i, p)
  {
    hide ChunkOf, Boundary;
    var cs := m.chunkSize;
    var first, last := ChunkOf(start, cs), ChunkOf(end, cs);
    var indices := Covering(m, start, end).value.chunkIndices;
    ChunkOrder(start, end, cs);
    BoundaryOrder(first, i, cs);
    BoundaryOrder(i, last, cs);
    if first <= i <= last {
      assert indices[i - first] == i;
      assert InChunk(m, i, if i == first then start else Boundary(i, cs));
    }
    if p: nat :| start <= p <= end && InChunk(m, i, p) {
      ChunkUnique(p, cs, i);
      ChunkOrder(start, p, cs);
      ChunkOrder(p, end, cs);
    }
  }
}
