/** A codec that meets every assumption the proofs make of one, so that none of them speaks of nothing: content
    ids spell out the bits, manifests are printed in unary. */
module ExampleCodec {
  import opened Basics
  import opened Text
  import opened BucketModel
  import opened History
  import opened Manifests
  import opened Guarantees

  // ---- content ids ----

  function Bit(b: bv8, mask: bv8): char {
    if b & mask == 0 then '0' else '1'
  }

  function Bits(b: bv8): (s: string)
    ensures |s| == 8 && forall i :: 0 <= i < 8 ==> IsDigit(s[i])
  {
    [Bit(b, 1), Bit(b, 2), Bit(b, 4), Bit(b, 8), Bit(b, 16), Bit(b, 32), Bit(b, 64), Bit(b, 128)]
  }

  function AllBits(bytes: Bytes): (s: string)
    ensures AllDigits(s)
  {
    if bytes == [] then "" else Bits(bytes[0]) + AllBits(bytes[1..])
  }

  function Cid(bytes: Bytes): string {
    "c" + AllBits(bytes)
  }

  lemma MasksPinByte(a: bv8, b: bv8)
    requires a & 1 == b & 1 && a & 2 == b & 2 && a & 4 == b & 4 && a & 8 == b & 8
    requires a & 16 == b & 16 && a & 32 == b & 32 && a & 64 == b & 64 && a & 128 == b & 128
    ensures a == b
  {
  }

  lemma BitPins(a: bv8, b: bv8, mask: bv8)
    requires mask == 1 || mask == 2 || mask == 4 || mask == 8 || mask == 16 || mask == 32 || mask == 64 || mask == 128
    ensures Bit(a, mask) == Bit(b, mask) <==> a & mask == b & mask
  {
  }

  lemma BitsPinByte(a: bv8, b: bv8)
    requires Bits(a) == Bits(b)
    ensures a == b
  {
    hide Bit;
    var s, t := Bits(a), Bits(b);
    assert s[0] == t[0] && s[1] == t[1] && s[2] == t[2] && s[3] == t[3];
    assert s[4] == t[4] && s[5] == t[5] && s[6] == t[6] && s[7] == t[7];
    BitPins(a, b, 1);
    BitPins(a, b, 2);
    BitPins(a, b, 4);
    BitPins(a, b, 8);
    BitPins(a, b, 16);
    BitPins(a, b, 32);
    BitPins(a, b, 64);
    BitPins(a, b, 128);
    MasksPinByte(a, b);
  }

  lemma {:induction false} AllBitsInjective(a: Bytes, b: Bytes)
    requires AllBits(a) == AllBits(b)
    ensures a == b
    decreases |a|
  {
    hide Bits;
    if a != [] && b != [] {
      assert AllBits(a)[..8] == Bits(a[0]) && AllBits(b)[..8] == Bits(b[0]);
      assert AllBits(a)[8..] == AllBits(a[1..]) && AllBits(b)[8..] == AllBits(b[1..]);
      BitsPinByte(a[0], b[0]);
      AllBitsInjective(a[1..], b[1..]);
    }
  }

  lemma CidPinsBytes(a: Bytes, b: Bytes)
    requires Cid(a) == Cid(b)
    ensures a == b
  {
    hide AllBits;
    assert Cid(a)[1..] == AllBits(a) && Cid(b)[1..] == AllBits(b);
    AllBitsInjective(a, b);
  }

  lemma CidPlain(bytes: Bytes)
    ensures Tight(Cid(bytes), IsQuote) && !IsMarkerId(Cid(bytes))
  {
    hide AllBits;
    var s := Cid(bytes);
    assert s[0] == 'c';
    assert |s| > 1 ==> s[|s| - 1] == AllBits(bytes)[|s| - 2];
    forall n: u64 ensures s != MarkerId(n) {
      assert MarkerId(n)[0] == 'd';
    }
  }

  // ---- manifests ----

  function Unary(n: nat): (s: Bytes)
    ensures |s| == n + 1 && s[n] == 0 && forall i :: 0 <= i < n ==> s[i] == 1
  {
    seq(n, _ => 1 as bv8) + [0]
  }

  lemma UnaryReads(a: nat, x: Bytes, b: nat, y: Bytes)
    requires Unary(a) + x == Unary(b) + y
    ensures a == b && x == y
  {
    hide Unary;
    var s, t := Unary(a) + x, Unary(b) + y;
    assert s[a] == 0 && t[b] == 0;
    assert forall i :: 0 <= i < a ==> s[i] == 1;
    assert forall i :: 0 <= i < b ==> t[i] == 1;
    assert s[a + 1..] == x && t[b + 1..] == y;
  }

  function Word(s: string): Bytes {
    if s == "" then Unary(0) else Unary(1 + s[0] as nat) + Word(s[1..])
  }

  lemma {:induction false} WordReads(s: string, x: Bytes, t: string, y: Bytes)
    requires Word(s) + x == Word(t) + y
    ensures s == t && x == y
    decreases |s|
  {
    hide Unary;
    var a, b := if s == "" then 0 else 1 + s[0] as nat, if t == "" then 0 else 1 + t[0] as nat;
    var u, v := if s == "" then x else Word(s[1..]) + x, if t == "" then y else Word(t[1..]) + y;
    assert Word(s) + x == Unary(a) + u && Word(t) + y == Unary(b) + v;
    UnaryReads(a, u, b, v);
    if s != "" { WordReads(s[1..], x, t[1..], y); }
  }

  function Words(ss: seq<string>): Bytes {
    if ss == [] then Unary(0) else Unary(1) + (Word(ss[0]) + Words(ss[1..]))
  }

  lemma {:induction false} WordsRead(s: seq<string>, t: seq<string>)
    requires Words(s) == Words(t)
    ensures s == t
    decreases |s|
  {
    hide Unary, Word;
    var u, v := if s == [] then [] else Word(s[0]) + Words(s[1..]), if t == [] then [] else Word(t[0]) + Words(t[1..]);
    var a, b := if s == [] then 0 else 1, if t == [] then 0 else 1;
    assert Words(s) == Unary(a) + u && Words(t) == Unary(b) + v;
    UnaryReads(a, u, b, v);
    if s != [] {
      WordReads(s[0], Words(s[1..]), t[0], Words(t[1..]));
      WordsRead(s[1..], t[1..]);
    }
  }

  function KindName(kind: Kind): seq<string> {
    match kind
    case V1 => []
    case OtherKind(name) => [name]
  }

  function Encode(m: Manifest): Bytes {
    Unary(m.chunkSize) + (Unary(m.totalSize) + (Unary(|KindName(m.kind)|) + Words(KindName(m.kind) + m.chunks)))
  }

  lemma EncodeInjective(m: Manifest, n: Manifest)
    requires Encode(m) == Encode(n)
    ensures m == n
  {
    hide Unary, Words;
    var a, b := Unary(|KindName(m.kind)|) + Words(KindName(m.kind) + m.chunks),
                Unary(|KindName(n.kind)|) + Words(KindName(n.kind) + n.chunks);
    UnaryReads(m.chunkSize, Unary(m.totalSize) + a, n.chunkSize, Unary(n.totalSize) + b);
    UnaryReads(m.totalSize, a, n.totalSize, b);
    UnaryReads(|KindName(m.kind)|, Words(KindName(m.kind) + m.chunks),
               |KindName(n.kind)|, Words(KindName(n.kind) + n.chunks));
    WordsRead(KindName(m.kind) + m.chunks, KindName(n.kind) + n.chunks);
    var k, all := |KindName(m.kind)|, KindName(m.kind) + m.chunks;
    assert all[..k] == KindName(m.kind) == KindName(n.kind);
    assert all[k..] == m.chunks == n.chunks;
    KindPinned(m.kind, n.kind);
  }

  lemma KindPinned(a: Kind, b: Kind)
    requires KindName(a) == KindName(b)
    ensures a == b
  {
    if a.OtherKind? { assert KindName(a)[0] == KindName(b)[0]; }
  }

  ghost function Parse(bytes: Bytes): Option<Manifest> {
    if exists m :: Encode(m) == bytes then
      var m :| Encode(m) == bytes;
      Some(m)
    else None
  }

  lemma ParsePrinted(m: Manifest)
    ensures Parse(Encode(m)) == Some(m)
  {
    hide Encode;
    var n := Parse(Encode(m)).value;
    assert Encode(n) == Encode(m);
    EncodeInjective(n, m);
  }

  ghost function Example(): Codec {
    Codec(b => Cid(b), m => Encode(m), b => Parse(b))
  }

  /** Every assumption about codecs can be met at once. */
  lemma ExampleMeetsAssumptions()
    ensures Example().Lawful() && NoMarkerCids(Example())
    ensures forall bytes :: Tight(Example().cid(bytes), IsQuote)
  {
    hide Cid, Encode, Parse;
    forall a, b | Cid(a) == Cid(b) ensures a == b { CidPinsBytes(a, b); }
    forall m ensures Parse(Encode(m)) == Some(m) { ParsePrinted(m); }
    forall bytes ensures Tight(Cid(bytes), IsQuote) && !IsMarkerId(Cid(bytes)) { CidPlain(bytes); }
  }
}
