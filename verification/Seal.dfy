/** Sealed records (`src/seal.rs`) over an uninterpreted 32-byte hash: HMAC, the counter-mode keystream, the
    constant-time comparison, and the record layout. The salt is a parameter. */
module Seal {
  import opened Basics
  import opened Search
  import opened Division
  import opened Manifests
  import opened ObjectReads

  type Digest = d: Bytes | |d| == 32 witness seq(32, _ => 0 as bv8)

  type Hash = Bytes -> Digest

  const SEAL_VERSION: bv8 := 1
  const SALT_LEN: nat := 16
  const TAG_LEN: nat := 32
  const HASH_BLOCK: nat := 64
  const KEYSTREAM_BLOCK: nat := 32

  type Salt = s: Bytes | |s| == SALT_LEN witness seq(16, _ => 0 as bv8)

  // ---- HMAC ----

  function Zeros(n: nat): (zs: Bytes)
    ensures |zs| == n
  {
    seq(n, _ => 0 as bv8)
  }

  function XorEach(s: Bytes, pad: bv8): (r: Bytes)
    ensures |r| == |s|
  {
    seq(|s|, i requires 0 <= i < |s| => s[i] ^ pad)
  }

  /** Section 2 of RFC 2104: a key longer than a hash block is hashed first, and a short one is filled up
      with zeros. */
  function BlockKey(h: Hash, key: Bytes): (k: Bytes)
    ensures |k| == HASH_BLOCK
  {
    if |key| > HASH_BLOCK then h(key) + Zeros(HASH_BLOCK - 32) else key + Zeros(HASH_BLOCK - |key|)
  }

  /** Section 2 of RFC 2104: `H(K XOR opad, H(K XOR ipad, text))`. */
  function Hmac(h: Hash, key: Bytes, text: Bytes): Digest {
    h(XorEach(BlockKey(h, key), 0x5c) + h(XorEach(BlockKey(h, key), 0x36) + text))
  }

  /** The key, normalised to one hash block. */
  method NormalizeKey(h: Hash, key: Bytes) returns (blockKey: array<bv8>)
    ensures fresh(blockKey) && blockKey[..] == BlockKey(h, key)
  {
    blockKey := new bv8[HASH_BLOCK](_ => 0);
    var filler: Bytes := if |key| > HASH_BLOCK then h(key) else key;
    for i := 0 to |filler|
      invariant forall k :: 0 <= k < i ==> blockKey[k] == filler[k]
      invariant forall k :: i <= k < HASH_BLOCK ==> blockKey[k] == 0
    {
      blockKey[i] := filler[i];
    }
    assert blockKey[..] == filler + Zeros(HASH_BLOCK - |filler|);
  }

  /** Every byte of `pad` is XORed with the key's. */
  method XorPad(pad: array<bv8>, blockKey: array<bv8>, byte: bv8)
    requires pad.Length == blockKey.Length && pad != blockKey
    requires forall k :: 0 <= k < pad.Length ==> pad[k] == byte
    modifies pad
    ensures pad[..] == XorEach(blockKey[..], byte)
  {
    hide XorEach;
    ghost var want := XorEach(blockKey[..], byte);
    for i := 0 to pad.Length
      invariant forall k :: 0 <= k < i ==> pad[k] == want[k]
      invariant forall k :: i <= k < pad.Length ==> pad[k] == byte
    {
      XorEachAt(blockKey[..], byte, i);
      pad[i] := pad[i] ^ blockKey[i];
    }
  }

  lemma XorEachAt(s: Bytes, pad: bv8, i: nat)
    requires i < |s|
    ensures XorEach(s, pad)[i] == pad ^ s[i]
  {
  }

  method HmacSha256(h: Hash, key: Bytes, msg: Bytes) returns (out: Digest)
    ensures out == Hmac(h, key, msg)
  {
    hide BlockKey, XorEach;
    var blockKey := NormalizeKey(h, key);
    var ipad := new bv8[HASH_BLOCK](_ => 0x36);
    var opad := new bv8[HASH_BLOCK](_ => 0x5c);
    XorPad(ipad, blockKey, 0x36);
    XorPad(opad, blockKey, 0x5c);
    var innerDigest := h(ipad[..] + msg);
    out := h(opad[..] + innerDigest);
  }

  // ---- key derivation ----

  /** `ce-seal-enc`, then byte 1. */
  const EncLabel: Bytes := [0x63, 0x65, 0x2d, 0x73, 0x65, 0x61, 0x6c, 0x2d, 0x65, 0x6e, 0x63, 0x01]
  /** `ce-seal-mac`, then byte 2. */
  const MacLabel: Bytes := [0x63, 0x65, 0x2d, 0x73, 0x65, 0x61, 0x6c, 0x2d, 0x6d, 0x61, 0x63, 0x02]

  function EncKey(h: Hash, userKey: Bytes, salt: Bytes): Digest {
    Hmac(h, Hmac(h, salt, userKey), EncLabel)
  }

  function MacKey(h: Hash, userKey: Bytes, salt: Bytes): Digest {
    Hmac(h, Hmac(h, salt, userKey), MacLabel)
  }

  method DeriveKeys(h: Hash, userKey: Bytes, salt: Bytes) returns (encKey: Digest, macKey: Digest)
    ensures encKey == EncKey(h, userKey, salt) && macKey == MacKey(h, userKey, salt)
  {
    var prk := HmacSha256(h, salt, userKey);
    encKey := HmacSha256(h, prk, EncLabel);
    macKey := HmacSha256(h, prk, MacLabel);
  }

  // ---- keystream ----

  /** The byte with these bits, the lowest first. */
  function OfBits(b0: bool, b1: bool, b2: bool, b3: bool, b4: bool, b5: bool, b6: bool, b7: bool): bv8 {
    Bit(b0, 1) | Bit(b1, 2) | Bit(b2, 4) | Bit(b3, 8) | Bit(b4, 16) | Bit(b5, 32) | Bit(b6, 64) | Bit(b7, 128)
  }

  function Bit(on: bool, mask: bv8): bv8 {
    if on then mask else 0
  }

  predicate Odd(n: nat) {
    n % 2 == 1
  }

  /** A number below 256 as a byte. */
  function Byte(b: nat): bv8
    requires b < 256
  {
    OfBits(Odd(b), Odd(b / 2), Odd(b / 4), Odd(b / 8), Odd(b / 16), Odd(b / 32), Odd(b / 64), Odd(b / 128))
  }

  /** The `k` low bytes of a number, least significant first. */
  function LeBytes(n: nat, k: nat): (bytes: Bytes)
    ensures |bytes| == k
  {
    if k == 0 then [] else [Byte(n % 256)] + LeBytes(n / 256, k - 1)
  }

  function Power(n: nat): nat {
    if n == 0 then 1 else 256 * Power(n - 1)
  }

  /** Byte `i` is digit `i` of the number to the base 256, the least significant first. */
  lemma {:induction false} LeByteAt(n: nat, k: nat, i: nat)
    requires i < k
    ensures 0 < Power(i) && LeBytes(n, k)[i] == Byte((n / Power(i)) % 256)
    decreases k
  {
    hide Byte;
    if i > 0 {
      LeByteAt(n / 256, k - 1, i - 1);
      DivideTwice(n, 256, Power(i - 1));
    }
  }

  lemma BitsOf(b0: bool, b1: bool, b2: bool, b3: bool, b4: bool, b5: bool, b6: bool, b7: bool)
    ensures var v := OfBits(b0, b1, b2, b3, b4, b5, b6, b7);
            (v & 1 != 0 <==> b0) && (v & 2 != 0 <==> b1) && (v & 4 != 0 <==> b2) && (v & 8 != 0 <==> b3)
            && (v & 16 != 0 <==> b4) && (v & 32 != 0 <==> b5) && (v & 64 != 0 <==> b6) && (v & 128 != 0 <==> b7)
  {
  }

  /** A byte has each bit set exactly when that binary digit of the number is one. */
  lemma ByteBits(b: nat)
    requires b < 256
    ensures (Byte(b) & 1 != 0 <==> b % 2 == 1) && (Byte(b) & 2 != 0 <==> b / 2 % 2 == 1)
    ensures (Byte(b) & 4 != 0 <==> b / 4 % 2 == 1) && (Byte(b) & 8 != 0 <==> b / 8 % 2 == 1)
    ensures (Byte(b) & 16 != 0 <==> b / 16 % 2 == 1) && (Byte(b) & 32 != 0 <==> b / 32 % 2 == 1)
    ensures (Byte(b) & 64 != 0 <==> b / 64 % 2 == 1) && (Byte(b) & 128 != 0 <==> b / 128 % 2 == 1)
  {
    hide OfBits;
    BitsOf(Odd(b), Odd(b / 2), Odd(b / 4), Odd(b / 8), Odd(b / 16), Odd(b / 32), Odd(b / 64), Odd(b / 128));
  }

  function Digit(on: bool): nat {
    if on then 1 else 0
  }

  lemma HalvesOf(n: nat, k: nat)
    requires k > 0
    ensures n / k == 2 * (n / (k * 2)) + Digit(Odd(n / k))
  {
    DivideTwice(n, k, 2);
  }

  lemma DivideTwice(n: nat, a: nat, b: nat)
    requires 0 < a && 0 < b
    ensures n / a / b == n / (a * b)
  {
    var q, r := n / a, n % a;
    var p, t := q / b, q % b;
    MulGrows(t, b, a);
    Regroup(p, t, a, b);
    DivisionUnique(n, a * b, p, t * a + r);
  }

  lemma Regroup(p: nat, t: nat, a: nat, b: nat)
    ensures (p * b + t) * a == p * (a * b) + t * a && b * a == a * b
  {
  }

  /** Binary digits determine a number below 256. */
  lemma DigitsPin(b: nat)
    requires b < 256
    ensures b == Digit(Odd(b)) + 2 * Digit(Odd(b / 2)) + 4 * Digit(Odd(b / 4)) + 8 * Digit(Odd(b / 8))
                 + 16 * Digit(Odd(b / 16)) + 32 * Digit(Odd(b / 32)) + 64 * Digit(Odd(b / 64))
                 + 128 * Digit(Odd(b / 128))
  {
    hide Odd, Digit;
    HalvesOf(b, 1);
    HalvesOf(b, 2);
    HalvesOf(b, 4);
    HalvesOf(b, 8);
    HalvesOf(b, 16);
    HalvesOf(b, 32);
    HalvesOf(b, 64);
    LastDigit(b);
  }

  lemma LastDigit(b: nat)
    requires b < 256
    ensures b / 128 == Digit(Odd(b / 128)) && b / 1 == b
  {
  }

  lemma BitsPinned(a0: bool, a1: bool, a2: bool, a3: bool, a4: bool, a5: bool, a6: bool, a7: bool,
                   b0: bool, b1: bool, b2: bool, b3: bool, b4: bool, b5: bool, b6: bool, b7: bool)
    requires OfBits(a0, a1, a2, a3, a4, a5, a6, a7) == OfBits(b0, b1, b2, b3, b4, b5, b6, b7)
    ensures a0 == b0 && a1 == b1 && a2 == b2 && a3 == b3 && a4 == b4 && a5 == b5 && a6 == b6 && a7 == b7
  {
    hide OfBits;
    BitsOf(a0, a1, a2, a3, a4, a5, a6, a7);
    BitsOf(b0, b1, b2, b3, b4, b5, b6, b7);
  }

  lemma ByteInjective(a: nat, b: nat)
    requires a < 256 && b < 256 && Byte(a) == Byte(b)
    ensures a == b
  {
    hide Odd, Digit, OfBits;
    BitsPinned(Odd(a), Odd(a / 2), Odd(a / 4), Odd(a / 8), Odd(a / 16), Odd(a / 32), Odd(a / 64), Odd(a / 128),
               Odd(b), Odd(b / 2), Odd(b / 4), Odd(b / 8), Odd(b / 16), Odd(b / 32), Odd(b / 64), Odd(b / 128));
    DigitsPin(a);
    DigitsPin(b);
  }

  lemma {:induction false} LeBytesDiffer(a: nat, b: nat, k: nat)
    requires a < Power(k) && b < Power(k) && LeBytes(a, k) == LeBytes(b, k)
    ensures a == b
    decreases k
  {
    hide Byte;
    if k > 0 {
      assert LeBytes(a, k)[0] == Byte(a % 256) && LeBytes(b, k)[0] == Byte(b % 256);
      assert LeBytes(a, k)[1..] == LeBytes(a / 256, k - 1) && LeBytes(b, k)[1..] == LeBytes(b / 256, k - 1);
      ByteInjective(a % 256, b % 256);
      LeBytesDiffer(a / 256, b / 256, k - 1);
    }
  }

  /** The blocks of a stream under 2^64 blocks are all hashed from different inputs. */
  lemma BlockInputsDiffer(encKey: Bytes, salt: Bytes, a: u64, b: u64)
    ensures encKey + salt + LeBytes(a, 8) == encKey + salt + LeBytes(b, 8) ==> a == b
  {
    hide LeBytes;
    var n := |encKey + salt|;
    assert (encKey + salt + LeBytes(a, 8))[n..] == LeBytes(a, 8);
    assert (encKey + salt + LeBytes(b, 8))[n..] == LeBytes(b, 8);
    assert Power(8) == U64_LIMIT;
    if LeBytes(a, 8) == LeBytes(b, 8) { LeBytesDiffer(a, b, 8); }
  }

  /** The labels spell their names. */
  lemma EncLabelSpells()
    ensures EncLabel == Spelled("ce-seal-enc") + [1]
  {
  }

  lemma MacLabelSpells()
    ensures MacLabel == Spelled("ce-seal-mac") + [2]
  {
  }

  function Spelled(s: string): Bytes
    requires forall i :: 0 <= i < |s| ==> s[i] < 128 as char
  {
    seq(|s|, i requires 0 <= i < |s| => (s[i] as int) as bv8)
  }

  /** The byte of the keystream at position `i`: byte `i mod 32` of hash block `i div 32`, whose number wraps
      around as a 64-bit counter does. */
  function KeyByte(h: Hash, encKey: Bytes, salt: Bytes, i: nat): bv8 {
    h(encKey + salt + LeBytes((i / KEYSTREAM_BLOCK) % U64_LIMIT, 8))[i % KEYSTREAM_BLOCK]
  }

  function Masked(h: Hash, encKey: Bytes, salt: Bytes, data: Bytes): (r: Bytes)
    ensures |r| == |data|
    ensures forall i :: 0 <= i < |data| ==> r[i] == data[i] ^ KeyByte(h, encKey, salt, i)
  {
    seq(|data|, i requires 0 <= i < |data| => data[i] ^ KeyByte(h, encKey, salt, i))
  }

  lemma XorTwice(a: bv8, b: bv8)
    ensures (a ^ b) ^ b == a
    ensures a ^ b == 0 <==> a == b
    ensures a | b == 0 <==> a == 0 && b == 0
  {
  }

  /** Applying the keystream is its own inverse. */
  lemma MaskedTwice(h: Hash, encKey: Bytes, salt: Bytes, data: Bytes)
    ensures Masked(h, encKey, salt, Masked(h, encKey, salt, data)) == data
  {
    hide KeyByte, Masked;
    var twice := Masked(h, encKey, salt, Masked(h, encKey, salt, data));
    forall i | 0 <= i < |data| ensures twice[i] == data[i] {
      XorTwice(data[i], KeyByte(h, encKey, salt, i));
    }
  }

  lemma KeyByteInBlock(h: Hash, encKey: Bytes, salt: Bytes, block: nat, j: nat)
    requires j < KEYSTREAM_BLOCK
    ensures KeyByte(h, encKey, salt, block * KEYSTREAM_BLOCK + j)
         == h(encKey + salt + LeBytes(block % U64_LIMIT, 8))[j]
  {
    hide LeBytes;
  }

  /** What one block of keystream does to the data it covers. */
  lemma MaskedInBlock(h: Hash, encKey: Bytes, salt: Bytes, data: Bytes, block: nat, size: nat)
    requires size <= KEYSTREAM_BLOCK && block * KEYSTREAM_BLOCK + size <= |data|
    ensures var at, ks := block * KEYSTREAM_BLOCK, h(encKey + salt + LeBytes(block % U64_LIMIT, 8));
            Masked(h, encKey, salt, data)[at..at + size] == XorBlock(data[at..at + size], ks)
  {
    hide KeyByte, Masked, LeBytes;
    forall j | 0 <= j < size
      ensures KeyByte(h, encKey, salt, block * KEYSTREAM_BLOCK + j)
           == h(encKey + salt + LeBytes(block % U64_LIMIT, 8))[j]
    {
      KeyByteInBlock(h, encKey, salt, block, j);
    }
  }

  function XorBlock(data: Bytes, ks: Digest): (r: Bytes)
    requires |data| <= KEYSTREAM_BLOCK
    ensures |r| == |data|
  {
    seq(|data|, j requires 0 <= j < |data| => data[j] ^ ks[j])
  }

  lemma XorBlockAt(data: Bytes, ks: Digest, j: nat)
    requires |data| <= KEYSTREAM_BLOCK && j < |data|
    ensures XorBlock(data, ks)[j] == data[j] ^ ks[j]
  {
  }

  /** `next` is `now` with `size` bytes from `pos` on XORed with the keystream block. */
  ghost predicate BlockMasked(now: Bytes, next: Bytes, pos: nat, size: nat, ks: Digest) {
    |next| == |now| && pos + size <= |now| && size <= KEYSTREAM_BLOCK
    && next[..pos] == now[..pos] && next[pos + size..] == now[pos + size..]
    && next[pos..pos + size] == XorBlock(now[pos..pos + size], ks)
  }

  /** One block of `data` is XORed in place with the keystream block. */
  method MaskBlock(data: array<bv8>, pos: nat, size: nat, ks: Digest)
    requires pos + size <= data.Length && size <= KEYSTREAM_BLOCK
    modifies data
    ensures BlockMasked(old(data[..]), data[..], pos, size, ks)
  {
    hide XorBlock;
    ghost var was := data[pos..pos + size];
    ghost var want := XorBlock(was, ks);
    for j := 0 to size
      invariant forall k :: 0 <= k < j ==> data[pos + k] == want[k]
      invariant forall k :: j <= k < size ==> data[pos + k] == was[k]
      invariant data[..pos] == old(data[..pos]) && data[pos + size..] == old(data[pos + size..])
    {
      XorBlockAt(was, ks, j);
      data[pos + j] := data[pos + j] ^ ks[j];
    }
  }

  /** `now` is `was` with the first `n` bytes from `lo` on replaced by those of `want`. */
  ghost predicate Partly(now: Bytes, was: Bytes, want: Bytes, lo: nat, n: nat) {
    |now| == |was| && n <= |want| && lo + |want| <= |was|
    && now[..lo] == was[..lo] && now[lo..lo + n] == want[..n] && now[lo + n..] == was[lo + n..]
  }

  lemma PartlyStart(was: Bytes, want: Bytes, lo: nat)
    requires lo + |want| <= |was|
    ensures Partly(was, was, want, lo, 0)
  {
  }

  lemma PartlyAhead(now: Bytes, was: Bytes, want: Bytes, lo: nat, n: nat, size: nat)
    requires Partly(now, was, want, lo, n) && n + size <= |want|
    ensures |now| == |was| && now[lo + n..lo + n + size] == was[lo + n..lo + n + size]
  {
    assert now[lo + n..lo + n + size] == now[lo + n..][..size];
    assert was[lo + n..lo + n + size] == was[lo + n..][..size];
  }

  /** The masked bytes of one block of a range are that block of the buffer, XORed. */
  lemma RangeBlock(h: Hash, encKey: Bytes, salt: Bytes, was: Bytes, lo: nat, hi: nat, block: nat, n: nat, size: nat)
    requires lo <= hi <= |was| && size <= KEYSTREAM_BLOCK && n == block * KEYSTREAM_BLOCK && n + size <= hi - lo
    ensures Masked(h, encKey, salt, was[lo..hi])[n..n + size]
         == XorBlock(was[lo + n..lo + n + size], h(encKey + salt + LeBytes(block % U64_LIMIT, 8)))
  {
    hide Masked, LeBytes, XorBlock;
    MaskedInBlock(h, encKey, salt, was[lo..hi], block, size);
    SliceOfSlice(was, lo, hi, n, n + size);
  }

  lemma PartlyNext(now: Bytes, next: Bytes, was: Bytes, want: Bytes, lo: nat, n: nat, size: nat, ks: Digest)
    requires Partly(now, was, want, lo, n) && n + size <= |want| && BlockMasked(now, next, lo + n, size, ks)
    requires want[n..n + size] == XorBlock(was[lo + n..lo + n + size], ks)
    ensures Partly(next, was, want, lo, n + size)
  {
    hide XorBlock;
    PartlyAhead(now, was, want, lo, n, size);
    assert next[..lo] == next[..lo + n][..lo] && now[..lo] == now[..lo + n][..lo];
    assert next[lo..lo + n] == next[..lo + n][lo..] && now[lo..lo + n] == now[..lo + n][lo..];
    assert next[lo..lo + n + size] == next[lo..lo + n] + next[lo + n..lo + n + size];
    assert now[lo + n + size..] == now[lo + n..][size..];
    assert was[lo + n + size..] == was[lo + n..][size..];
  }

  lemma PartlyDone(now: Bytes, was: Bytes, want: Bytes, lo: nat)
    requires Partly(now, was, want, lo, |want|)
    ensures |now| == |was| && now[lo..lo + |want|] == want
    ensures now[..lo] == was[..lo] && now[lo + |want|..] == was[lo + |want|..]
  {
    assert want[..|want|] == want;
  }

  /** The range of `data` between `lo` and `hi` is masked in place, and the rest left alone. */
  method ApplyKeystream(h: Hash, encKey: Bytes, salt: Bytes, data: array<bv8>, lo: nat, hi: nat)
    requires lo <= hi <= data.Length
    modifies data
    ensures data[lo..hi] == Masked(h, encKey, salt, old(data[lo..hi]))
    ensures data[..lo] == old(data[..lo]) && data[hi..] == old(data[hi..])
  {
    hide KeyByte, Masked, LeBytes, XorBlock, Partly, BlockMasked;
    var counter: u64 := 0;
    ghost var block: nat := 0;
    ghost var was := data[..];
    ghost var want := Masked(h, encKey, salt, was[lo..hi]);
    var n := 0;
    PartlyStart(was, want, lo);
    while n < hi - lo
      invariant n <= hi - lo && (n == block * KEYSTREAM_BLOCK || n == hi - lo)
      invariant counter == block % U64_LIMIT
      invariant Partly(data[..], was, want, lo, n)
      decreases hi - lo - n
    {
      var ks := h(encKey + salt + LeBytes(counter, 8));
      var size := if hi - lo - n < KEYSTREAM_BLOCK then hi - lo - n else KEYSTREAM_BLOCK;
      ghost var now := data[..];
      RangeBlock(h, encKey, salt, was, lo, hi, block, n, size);
      MaskBlock(data, lo + n, size, ks);
      PartlyNext(now, data[..], was, want, lo, n, size, ks);
      n := n + size;
      counter := (counter + 1) % U64_LIMIT;
      block := block + 1;
    }
    PartlyDone(data[..], was, want, lo);
  }

  // ---- comparison ----

  /** The OR-accumulated comparison is equality. */
  method CtEq(a: Bytes, b: Bytes) returns (equal: bool)
    ensures equal <==> a == b
  {
    if |a| != |b| { return false; }
    var diff: bv8 := 0;
    for i := 0 to |a|
      invariant diff == 0 <==> a[..i] == b[..i]
    {
      XorTwice(a[i], b[i]);
      XorTwice(diff, a[i] ^ b[i]);
      assert a[..i + 1] == a[..i] + [a[i]] && b[..i + 1] == b[..i] + [b[i]];
      diff := diff | (a[i] ^ b[i]);
    }
    assert a[..|a|] == a && b[..|b|] == b;
    equal := diff == 0;
  }

  // ---- records ----

  /** What the tag covers: version, salt, ciphertext. */
  function Body(h: Hash, plaintext: Bytes, userKey: Bytes, salt: Salt): Bytes {
    [SEAL_VERSION] + salt + Masked(h, EncKey(h, userKey, salt), salt, plaintext)
  }

  function Sealed(h: Hash, plaintext: Bytes, userKey: Bytes, salt: Salt): Bytes {
    var body := Body(h, plaintext, userKey, salt);
    body + Hmac(h, MacKey(h, userKey, salt), body)
  }

  method SealRecord(h: Hash, plaintext: Bytes, userKey: Bytes, salt: Salt) returns (record: Bytes)
    ensures record == Sealed(h, plaintext, userKey, salt)
  {
    hide Masked, EncKey, MacKey, Hmac;
    var encKey, macKey := DeriveKeys(h, userKey, salt);
    var header := [SEAL_VERSION] + salt;
    var ctStart := |header|;
    var filled := header + plaintext;
    var buffer := new bv8[|filled|](i requires 0 <= i < |filled| => filled[i]);
    assert buffer[..] == filled;
    assert buffer[ctStart..buffer.Length] == plaintext && buffer[..ctStart] == header;
    ApplyKeystream(h, encKey, salt, buffer, ctStart, buffer.Length);
    assert buffer[..] == buffer[..ctStart] + buffer[ctStart..buffer.Length];
    var tag := HmacSha256(h, macKey, buffer[..]);
    record := buffer[..] + tag;
  }

  datatype SealError = TooShort | BadVersion | AuthFailed

  function SaltOf(record: Bytes): Salt
    requires 1 + SALT_LEN + TAG_LEN <= |record|
  {
    record[1..1 + SALT_LEN]
  }

  function BodyOf(record: Bytes): Bytes
    requires TAG_LEN <= |record|
  {
    record[..|record| - TAG_LEN]
  }

  /** The record carries the tag that its own body calls for. */
  predicate Authentic(h: Hash, record: Bytes, userKey: Bytes)
    requires 1 + SALT_LEN + TAG_LEN <= |record|
  {
    record[|record| - TAG_LEN..] == Hmac(h, MacKey(h, userKey, SaltOf(record)), BodyOf(record))
  }

  function Unsealed(h: Hash, record: Bytes, userKey: Bytes): Result<Bytes, SealError> {
    if |record| < 1 + SALT_LEN + TAG_LEN then Err(TooShort)
    else if record[0] != SEAL_VERSION then Err(BadVersion)
    else if !Authentic(h, record, userKey) then Err(AuthFailed)
    else
      var salt := SaltOf(record);
      Ok(Masked(h, EncKey(h, userKey, salt), salt, record[1 + SALT_LEN..|record| - TAG_LEN]))
  }

  /** `unseal`: it accepts exactly the records that sealing produces under this key, and returns what was
      sealed. */
  method UnsealRecord(h: Hash, record: Bytes, userKey: Bytes) returns (r: Result<Bytes, SealError>)
    ensures r == Unsealed(h, record, userKey)
    ensures r.Ok? <==> exists plaintext, salt: Salt :: record == Sealed(h, plaintext, userKey, salt)
    ensures forall plaintext, salt: Salt :: record == Sealed(h, plaintext, userKey, salt) ==> r == Ok(plaintext)
  {
    hide Sealed, Unsealed;
    AcceptsSealed(h, record, userKey);
    r := UnsealSteps(h, record, userKey);
  }

  method UnsealSteps(h: Hash, record: Bytes, userKey: Bytes) returns (r: Result<Bytes, SealError>)
    ensures r == Unsealed(h, record, userKey)
  {
    hide Masked, EncKey, MacKey, Hmac;
    if |record| < 1 + SALT_LEN + TAG_LEN { return Err(TooShort); }
    if record[0] != SEAL_VERSION { return Err(BadVersion); }
    var salt := record[1..1 + SALT_LEN];
    var tagStart := |record| - TAG_LEN;
    var body, tag := record[..tagStart], record[tagStart..];
    var encKey, macKey := DeriveKeys(h, userKey, salt);
    var expected := HmacSha256(h, macKey, body);
    var same := CtEq(expected, tag);
    if !same { return Err(AuthFailed); }
    var ciphertext := record[1 + SALT_LEN..tagStart];
    var plaintext := new bv8[|ciphertext|](i requires 0 <= i < |ciphertext| => ciphertext[i]);
    assert plaintext[0..plaintext.Length] == ciphertext;
    ApplyKeystream(h, encKey, salt, plaintext, 0, plaintext.Length);
    assert plaintext[0..plaintext.Length] == plaintext[..];
    r := Ok(plaintext[..]);
  }

  lemma SealedParts(h: Hash, plaintext: Bytes, userKey: Bytes, salt: Salt)
    ensures var record := Sealed(h, plaintext, userKey, salt);
            |record| == 1 + SALT_LEN + |plaintext| + TAG_LEN && record[0] == SEAL_VERSION
            && SaltOf(record) == salt && BodyOf(record) == Body(h, plaintext, userKey, salt)
            && record[1 + SALT_LEN..|record| - TAG_LEN] == Masked(h, EncKey(h, userKey, salt), salt, plaintext)
            && record[|record| - TAG_LEN..] == Hmac(h, MacKey(h, userKey, salt), Body(h, plaintext, userKey, salt))
  {
    hide Masked, EncKey, MacKey, Hmac;
  }

  /** Unsealing returns the plaintext that was sealed, for every plaintext, key and salt. */
  lemma SealRoundTrip(h: Hash, plaintext: Bytes, userKey: Bytes, salt: Salt)
    ensures Unsealed(h, Sealed(h, plaintext, userKey, salt), userKey) == Ok(plaintext)
  {
    hide Masked, EncKey, MacKey, Hmac, Sealed, SaltOf, BodyOf;
    SealedParts(h, plaintext, userKey, salt);
    MaskedTwice(h, EncKey(h, userKey, salt), salt, plaintext);
  }

  /** Whatever unsealing accepts, sealing what it returned with the record's own salt gives back. */
  lemma UnsealRoundTrip(h: Hash, record: Bytes, userKey: Bytes)
    requires Unsealed(h, record, userKey).Ok?
    ensures Sealed(h, Unsealed(h, record, userKey).value, userKey, SaltOf(record)) == record
  {
    hide Masked, EncKey, MacKey, Hmac;
    var salt := SaltOf(record);
    var ciphertext := record[1 + SALT_LEN..|record| - TAG_LEN];
    MaskedTwice(h, EncKey(h, userKey, salt), salt, ciphertext);
    assert BodyOf(record) == [SEAL_VERSION] + salt + ciphertext;
    assert record == BodyOf(record) + record[|record| - TAG_LEN..];
  }

  lemma AcceptsSealed(h: Hash, record: Bytes, userKey: Bytes)
    ensures Unsealed(h, record, userKey).Ok?
            <==> exists plaintext, salt: Salt :: record == Sealed(h, plaintext, userKey, salt)
    ensures forall plaintext, salt: Salt ::
              record == Sealed(h, plaintext, userKey, salt) ==> Unsealed(h, record, userKey) == Ok(plaintext)
  {
    hide Sealed, Unsealed;
    forall plaintext, salt: Salt | record == Sealed(h, plaintext, userKey, salt)
      ensures Unsealed(h, record, userKey) == Ok(plaintext)
    {
      SealRoundTrip(h, plaintext, userKey, salt);
    }
    if Unsealed(h, record, userKey).Ok? { UnsealRoundTrip(h, record, userKey); }
  }

  /** A sealed object that is stored reads back, whole, as the plaintext. */
  lemma SealedObjectReads(codec: Codec, blobs: Blobs, cid: string, h: Hash, plaintext: Bytes, userKey: Bytes,
                          salt: Salt)
    requires codec.Lawful() && Stored(codec, blobs, cid, Sealed(h, plaintext, userKey, salt))
    ensures GetObject(codec, blobs, cid).Some?
    ensures Unsealed(h, GetObject(codec, blobs, cid).value, userKey) == Ok(plaintext)
  {
    hide Sealed, Unsealed, GetObject, Stored;
    FullReadExact(codec, blobs, cid, Sealed(h, plaintext, userKey, salt));
    SealRoundTrip(h, plaintext, userKey, salt);
  }
}
