/** Content hashes as hex text, and reading them back. Text is its UTF-8 bytes. */
module BlobHash {
  import opened Wrappers

  const HEX: Bytes := [0x30, 0x31, 0x32, 0x33, 0x34, 0x35, 0x36, 0x37, 0x38, 0x39, 0x61, 0x62, 0x63, 0x64, 0x65, 0x66]

  const DIGEST_LENGTH: nat := 32

  function HexDigit(n: bv8): bv8
    requires n < 16
  {
    HEX[n as nat]
  }

  function Nibble(c: bv8): Option<bv8> {
    if 0x30 <= c <= 0x39 then Some(c - 0x30)
    else if 0x61 <= c <= 0x66 then Some(c - 0x61 + 10)
    else if 0x41 <= c <= 0x46 then Some(c - 0x41 + 10)
    else None
  }

  predicate IsHex(c: bv8) {
    0x30 <= c <= 0x39 || 0x61 <= c <= 0x66 || 0x41 <= c <= 0x46
  }

  /** The lower-case form of an ASCII byte; others stay. */
  function LowerAscii(c: bv8): bv8 {
    if 0x41 <= c <= 0x5a then c + 0x20 else c
  }

  /** Every byte on its own. */
  function Mapped(f: bv8 -> bv8, s: Bytes): (r: Bytes)
    ensures |r| == |s| && forall i :: 0 <= i < |s| ==> r[i] == f(s[i])
  {
    seq(|s|, i requires 0 <= i < |s| => f(s[i]))
  }

  function Lower(s: Bytes): Bytes {
    Mapped(LowerAscii, s)
  }

  function High(b: bv8): bv8 {
    b >> 4
  }

  function Low(b: bv8): bv8 {
    b & 0x0f
  }

  function Combined(hi: bv8, lo: bv8): bv8 {
    (hi << 4) | lo
  }

  function HexPair(b: bv8): (bv8, bv8) {
    (HexDigit(High(b)), HexDigit(Low(b)))
  }

  function ReadPair(c: bv8, d: bv8): Option<bv8> {
    if Nibble(c).None? || Nibble(d).None? then None else Some(Combined(Nibble(c).value, Nibble(d).value))
  }

  /** Each byte as the two characters `pair` gives it. */
  function EncodeWith(pair: bv8 -> (bv8, bv8), bytes: Bytes): (text: Bytes)
    ensures |text| == 2 * |bytes|
  {
    if bytes == [] then []
    else
      var p := pair(bytes[|bytes| - 1]);
      EncodeWith(pair, bytes[..|bytes| - 1]) + [p.0, p.1]
  }

  /** Two characters to a byte, as `read` has it; nothing when a pair cannot be read. */
  function DecodeWith(read: (bv8, bv8) -> Option<bv8>, text: Bytes): (bytes: Option<Bytes>)
    ensures bytes.Some? ==> 2 * |bytes.value| == |text|
  {
    if |text| % 2 != 0 then None
    else if text == [] then Some([])
    else
      var front, b := DecodeWith(read, text[..|text| - 2]), read(text[|text| - 2], text[|text| - 1]);
      if front.None? || b.None? then None else Some(front.value + [b.value])
  }

  function EncodeHex(bytes: Bytes): Bytes {
    EncodeWith(HexPair, bytes)
  }

  function DecodeHex(hex: Bytes): Option<Bytes> {
    DecodeWith(ReadPair, hex)
  }

  function FromDigest(digest: Bytes): Bytes
    requires |digest| == DIGEST_LENGTH
  {
    EncodeHex(digest)
  }

  function ParseHex(s: Bytes): Option<Bytes> {
    var bytes := DecodeHex(s);
    if bytes.None? || |bytes.value| != DIGEST_LENGTH then None else Some(FromDigest(bytes.value))
  }

  method Encode(bytes: Bytes) returns (hex: Bytes)
    ensures hex == EncodeHex(bytes)
  {
    hex := [];
    for k := 0 to |bytes|
      invariant hex == EncodeHex(bytes[..k])
    {
      assert bytes[..k + 1][..k] == bytes[..k];
      var b := bytes[k];
      ghost var before := hex;
      hex := hex + [HexDigit(High(b))];
      hex := hex + [HexDigit(Low(b))];
      assert hex == before + [HexPair(b).0, HexPair(b).1];
    }
    assert bytes[..|bytes|] == bytes;
  }

  // ----- Nibbles -----

  lemma DigitReadsBack(n: bv8)
    requires n < 16
    ensures Nibble(HexDigit(n)) == Some(n)
  {
    assert n as nat < 16;
    var k := n as nat;
    assert n == 0 || n == 1 || n == 2 || n == 3 || n == 4 || n == 5 || n == 6 || n == 7
        || n == 8 || n == 9 || n == 10 || n == 11 || n == 12 || n == 13 || n == 14 || n == 15;
  }

  lemma NibbleExactlyHex(c: bv8)
    ensures Nibble(c).Some? <==> IsHex(c)
    ensures Nibble(c).Some? ==> Nibble(c).value < 16
  {
  }

  lemma NibblePrintsLower(c: bv8)
    requires Nibble(c).Some? && Nibble(c).value < 16
    ensures HexDigit(Nibble(c).value) == LowerAscii(c)
  {
    DigitReadsBack(Nibble(c).value);
    var n := Nibble(c).value;
    assert n == 0 || n == 1 || n == 2 || n == 3 || n == 4 || n == 5 || n == 6 || n == 7
        || n == 8 || n == 9 || n == 10 || n == 11 || n == 12 || n == 13 || n == 14 || n == 15;
  }

  lemma SplitByte(b: bv8)
    ensures High(b) < 16 && Low(b) < 16 && Combined(High(b), Low(b)) == b
  {
  }

  lemma JoinByte(hi: bv8, lo: bv8)
    requires hi < 16 && lo < 16
    ensures High(Combined(hi, lo)) == hi && Low(Combined(hi, lo)) == lo
  {
  }

  lemma PairReadsBack(b: bv8)
    ensures ReadPair(HexPair(b).0, HexPair(b).1) == Some(b)
  {
    SplitByte(b);
    DigitReadsBack(High(b));
    DigitReadsBack(Low(b));
  }

  lemma PairPrintsLower(c: bv8, d: bv8)
    ensures ReadPair(c, d).Some? <==> IsHex(c) && IsHex(d)
    ensures ReadPair(c, d).Some? ==> HexPair(ReadPair(c, d).value) == (LowerAscii(c), LowerAscii(d))
  {
    NibbleExactlyHex(c);
    NibbleExactlyHex(d);
    if ReadPair(c, d).Some? {
      JoinByte(Nibble(c).value, Nibble(d).value);
      NibblePrintsLower(c);
      NibblePrintsLower(d);
    }
  }

  // ----- Round trips -----

  /** Whatever the code: when each pair reads back, every text does. */
  lemma {:induction false} RoundTrip(pair: bv8 -> (bv8, bv8), read: (bv8, bv8) -> Option<bv8>, bytes: Bytes)
    requires forall b :: read(pair(b).0, pair(b).1) == Some(b)
    ensures DecodeWith(read, EncodeWith(pair, bytes)) == Some(bytes)
  {
    if bytes != [] {
      var init, p := bytes[..|bytes| - 1], pair(bytes[|bytes| - 1]);
      RoundTrip(pair, read, init);
      var front, text := EncodeWith(pair, init), EncodeWith(pair, bytes);
      assert text == front + [p.0, p.1];
      assert text[..|text| - 2] == front;
      assert bytes == init + [bytes[|bytes| - 1]];
    }
  }

  /** A text is read exactly when it has an even length and every character is good. */
  lemma {:induction false} ReadsExactly(read: (bv8, bv8) -> Option<bv8>, good: bv8 -> bool, text: Bytes)
    requires forall c, d :: read(c, d).Some? <==> good(c) && good(d)
    ensures DecodeWith(read, text).Some? <==> |text| % 2 == 0 && forall i :: 0 <= i < |text| ==> good(text[i])
  {
    if |text| % 2 == 0 && text != [] {
      var front, c, d := text[..|text| - 2], text[|text| - 2], text[|text| - 1];
      ReadsExactly(read, good, front);
      assert read(c, d).Some? <==> good(c) && good(d);
      assert text == front + [c, d];
    }
  }

  /** Writing what was read gives the normal form of every character. */
  lemma {:induction false} WritesNormal(pair: bv8 -> (bv8, bv8), read: (bv8, bv8) -> Option<bv8>, normal: bv8 -> bv8,
                                        text: Bytes)
    requires forall c, d :: read(c, d).Some? ==> pair(read(c, d).value) == (normal(c), normal(d))
    requires DecodeWith(read, text).Some?
    ensures EncodeWith(pair, DecodeWith(read, text).value) == Mapped(normal, text)
  {
    if text != [] {
      var front, c, d := text[..|text| - 2], text[|text| - 2], text[|text| - 1];
      WritesNormal(pair, read, normal, front);
      assert pair(read(c, d).value) == (normal(c), normal(d));
      EncodeAppend(pair, DecodeWith(read, front).value, read(c, d).value);
      assert text == front + [c, d];
      MappedPair(normal, front, c, d);
    }
  }

  lemma MappedPair(f: bv8 -> bv8, s: Bytes, c: bv8, d: bv8)
    ensures Mapped(f, s + [c, d]) == Mapped(f, s) + [f(c), f(d)]
  {
  }

  lemma EncodeAppend(pair: bv8 -> (bv8, bv8), bytes: Bytes, b: bv8)
    ensures EncodeWith(pair, bytes + [b]) == EncodeWith(pair, bytes) + [pair(b).0, pair(b).1]
  {
    assert (bytes + [b])[..|bytes + [b]| - 1] == bytes;
  }

  /** Decoding gives back what was encoded, for any number of bytes. */
  lemma DecodeEncode(bytes: Bytes)
    ensures DecodeHex(EncodeHex(bytes)) == Some(bytes)
  {
    forall b
      ensures ReadPair(HexPair(b).0, HexPair(b).1) == Some(b)
    {
      PairReadsBack(b);
    }
    RoundTrip(HexPair, ReadPair, bytes);
  }

  /** Decoding accepts exactly an even number of hex digits. */
  lemma DecodesExactlyHex(hex: Bytes)
    ensures DecodeHex(hex).Some? <==> |hex| % 2 == 0 && forall i :: 0 <= i < |hex| ==> IsHex(hex[i])
  {
    forall c, d
      ensures ReadPair(c, d).Some? <==> IsHex(c) && IsHex(d)
    {
      PairPrintsLower(c, d);
    }
    ReadsExactly(ReadPair, IsHex, hex);
  }

  /** Encoding again gives the lower-case form of what was decoded. */
  lemma EncodeDecode(hex: Bytes)
    requires DecodeHex(hex).Some?
    ensures EncodeHex(DecodeHex(hex).value) == Lower(hex)
  {
    forall c, d | ReadPair(c, d).Some?
      ensures HexPair(ReadPair(c, d).value) == (LowerAscii(c), LowerAscii(d))
    {
      PairPrintsLower(c, d);
    }
    WritesNormal(HexPair, ReadPair, LowerAscii, hex);
  }

  /** `parse_hex` accepts exactly 64 hex digits of either case and yields their lower-case form. */
  lemma ParseExactlyHex(s: Bytes)
    ensures ParseHex(s) == if |s| == 64 && forall i :: 0 <= i < |s| ==> IsHex(s[i]) then Some(Lower(s)) else None
  {
    DecodesExactlyHex(s);
    if DecodeHex(s).Some? {
      EncodeDecode(s);
    }
  }

  /** It inverts `from_digest`, so different digests have different hashes. */
  lemma ParseInvertsFromDigest(digest: Bytes, other: Bytes)
    requires |digest| == |other| == DIGEST_LENGTH
    ensures ParseHex(FromDigest(digest)) == Some(FromDigest(digest))
    ensures FromDigest(digest) == FromDigest(other) ==> digest == other
  {
    DecodeEncode(digest);
    DecodeEncode(other);
  }

  /** Only the case of the digits is lost, and parsing once is enough. */
  lemma ParseForgetsCase(s: Bytes, t: Bytes)
    requires ParseHex(s).Some? && ParseHex(t).Some?
    ensures ParseHex(s) == ParseHex(t) <==> Lower(s) == Lower(t)
    ensures ParseHex(ParseHex(s).value) == ParseHex(s)
  {
    ParseExactlyHex(s);
    ParseExactlyHex(t);
    ParseInvertsFromDigest(DecodeHex(s).value, DecodeHex(t).value);
  }

  // ----- Which character stands where -----

  /** What a hex digit stands for, in either case. */
  function DigitValue(c: bv8): bv8 {
    if c <= 0x39 then c - 0x30 else if c >= 0x61 then c - 0x61 + 10 else c - 0x41 + 10
  }

  predicate IsLowerHex(c: bv8) {
    0x30 <= c <= 0x39 || 0x61 <= c <= 0x66
  }

  /** The character before counts sixteen times the one behind. */
  predicate StandsFor(c: bv8, d: bv8, b: bv8) {
    DigitValue(c) < 16 && DigitValue(d) < 16 && b == 16 * DigitValue(c) + DigitValue(d)
  }

  /** Byte by byte: two lower-case digits each, the upper half of the byte first. */
  lemma {:induction false} EncodedAt(bytes: Bytes, i: nat)
    requires i < |bytes|
    ensures var c, d := EncodeHex(bytes)[2 * i], EncodeHex(bytes)[2 * i + 1];
            StandsFor(c, d, bytes[i]) && IsLowerHex(c) && IsLowerHex(d)
  {
    var n := |bytes| - 1;
    if i < n {
      EncodedAt(bytes[..n], i);
    } else {
      PairStandsFor(bytes[n]);
    }
  }

  lemma PairStandsFor(b: bv8)
    ensures var (c, d) := HexPair(b); StandsFor(c, d, b) && IsLowerHex(c) && IsLowerHex(d)
  {
    assert b >> 4 < 16 && b & 0x0f < 16 && b == 16 * (b >> 4) + (b & 0x0f);
    DigitStandsFor(b >> 4);
    DigitStandsFor(b & 0x0f);
  }

  lemma DigitStandsFor(n: bv8)
    requires n < 16
    ensures DigitValue(HexDigit(n)) == n && IsLowerHex(HexDigit(n))
  {
    assert n == 0 || n == 1 || n == 2 || n == 3 || n == 4 || n == 5 || n == 6 || n == 7
        || n == 8 || n == 9 || n == 10 || n == 11 || n == 12 || n == 13 || n == 14 || n == 15;
  }

  /** And back: each byte read is the one its two characters stand for. */
  lemma {:induction false} DecodedAt(text: Bytes, i: nat)
    requires DecodeHex(text).Some? && i < |DecodeHex(text).value|
    ensures StandsFor(text[2 * i], text[2 * i + 1], DecodeHex(text).value[i])
  {
    var n := |text| - 2;
    if 2 * i < n {
      DecodedAt(text[..n], i);
    } else {
      ReadStandsFor(text[n], text[n + 1]);
    }
  }

  lemma ReadStandsFor(c: bv8, d: bv8)
    requires ReadPair(c, d).Some?
    ensures StandsFor(c, d, ReadPair(c, d).value)
  {
    var hi, lo := Nibble(c).value, Nibble(d).value;
    assert hi == DigitValue(c) && lo == DigitValue(d) && hi < 16 && lo < 16;
    assert (hi << 4) | lo == 16 * hi + lo;
  }
}
