/** Validation of an uploaded speaker embedding: base64 text (RFC 4648, section
    4) of little-endian binary32 values (IEEE 754-2008, section 3.4). */
module Embedding {
  import opened Bytes
  import opened Wrappers

  datatype Result<+T> = Ok(value: T) | Err(error: Error)

  datatype Error = MultipleProfiles | Missing | TooLarge | BadBase64 | BadLength | BadDim | NotFinite

  // ---------------------------------------------------------------- base64

  function Symbol(v: nat): char
    requires v < 64
  {
    if v < 26 then 'A' + v as char
    else if v < 52 then 'a' + (v - 26) as char
    else if v < 62 then '0' + (v - 52) as char
    else if v == 62 then '+' else '/'
  }

  function Sextet(c: char): (v: Option<nat>)
    ensures v.Some? ==> v.value < 64 && Symbol(v.value) == c
  {
    if 'A' <= c <= 'Z' then Some(c as int - 'A' as int)
    else if 'a' <= c <= 'z' then Some(26 + c as int - 'a' as int)
    else if '0' <= c <= '9' then Some(52 + c as int - '0' as int)
    else if c == '+' then Some(62)
    else if c == '/' then Some(63)
    else None
  }

  /** One group of four symbols; only the last group of a text may be padded. */
  function DecodeQuad(q: string, last: bool): Option<seq<byte>>
    requires |q| == 4
  {
    var a, b, c, d := Sextet(q[0]), Sextet(q[1]), Sextet(q[2]), Sextet(q[3]);
    if a.None? || b.None? then None
    else
      var first := a.value * 4 + b.value / 16;
      if c.Some? && d.Some? then
        Some([first, b.value % 16 * 16 + c.value / 4, c.value % 4 * 64 + d.value])
      else if last && c.Some? && q[3] == '=' then Some([first, b.value % 16 * 16 + c.value / 4])
      else if last && q[2] == '=' && q[3] == '=' then Some([first])
      else None
  }

  function Decode(text: string): Option<seq<byte>> {
    if text == [] then Some([])
    else if |text| < 4 then None
    else
      var head := DecodeQuad(text[..4], |text| == 4);
      var tail := Decode(text[4..]);
      if head.None? || tail.None? then None else Some(head.value + tail.value)
  }

  function Encode(b: seq<byte>): string {
    if b == [] then []
    else if |b| == 1 then [Symbol(b[0] / 4), Symbol(b[0] % 4 * 16), '=', '=']
    else if |b| == 2 then [Symbol(b[0] / 4), Symbol(b[0] % 4 * 16 + b[1] / 16), Symbol(b[1] % 16 * 4), '=']
    else [Symbol(b[0] / 4), Symbol(b[0] % 4 * 16 + b[1] / 16), Symbol(b[1] % 16 * 4 + b[2] / 64), Symbol(b[2] % 64)]
         + Encode(b[3..])
  }

  lemma SextetOfSymbol(v: nat)
    requires v < 64
    ensures Sextet(Symbol(v)) == Some(v)
  {}

  /** Four sextets carry three bytes. */
  lemma Regroup(x: byte, y: byte, z: byte)
    ensures x / 4 * 4 + (x % 4 * 16 + y / 16) / 16 == x
    ensures (x % 4 * 16 + y / 16) % 16 * 16 + (y % 16 * 4 + z / 64) / 4 == y
    ensures (y % 16 * 4 + z / 64) % 4 * 64 + z % 64 == z
  {
    assert (x % 4 * 16 + y / 16) / 16 == x % 4 && (x % 4 * 16 + y / 16) % 16 == y / 16;
    assert (y % 16 * 4 + z / 64) / 4 == y % 16 && (y % 16 * 4 + z / 64) % 4 == z / 64;
  }

  lemma QuadOfThree(x: byte, y: byte, z: byte, last: bool)
    ensures DecodeQuad([Symbol(x / 4), Symbol(x % 4 * 16 + y / 16), Symbol(y % 16 * 4 + z / 64), Symbol(z % 64)], last)
            == Some([x, y, z])
  {
    SextetOfSymbol(x / 4);
    SextetOfSymbol(x % 4 * 16 + y / 16);
    SextetOfSymbol(y % 16 * 4 + z / 64);
    SextetOfSymbol(z % 64);
    hide Sextet, Symbol;
    Regroup(x, y, z);
    var a: nat, b: nat, c: nat, d: nat := x / 4, x % 4 * 16 + y / 16, y % 16 * 4 + z / 64, z % 64;
    assert a * 4 + b / 16 == x && b % 16 * 16 + c / 4 == y && c % 4 * 64 + d == z;
  }

  lemma QuadOfTwo(x: byte, y: byte)
    ensures DecodeQuad([Symbol(x / 4), Symbol(x % 4 * 16 + y / 16), Symbol(y % 16 * 4), '='], true) == Some([x, y])
  {
    SextetOfSymbol(x / 4);
    SextetOfSymbol(x % 4 * 16 + y / 16);
    SextetOfSymbol(y % 16 * 4);
    assert Sextet('=') == None;
    hide Sextet, Symbol;
  }

  lemma QuadOfOne(x: byte)
    ensures DecodeQuad([Symbol(x / 4), Symbol(x % 4 * 16), '=', '='], true) == Some([x])
  {
    SextetOfSymbol(x / 4);
    SextetOfSymbol(x % 4 * 16);
    assert Sextet('=') == None;
    hide Sextet, Symbol;
  }

  lemma DecodeOneQuad(q: string, bytes: seq<byte>)
    requires |q| == 4 && DecodeQuad(q, true) == Some(bytes)
    ensures Decode(q) == Some(bytes)
  {
    hide DecodeQuad;
    assert q[..4] == q && q[4..] == [];
    assert bytes + [] == bytes;
  }

  lemma {:induction false} DecodeEncode(b: seq<byte>)
    ensures Decode(Encode(b)) == Some(b)
    decreases |b|
  {
    hide DecodeQuad, Symbol;
    if |b| >= 3 {
      QuadOfThree(b[0], b[1], b[2], true);
      QuadOfThree(b[0], b[1], b[2], false);
      var q := Encode(b)[..4];
      assert q == [Symbol(b[0] / 4), Symbol(b[0] % 4 * 16 + b[1] / 16), Symbol(b[1] % 16 * 4 + b[2] / 64), Symbol(b[2] % 64)];
      assert Encode(b)[4..] == Encode(b[3..]);
      DecodeEncode(b[3..]);
      assert [b[0], b[1], b[2]] + b[3..] == b;
    } else if |b| == 2 {
      QuadOfTwo(b[0], b[1]);
      assert b == [b[0], b[1]];
      DecodeOneQuad(Encode(b), b);
    } else if |b| == 1 {
      QuadOfOne(b[0]);
      assert b == [b[0]];
      DecodeOneQuad(Encode(b), b);
    }
  }

  /** The bound on the encoded length for a limit of `m` bytes. */
  function MaxEncodedChars(m: nat): nat { 4 * ((m + 2) / 3) }

  /** Strict base64 has a fixed expansion ratio. */
  lemma {:induction false} DecodedLength(text: string)
    requires Decode(text).Some?
    ensures |text| == MaxEncodedChars(|Decode(text).value|)
    decreases |text|
  {
    if text != [] {
      DecodedLength(text[4..]);
      if |text| > 4 {
        var n := |Decode(text[4..]).value|;
        assert (n + 3 + 2) / 3 == (n + 2) / 3 + 1;
      }
    }
  }

  /** The pre-check on the encoded text never rejects what decodes within the
      limit; what passes it decodes to at most two bytes more than the limit,
      and at most the limit when that is a multiple of three. */
  lemma PrecheckExact(text: string, m: nat)
    requires Decode(text).Some?
    ensures |Decode(text).value| <= m ==> |text| <= MaxEncodedChars(m)
    ensures |text| <= MaxEncodedChars(m) ==> |Decode(text).value| <= m + 2
    ensures m % 3 == 0 ==> (|text| <= MaxEncodedChars(m) <==> |Decode(text).value| <= m)
  {
    DecodedLength(text);
  }

  /** The longest data whose text passes the pre-check. */
  function LongestPassing(m: nat): (data: seq<byte>)
    ensures m <= |data| <= m + 2 && |data| % 3 == 0
  {
    seq(3 * ((m + 2) / 3), i => 0)
  }

  lemma GroupsOf(m: nat, n: nat)
    requires m <= n <= m + 2 && n % 3 == 0
    ensures MaxEncodedChars(n) == MaxEncodedChars(m)
  {}

  lemma GroupsWithin(m: nat, n: nat, k: nat)
    requires m <= n <= m + 2 && n % 3 == 0 && MaxEncodedChars(k) <= MaxEncodedChars(m)
    ensures k <= n
  {}

  /** For every limit: some text passes the pre-check and decodes to the limit
      rounded up to a multiple of three, and none to more. */
  lemma PrecheckSlack(m: nat)
    ensures var text := Encode(LongestPassing(m));
            |text| <= MaxEncodedChars(m) && Decode(text) == Some(LongestPassing(m))
    ensures forall text :: Decode(text).Some? && |text| <= MaxEncodedChars(m) ==> |Decode(text).value| <= |LongestPassing(m)|
  {
    hide Decode, Encode, LongestPassing, MaxEncodedChars;
    var data := LongestPassing(m);
    DecodeEncode(data);
    DecodedLength(Encode(data));
    GroupsOf(m, |data|);
    forall text | Decode(text).Some? && |text| <= MaxEncodedChars(m) ensures |Decode(text).value| <= |data| {
      DecodedLength(text);
      GroupsWithin(m, |data|, |Decode(text).value|);
    }
  }

  /** The pre-check alone enforces the limit exactly when the limit is a multiple
      of three. */
  lemma PrecheckSuffices(m: nat)
    ensures (forall text :: Decode(text).Some? && |text| <= MaxEncodedChars(m) ==> |Decode(text).value| <= m)
            <==> m % 3 == 0
  {
    PrecheckSlack(m);
    hide Decode, Encode, LongestPassing, MaxEncodedChars;
    if m % 3 != 0 {
      var text := Encode(LongestPassing(m));
      assert |Decode(text).value| > m;
    }
  }

  // ---------------------------------------------------------------- binary32

  datatype Float = Finite(value: real) | Infinite | NotANumber

  function Pow2(n: nat): nat { if n == 0 then 1 else 2 * Pow2(n - 1) }

  lemma {:induction false} Pow2Positive(n: nat)
    ensures Pow2(n) > 0
  {
    if n > 0 { Pow2Positive(n - 1); }
  }

  /** The datum encoded by a 32-bit word: sign, biased exponent, trailing
      significand. */
  function Binary32(w: nat): Float
    requires w < 0x1_0000_0000
  {
    var sign := if w >= 0x8000_0000 then -1.0 else 1.0;
    var exponent, significand := w / 0x80_0000 % 256, w % 0x80_0000;
    if exponent == 255 then (if significand == 0 then Infinite else NotANumber)
    else if exponent == 0 then
      Pow2Positive(149);
      Finite(sign * significand as real / Pow2(149) as real)
    else if exponent >= 150 then
      Finite(sign * (0x80_0000 + significand) as real * Pow2(exponent - 150) as real)
    else
      Pow2Positive(150 - exponent);
      Finite(sign * (0x80_0000 + significand) as real / Pow2(150 - exponent) as real)
  }

  /** The `k`-th little-endian value. */
  function Value(data: seq<byte>, k: nat): Float
    requires 4 * k + 4 <= |data|
  {
    Binary32(Le32(data, 4 * k))
  }

  ghost predicate AllFinite(data: seq<byte>) {
    forall k :: 0 <= k && 4 * k + 4 <= |data| ==> Value(data, k).Finite?
  }

  lemma FiniteByExponent(w: nat)
    requires w < 0x1_0000_0000
    ensures Binary32(w).Finite? <==> w / 0x80_0000 % 256 != 255
  {}

  lemma ExponentBits(low: nat, b2: nat, b3: nat)
    requires low < 0x1_0000 && b2 < 256 && b3 < 256
    ensures (low + 0x1_0000 * b2 + 0x100_0000 * b3) / 0x80_0000 == b2 / 128 + 2 * b3
  {
    var w := low + 0x1_0000 * b2 + 0x100_0000 * b3;
    assert w == (low + 0x1_0000 * (b2 % 128)) + 0x80_0000 * (b2 / 128 + 2 * b3);
  }

  lemma TopBits(b2: nat, b3: nat)
    requires b2 < 256 && b3 < 256
    ensures (b2 / 128 + 2 * b3) % 256 == 255 <==> b3 % 128 == 127 && b2 >= 128
  {
    assert b2 / 128 == if b2 >= 128 then 1 else 0;
  }

  /** Finiteness is decided by the two most significant bytes alone. */
  lemma FiniteByTopBytes(data: seq<byte>, k: nat)
    requires 4 * k + 4 <= |data|
    ensures Value(data, k).Finite? <==> !(data[4 * k + 3] % 128 == 127 && data[4 * k + 2] >= 128)
  {
    FiniteByExponent(Le32(data, 4 * k));
    ExponentBits(Le16(data, 4 * k), data[4 * k + 2], data[4 * k + 3]);
    TopBits(data[4 * k + 2], data[4 * k + 3]);
    var w := Le32(data, 4 * k);
    assert w == Le16(data, 4 * k) + 0x1_0000 * data[4 * k + 2] as int + 0x100_0000 * data[4 * k + 3] as int;
    hide Binary32, Le32, Le16;
  }

  // ---------------------------------------------------------------- the validator

  const BLOCK: nat := 4096

  /** The embedding and its declared length, as the request carries them. */
  datatype Request = Request(embedding: Option<string>, legacy: Option<string>, dim: Option<int>)

  function Text(req: Request): Option<string> {
    if req.embedding.Some? then req.embedding else req.legacy
  }

  ghost predicate Accepted(req: Request, maxBytes: nat, data: seq<byte>) {
    && (req.embedding.None? || req.legacy.None?)
    && Text(req).Some? && Text(req).value != []
    && Decode(Text(req).value) == Some(data)
    && 0 < |data| <= maxBytes && |data| % 4 == 0
    && (req.dim.Some? ==> req.dim.value == |data| / 4)
    && AllFinite(data)
  }

  predicate Single(req: Request) { req.embedding.None? || req.legacy.None? }

  predicate Given(req: Request) { Single(req) && Text(req).Some? && Text(req).value != [] }

  /** The text of the request is within the limit and decodes to this. */
  predicate DecodesTo(req: Request, maxBytes: nat, data: seq<byte>) {
    Given(req) && Decode(Text(req).value) == Some(data) && |data| <= maxBytes
  }

  predicate WholeFloats(data: seq<byte>) { data != [] && |data| % 4 == 0 }

  predicate DimAgrees(req: Request, data: seq<byte>) {
    req.dim.Some? ==> req.dim.value > 0 && req.dim.value == |data| / 4
  }

  /** The text is refused before it is decoded, or decodes to too much. */
  predicate OverLimit(text: string, maxBytes: nat) {
    |text| > MaxEncodedChars(maxBytes) || (Decode(text).Some? && |Decode(text).value| > maxBytes)
  }

  ghost predicate FiniteUpTo(data: seq<byte>, at: nat) {
    forall k :: 0 <= k && 4 * k + 4 <= at && 4 * k + 4 <= |data| ==> Value(data, k).Finite?
  }

  lemma FinitePrefixNone(data: seq<byte>)
    ensures FiniteUpTo(data, 0)
  {
  }

  lemma FiniteUpToMore(data: seq<byte>, at: nat)
    requires FiniteUpTo(data, at) && at % 4 == 0 && at + 4 <= |data|
    ensures if Binary32(Le32(data, at)).Finite? then FiniteUpTo(data, at + 4) else !AllFinite(data)
  {
    hide Binary32, Le32;
    assert 4 * (at / 4) == at;
    assert Value(data, at / 4) == Binary32(Le32(data, at));
  }

  lemma FiniteThroughout(data: seq<byte>)
    requires FiniteUpTo(data, |data|)
    ensures AllFinite(data)
  {
    hide Binary32, Le32;
  }

  /** The blockwise scan: no more than one block is looked at together. */
  method ScanBlocks(data: seq<byte>) returns (finite: bool)
    requires |data| % 4 == 0
    ensures finite <==> AllFinite(data)
  {
    hide Binary32, Le32, AllFinite;
    FinitePrefixNone(data);
    var offset := 0;
    while offset < |data|
      invariant offset % 4 == 0 && 0 <= offset
      invariant FiniteUpTo(data, if offset < |data| then offset else |data|)
      decreases |data| - offset
    {
      var end := if offset + BLOCK < |data| then offset + BLOCK else |data|;
      var at := offset;
      while at < end
        invariant offset <= at <= end && at % 4 == 0
        invariant FiniteUpTo(data, at)
      {
        FiniteUpToMore(data, at);
        if !Binary32(Le32(data, at)).Finite? {
          return false;
        }
        at := at + 4;
      }
      offset := offset + BLOCK;
    }
    FiniteThroughout(data);
    finite := true;
  }

  /** The whole validation, with its rejections in order. */
  method DecodeEmbedding(req: Request, maxBytes: nat) returns (r: Result<seq<byte>>)
    ensures r.Ok? ==> Accepted(req, maxBytes, r.value)
    ensures (exists data :: Accepted(req, maxBytes, data)) ==> r.Ok?
    ensures r == Err(MultipleProfiles) <==> !Single(req)
    ensures r == Err(Missing) <==> Single(req) && !Given(req)
    ensures r == Err(TooLarge) <==> Given(req) && OverLimit(Text(req).value, maxBytes)
    ensures r == Err(TooLarge) ==> forall data :: Decode(Text(req).value) == Some(data) ==> |data| > maxBytes
    ensures r == Err(BadBase64) <==>
            Given(req) && !OverLimit(Text(req).value, maxBytes) && Decode(Text(req).value).None?
    ensures r == Err(BadLength) <==> exists data :: DecodesTo(req, maxBytes, data) && !WholeFloats(data)
    ensures r == Err(BadDim) <==>
            exists data :: DecodesTo(req, maxBytes, data) && WholeFloats(data) && !DimAgrees(req, data)
    ensures r == Err(NotFinite) <==>
            exists data :: DecodesTo(req, maxBytes, data) && WholeFloats(data) && DimAgrees(req, data) && !AllFinite(data)
  {
    hide Decode, AllFinite, MaxEncodedChars;
    if req.embedding.Some? && req.legacy.Some? {
      return Err(MultipleProfiles);
    }
    var value := if req.embedding.None? then req.legacy else req.embedding;
    if value.None? || value.value == [] {
      return Err(Missing);
    }
    if Decode(value.value).Some? { PrecheckExact(value.value, maxBytes); }
    if |value.value| > MaxEncodedChars(maxBytes) {
      return Err(TooLarge);
    }
    var decoded := Decode(value.value);
    if decoded.None? {
      return Err(BadBase64);
    }
    var data := decoded.value;
    if |data| > maxBytes {
      return Err(TooLarge);
    }
    assert DecodesTo(req, maxBytes, data);
    if data == [] || |data| % 4 != 0 {
      return Err(BadLength);
    }
    if req.dim.Some? && (req.dim.value <= 0 || req.dim.value != |data| / 4) {
      return Err(BadDim);
    }
    var finite := ScanBlocks(data);
    if !finite {
      return Err(NotFinite);
    }
    r := Ok(data);
  }
}
