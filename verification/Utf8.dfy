/**
  Text as the wire carries it: UTF-8 as section 3 of RFC 3629 defines it, blank
  text, and cutting text to a byte limit.

  A text is a sequence of code points that may hold lone surrogates, which have
  no UTF-8 form.
 */
module Utf8 {
  import opened Wrappers
  import opened Bytes

  type CodePoint = c: nat | c < 0x11_0000
  type Text = seq<CodePoint>

  predicate IsSurrogate(c: CodePoint) {
    0xD800 <= c < 0xE000
  }

  predicate Encodable(text: Text) {
    forall c | c in text :: !IsSurrogate(c)
  }

  function Width(c: CodePoint): nat {
    if c < 0x80 then 1 else if c < 0x800 then 2 else if c < 0x1_0000 then 3 else 4
  }

  /** A continuation byte holding the low six bits of `c`, and what it holds. */
  function Trail(c: nat): Byte {
    0x80 + c % 64
  }

  function Low(b: Byte): int {
    b - 0x80
  }

  function EncodeChar(c: CodePoint): (bytes: seq<Byte>)
    ensures |bytes| == Width(c)
  {
    if c < 0x80 then [c]
    else if c < 0x800 then [0xC0 + c / 64, Trail(c)]
    else if c < 0x1_0000 then [0xE0 + c / 64 / 64, Trail(c / 64), Trail(c)]
    else [0xF0 + c / 64 / 64 / 64, Trail(c / 64 / 64), Trail(c / 64), Trail(c)]
  }

  function Encode(text: Text): seq<Byte> {
    if text == [] then [] else EncodeChar(text[0]) + Encode(text[1..])
  }

  predicate IsTrail(b: Byte) {
    0x80 <= b < 0xC0
  }

  /** The code point at the front of `bytes`, if they start with a well-formed one. */
  function DecodeChar(bytes: seq<Byte>): (c: Option<CodePoint>)
    ensures c.Some? ==> !IsSurrogate(c.value) && Width(c.value) <= |bytes|
  {
    if bytes == [] then None
    else
      var lead: int := bytes[0];
      if lead < 0x80 then Some(lead)
      else if 0xC2 <= lead < 0xE0 && |bytes| >= 2 && IsTrail(bytes[1]) then
        Some((lead - 0xC0) * 64 + Low(bytes[1]))
      else if 0xE0 <= lead < 0xF0 && |bytes| >= 3 && IsTrail(bytes[1]) && IsTrail(bytes[2]) then
        var c := ((lead - 0xE0) * 64 + Low(bytes[1])) * 64 + Low(bytes[2]);
        if c < 0x800 || 0xD800 <= c < 0xE000 then None else Some(c)
      else if 0xF0 <= lead < 0xF5 && |bytes| >= 4 && IsTrail(bytes[1]) && IsTrail(bytes[2]) && IsTrail(bytes[3]) then
        var c := (((lead - 0xF0) * 64 + Low(bytes[1])) * 64 + Low(bytes[2])) * 64 + Low(bytes[3]);
        if 0x1_0000 <= c < 0x11_0000 then Some(c) else None
      else None
  }

  function Decode(bytes: seq<Byte>): Option<Text>
    decreases |bytes|
  {
    if bytes == [] then Some([])
    else
      match DecodeChar(bytes)
      case None => None
      case Some(c) =>
        match Decode(bytes[Width(c)..])
        case None => None
        case Some(rest) => Some([c] + rest)
  }

  lemma CharRoundTrip(c: CodePoint, rest: seq<Byte>)
    requires !IsSurrogate(c)
    ensures DecodeChar(EncodeChar(c) + rest) == Some(c)
  {
    var bytes := EncodeChar(c) + rest;
    assert bytes[0] == EncodeChar(c)[0];
    if c >= 0x80 {
      assert bytes[1] == EncodeChar(c)[1];
      if c >= 0x800 {
        assert bytes[2] == EncodeChar(c)[2];
        if c >= 0x1_0000 {
          assert bytes[3] == EncodeChar(c)[3];
        }
      }
    }
  }

  lemma CharIsCanonical(bytes: seq<Byte>)
    requires DecodeChar(bytes).Some?
    ensures bytes[..Width(DecodeChar(bytes).value)] == EncodeChar(DecodeChar(bytes).value)
  {
    var c := DecodeChar(bytes).value;
    var lead: int := bytes[0];
    if 0xE0 <= lead < 0xF0 {
      var high := (lead - 0xE0) * 64 + Low(bytes[1]);
      assert c / 64 == high && high / 64 == lead - 0xE0;
    } else if 0xF0 <= lead {
      var top := (lead - 0xF0) * 64 + Low(bytes[1]);
      var high := top * 64 + Low(bytes[2]);
      assert c / 64 == high && high / 64 == top && top / 64 == lead - 0xF0;
    }
  }

  lemma {:induction false} TextRoundTrip(text: Text)
    requires Encodable(text)
    ensures Decode(Encode(text)) == Some(text)
  {
    if text != [] {
      assert text[0] in text && forall c | c in text[1..] :: c in text;
      CharRoundTrip(text[0], Encode(text[1..]));
      assert (EncodeChar(text[0]) + Encode(text[1..]))[Width(text[0])..] == Encode(text[1..]);
      TextRoundTrip(text[1..]);
      assert [text[0]] + text[1..] == text;
    }
  }

  lemma {:induction false} TextIsCanonical(bytes: seq<Byte>)
    requires Decode(bytes).Some?
    ensures Encodable(Decode(bytes).value) && Encode(Decode(bytes).value) == bytes
    decreases |bytes|
  {
    hide DecodeChar, EncodeChar;
    if bytes != [] {
      var c := DecodeChar(bytes).value;
      CharIsCanonical(bytes);
      TextIsCanonical(bytes[Width(c)..]);
      var rest := Decode(bytes[Width(c)..]).value;
      assert ([c] + rest)[1..] == rest;
    }
  }

  // ----- Blank text -----

  predicate IsSpace(c: CodePoint) {
    || 0x09 <= c <= 0x0D || 0x1C <= c <= 0x20 || c == 0x85 || c == 0xA0 || c == 0x1680
    || 0x2000 <= c <= 0x200A || c == 0x2028 || c == 0x2029 || c == 0x202F || c == 0x205F || c == 0x3000
  }

  predicate Blank(text: Text) {
    forall c | c in text :: IsSpace(c)
  }

  function StripLeft(text: Text): Text {
    if text != [] && IsSpace(text[0]) then StripLeft(text[1..]) else text
  }

  function StripRight(text: Text): Text {
    if text != [] && IsSpace(text[|text| - 1]) then StripRight(text[..|text| - 1]) else text
  }

  function Strip(text: Text): Text {
    StripRight(StripLeft(text))
  }

  /** What is left after stripping starts with something visible. */
  lemma {:induction false} StripRightStarts(text: Text)
    requires text != [] && !IsSpace(text[0])
    ensures StripRight(text) != [] && StripRight(text)[0] == text[0]
  {
    if IsSpace(text[|text| - 1]) {
      StripRightStarts(text[..|text| - 1]);
    }
  }

  lemma {:induction false} StrippedStarts(text: Text)
    ensures Strip(text) == [] || !IsSpace(Strip(text)[0])
  {
    if text != [] && IsSpace(text[0]) {
      StrippedStarts(text[1..]);
    } else if text != [] {
      StripRightStarts(text);
    }
  }

  // ----- Cutting to a byte limit -----

  /** Encoding that writes a question mark for what has no UTF-8 form. */
  function Replaced(text: Text): (r: Text)
    ensures |r| == |text| && Encodable(r)
  {
    seq(|text|, i requires 0 <= i < |text| => if IsSurrogate(text[i]) then 0x3F else text[i])
  }

  /** Decoding that skips every byte no well-formed code point starts with. */
  function DecodeIgnoring(bytes: seq<Byte>): Text
    decreases |bytes|
  {
    if bytes == [] then []
    else
      match DecodeChar(bytes)
      case Some(c) => [c] + DecodeIgnoring(bytes[Width(c)..])
      case None => DecodeIgnoring(bytes[1..])
  }

  function Ascii(s: string): (text: Text)
    ensures Encodable(text) && |text| == |s|
  {
    seq(|s|, i requires 0 <= i < |s| => s[i] as int)
  }

  function OrElse(text: Text, fallback: string): Text {
    if text != [] then text else Ascii(fallback)
  }

  function TruncateUtf8(value: Text, maximum: nat): Text {
    var text := OrElse(Strip(value), "FluidLink v2 request failed.");
    var encoded := Encode(Replaced(text));
    if |encoded| <= maximum then text
    else OrElse(DecodeIgnoring(encoded[..maximum]), "FluidLink v2 error.")
  }

  /** The first bytes of one code point decode to nothing when its last byte is cut off. */
  lemma CutCharIsIgnored(c: CodePoint, k: nat)
    requires k < Width(c)
    ensures DecodeIgnoring(EncodeChar(c)[..k]) == []
  {
    var cut := EncodeChar(c)[..k];
    if k > 0 {
      assert cut[0] == EncodeChar(c)[0];
      assert DecodeChar(cut).None?;
      forall b | b in cut[1..] ensures IsTrail(b) {
        var i :| 0 <= i < |cut[1..]| && cut[1..][i] == b;
        assert b == EncodeChar(c)[i + 1];
      }
      TrailsAreIgnored(cut[1..]);
    }
  }

  lemma {:induction false} TrailsAreIgnored(bytes: seq<Byte>)
    requires forall b | b in bytes :: IsTrail(b)
    ensures DecodeIgnoring(bytes) == []
  {
    if bytes != [] {
      assert IsTrail(bytes[0]);
      TrailsAreIgnored(bytes[1..]);
    }
  }

  ghost predicate LongestPrefixWithin(text: Text, maximum: nat, prefix: Text) {
    && prefix <= text
    && |Encode(prefix)| <= maximum
    && (|prefix| < |text| ==> |Encode(text[..|prefix| + 1])| > maximum)
  }

  /** Cutting the bytes and ignoring the damage keeps the longest prefix of whole code points. */
  lemma {:induction false} CutKeepsLongestPrefix(text: Text, maximum: nat)
    requires Encodable(text) && |Encode(text)| >= maximum
    ensures LongestPrefixWithin(text, maximum, DecodeIgnoring(Encode(text)[..maximum]))
    decreases |text|
  {
    hide DecodeChar, EncodeChar;
    if text != [] {
      var c, rest := text[0], text[1..];
      var cut := Encode(text)[..maximum];
      assert c in text && forall x | x in rest :: x in text;
      if maximum < Width(c) {
        assert cut == EncodeChar(c)[..maximum];
        CutCharIsIgnored(c, maximum);
        assert text[..1][1..] == [];
      } else {
        var left := Encode(rest)[..maximum - Width(c)];
        assert cut == EncodeChar(c) + left;
        CharRoundTrip(c, left);
        assert cut[Width(c)..] == left;
        CutKeepsLongestPrefix(rest, maximum - Width(c));
        var prefix := DecodeIgnoring(left);
        assert ([c] + prefix)[1..] == prefix;
        if |prefix| < |rest| {
          assert text[..|prefix| + 2][1..] == rest[..|prefix| + 1];
        }
      }
    }
  }

  /** A text that can be written in a bounded field that may not be blank. */
  predicate FitsField(text: Text, maximum: nat) {
    Encodable(text) && |Encode(text)| <= maximum && !Blank(text)
  }

  /**
    Exactly which messages survive truncation to a field of at least four bytes:
    all but those that are already short enough and hold a lone surrogate, which
    truncation only replaces when it has to cut.
   */
  predicate KeepsSurrogate(value: Text, maximum: nat) {
    var text := Strip(value);
    !Encodable(text) && |Encode(Replaced(text))| <= maximum
  }

  lemma EncodableIsUnreplaced(text: Text)
    requires Encodable(text)
    ensures Replaced(text) == text
  {
    forall i | 0 <= i < |text| ensures Replaced(text)[i] == text[i] {
      assert text[i] in text;
    }
  }

  lemma {:induction false} FirstCharFits(text: Text, maximum: nat, prefix: Text)
    requires text != [] && maximum >= 4 && LongestPrefixWithin(text, maximum, prefix)
    ensures prefix != [] && prefix[0] == text[0]
  {
    assert |Encode(text[..1])| <= 4 by {
      assert text[..1][1..] == [];
    }
  }

  lemma TruncationFits(value: Text, maximum: nat)
    requires maximum >= 28
    ensures FitsField(TruncateUtf8(value, maximum), maximum) <==> !KeepsSurrogate(value, maximum)
    ensures var text := OrElse(Strip(value), "FluidLink v2 request failed.");
            |Encode(Replaced(text))| > maximum ==>
              LongestPrefixWithin(Replaced(text), maximum, TruncateUtf8(value, maximum))
  {
    var fallback := "FluidLink v2 request failed.";
    var text := OrElse(Strip(value), fallback);
    var encoded := Encode(Replaced(text));
    StrippedStarts(value);
    if Strip(value) == [] {
      ShortAsciiFits(fallback);
      assert text[0] == 'F' as int;
    }
    assert text[0] in text;
    if |encoded| <= maximum {
      if Encodable(text) {
        EncodableIsUnreplaced(text);
      }
    } else {
      CutKeepsLongestPrefix(Replaced(text), maximum);
      var prefix := DecodeIgnoring(encoded[..maximum]);
      FirstCharFits(Replaced(text), maximum, prefix);
      assert prefix[0] in prefix;
      assert forall c | c in prefix :: c in Replaced(text);
    }
  }

  lemma {:induction false} ShortAsciiFits(s: string)
    requires forall c | c in s :: c as int < 128
    ensures |Encode(Ascii(s))| == |s|
  {
    if s != [] {
      assert Ascii(s)[1..] == Ascii(s[1..]);
      assert s[0] in s && forall c | c in s[1..] :: c in s;
      ShortAsciiFits(s[1..]);
    }
  }
}
