/** The percent decoder the connection form runs over a stored URL's parts. */
module Percent {
  import opened Wrappers

  type Byte = b: int | 0 <= b < 256

  const PERCENT: Byte := 0x25
  const PLUS: Byte := 0x2B

  function HexDigit(b: Byte): Option<Byte> {
    if 0x30 <= b <= 0x39 then Some(b - 0x30)
    else if 0x41 <= b <= 0x46 then Some(b - 0x41 + 10)
    else if 0x61 <= b <= 0x66 then Some(b - 0x61 + 10)
    else None
  }

  /** Two characters read in base 16, where a leading plus sign is allowed. */
  function ParseHexPair(a: Byte, b: Byte): Option<Byte> {
    match (HexDigit(a), HexDigit(b))
    case (Some(hi), Some(lo)) => if hi < 16 && lo < 16 then Some(16 * hi + lo) else None
    case (None, Some(lo)) => if a == PLUS then Some(lo) else None
    case _ => None
  }

  /** `None` when an escape that has its two characters is not a number. */
  function PercentDecode(raw: seq<Byte>): Option<seq<Byte>> {
    if raw == [] then Some([])
    else if raw[0] == PERCENT && 2 < |raw| then
      match ParseHexPair(raw[1], raw[2])
      case None => None
      case Some(value) => Prepend([value], PercentDecode(raw[3..]))
    else Prepend([raw[0]], PercentDecode(raw[1..]))
  }

  function Prepend(front: seq<Byte>, rest: Option<seq<Byte>>): Option<seq<Byte>> {
    match rest
    case None => None
    case Some(back) => Some(front + back)
  }

  lemma PrependTwice(a: seq<Byte>, b: seq<Byte>, rest: Option<seq<Byte>>)
    ensures Prepend(a, Prepend(b, rest)) == Prepend(a + b, rest)
  {
    assert rest.Some? ==> a + (b + rest.value) == a + b + rest.value;
  }

  method PercentDecodeLoop(raw: seq<Byte>) returns (out: Option<seq<Byte>>)
    ensures out == PercentDecode(raw)
  {
    var buffer: seq<Byte> := [];
    var i := 0;
    assert raw[0..] == raw && (PercentDecode(raw).Some? ==> [] + PercentDecode(raw).value == PercentDecode(raw).value);
    while i < |raw|
      invariant 0 <= i <= |raw|
      invariant PercentDecode(raw) == Prepend(buffer, PercentDecode(raw[i..]))
    {
      PrependTwice(buffer, [raw[i]], PercentDecode(raw[i + 1..]));
      if raw[i] == PERCENT && i + 2 < |raw| {
        var value := ParseHexPair(raw[i + 1], raw[i + 2]);
        if value.None? {
          return None;
        }
        assert raw[i..][3..] == raw[i + 3..];
        PrependTwice(buffer, [value.value], PercentDecode(raw[i + 3..]));
        buffer := buffer + [value.value];
        i := i + 3;
      } else {
        assert raw[i..][1..] == raw[i + 1..];
        buffer := buffer + [raw[i]];
        i := i + 1;
      }
    }
    assert raw[i..] == [] && buffer + [] == buffer;
    return Some(buffer);
  }

  /** What the form shows: the decoded text, or the raw one when that is not valid text. */
  function Decode(raw: seq<Byte>, isUtf8: seq<Byte> -> bool): seq<Byte> {
    var decoded := PercentDecode(raw);
    if decoded.Some? && isUtf8(decoded.value) then decoded.value else raw
  }

  const UPPER: string := "0123456789ABCDEF"
  const LOWER: string := "0123456789abcdef"

  /** The digits, in either case, stand for their places; nothing else is one. */
  lemma HexDigitsInOrder(b: Byte, n: Byte)
    ensures HexDigit(b) == Some(n) <==> n < 16 && (b == UPPER[n] as int || b == LOWER[n] as int)
  {
    assert |UPPER| == 16 && |LOWER| == 16;
  }

  /** Two digits are read with the first as the higher. */
  lemma HexPairsAreNumbers(a: Byte, b: Byte, hi: Byte, lo: Byte)
    requires HexDigit(a) == Some(hi) && HexDigit(b) == Some(lo)
    ensures hi < 16 && lo < 16 && ParseHexPair(a, b) == Some(16 * hi + lo)
  {
    HexDigitsInOrder(a, hi);
    HexDigitsInOrder(b, lo);
  }

  // -- encoding --------------------------------------------------------------------------

  /** Spells each of the sixteen digits, in whichever case. */
  ghost predicate IsHexSpelling(hex: Byte -> Byte) {
    forall n: Byte | n < 16 :: HexDigit(hex(n)) == Some(n)
  }

  /** The encoding of section 2.1 of RFC 3986, for a chosen set of bytes to escape. */
  function Encode(text: seq<Byte>, escaped: set<Byte>, hex: Byte -> Byte): seq<Byte> {
    if text == [] then []
    else
      (if text[0] in escaped then [PERCENT, hex(text[0] / 16), hex(text[0] % 16)] else [text[0]])
      + Encode(text[1..], escaped, hex)
  }

  /** One escaped byte at the front is decoded to that byte. */
  lemma EscapedByteDecodes(b: Byte, rest: seq<Byte>, hex: Byte -> Byte)
    requires IsHexSpelling(hex)
    ensures PercentDecode([PERCENT, hex(b / 16), hex(b % 16)] + rest) == Prepend([b], PercentDecode(rest))
  {
    var hi: Byte, lo: Byte := b / 16, b % 16;
    var code := [PERCENT, hex(hi), hex(lo)] + rest;
    assert HexDigit(hex(hi)) == Some(hi) && HexDigit(hex(lo)) == Some(lo);
    assert ParseHexPair(hex(hi), hex(lo)) == Some(b);
    assert code[3..] == rest;
  }

  lemma {:induction false} DecodeUndoesEncode(text: seq<Byte>, escaped: set<Byte>, hex: Byte -> Byte)
    requires PERCENT in escaped && IsHexSpelling(hex)
    ensures PercentDecode(Encode(text, escaped, hex)) == Some(text)
    decreases |text|
  {
    if text != [] {
      var b, rest := text[0], Encode(text[1..], escaped, hex);
      DecodeUndoesEncode(text[1..], escaped, hex);
      if b in escaped {
        EscapedByteDecodes(b, rest, hex);
      } else {
        var code := [b] + rest;
        assert code[1..] == rest;
      }
      assert [b] + text[1..] == text;
    }
  }

  /** Without an escaped percent sign the text `%41` does not survive, whatever else is escaped. */
  lemma UnescapedPercentIsLost(escaped: set<Byte>, hex: Byte -> Byte)
    requires PERCENT !in escaped && IsHexSpelling(hex)
    ensures PercentDecode(Encode([PERCENT, 0x34, 0x31], escaped, hex)) != Some([PERCENT, 0x34, 0x31])
  {
    var text: seq<Byte> := [PERCENT, 0x34, 0x31];
    var one: seq<Byte>, two: seq<Byte> := [0x31], [0x34, 0x31];
    assert text[1..] == two && two[1..] == one && one[1..] == [];
    assert Encode(one[1..], escaped, hex) == [];
    var tail := Encode(one, escaped, hex);
    var code := Encode(text, escaped, hex);
    assert Encode(two, escaped, hex) == (if 0x34 in escaped then [PERCENT, hex(3), hex(4)] else [0x34]) + tail;
    assert tail == (if 0x31 in escaped then [PERCENT, hex(3), hex(1)] else [0x31]) + [];
    assert code == [PERCENT] + ((if 0x34 in escaped then [PERCENT, hex(3), hex(4)] else [0x34]) + tail);
    if 0x34 in escaped {
      assert code[1] == PERCENT && HexDigit(PERCENT).None?;
    } else if 0x31 in escaped {
      assert code[1] == 0x34 && code[2] == PERCENT && HexDigit(PERCENT).None?;
    } else {
      assert code[1] == 0x34 && code[2] == 0x31;
      assert ParseHexPair(0x34, 0x31) == Some(0x41);
    }
  }

  /** Decoding undoes encoding on every text if and only if the percent sign is among the escaped bytes. */
  lemma DecodeUndoesEncodeIffPercentIsEscaped(escaped: set<Byte>, hex: Byte -> Byte)
    requires IsHexSpelling(hex)
    ensures (forall text :: PercentDecode(Encode(text, escaped, hex)) == Some(text)) <==> PERCENT in escaped
  {
    if PERCENT in escaped {
      forall text
        ensures PercentDecode(Encode(text, escaped, hex)) == Some(text)
      {
        DecodeUndoesEncode(text, escaped, hex);
      }
    } else {
      UnescapedPercentIsLost(escaped, hex);
    }
  }

  /** What the form shows for an encoded part is the part, as long as it was text to begin with. */
  lemma FormShowsWhatWasEncoded(text: seq<Byte>, escaped: set<Byte>, hex: Byte -> Byte, isUtf8: seq<Byte> -> bool)
    requires PERCENT in escaped && IsHexSpelling(hex) && isUtf8(text)
    ensures Decode(Encode(text, escaped, hex), isUtf8) == text
  {
    DecodeUndoesEncode(text, escaped, hex);
  }

  /** And anything that does not decode, or not to text, is shown as it is. */
  lemma FormFallsBackToRaw(raw: seq<Byte>, isUtf8: seq<Byte> -> bool)
    requires PercentDecode(raw).None? || !isUtf8(PercentDecode(raw).value)
    ensures Decode(raw, isUtf8) == raw
  {
  }

  // -- on arbitrary input -------------------------------------------------------------------

  lemma {:induction false} DecodingNeverLengthens(raw: seq<Byte>)
    ensures PercentDecode(raw).Some? ==> |PercentDecode(raw).value| <= |raw|
    decreases |raw|
  {
    if raw != [] {
      if raw[0] == PERCENT && 2 < |raw| {
        DecodingNeverLengthens(raw[3..]);
      } else {
        DecodingNeverLengthens(raw[1..]);
      }
    }
  }

  /** Escape-free text is shown as it is, and so is an escape cut short at the end. */
  lemma {:induction false} PlainTextIsItself(raw: seq<Byte>)
    requires forall i | 0 <= i < |raw| - 2 :: raw[i] != PERCENT
    ensures PercentDecode(raw) == Some(raw)
    decreases |raw|
  {
    if raw != [] {
      PlainTextIsItself(raw[1..]);
      assert [raw[0]] + raw[1..] == raw;
    }
  }

  /** Only complete escapes change anything: the decoder is the identity exactly on inputs without one. */
  lemma {:induction false} IdentityMeansNoCompleteEscape(raw: seq<Byte>)
    ensures PercentDecode(raw) == Some(raw) <==> forall i | 0 <= i < |raw| - 2 :: raw[i] != PERCENT
    decreases |raw|
  {
    if forall i | 0 <= i < |raw| - 2 :: raw[i] != PERCENT {
      PlainTextIsItself(raw);
    } else {
      ShorterAfterAnEscape(raw);
    }
  }

  lemma {:induction false} ShorterAfterAnEscape(raw: seq<Byte>)
    requires exists i | 0 <= i < |raw| - 2 :: raw[i] == PERCENT
    ensures PercentDecode(raw).Some? ==> |PercentDecode(raw).value| < |raw|
    decreases |raw|
  {
    if raw[0] == PERCENT {
      DecodingNeverLengthens(raw[3..]);
    } else {
      var i :| 0 <= i < |raw| - 2 && raw[i] == PERCENT;
      assert raw[1..][i - 1] == PERCENT;
      ShorterAfterAnEscape(raw[1..]);
    }
  }

  // -- against the RFC's grammar --------------------------------------------------------------

  /** Section 2.1 of RFC 3986: an escape is a percent sign and two hexadecimal digits. */
  function StrictHexPair(a: Byte, b: Byte): Option<Byte> {
    if HexDigit(a).Some? && HexDigit(b).Some? then ParseHexPair(a, b) else None
  }

  /** The same decoder with the RFC's escapes. */
  function StrictDecode(raw: seq<Byte>): Option<seq<Byte>> {
    if raw == [] then Some([])
    else if raw[0] == PERCENT && 2 < |raw| then
      match StrictHexPair(raw[1], raw[2])
      case None => None
      case Some(value) => Prepend([value], StrictDecode(raw[3..]))
    else Prepend([raw[0]], StrictDecode(raw[1..]))
  }

  /** An escape is accepted exactly when it is two digits, or a plus sign and a digit. */
  lemma AcceptedPairs(a: Byte, b: Byte)
    ensures ParseHexPair(a, b).Some? <==> HexDigit(b).Some? && (HexDigit(a).Some? || a == PLUS)
  {
  }

  datatype Escape = Escape(first: Byte, second: Byte)

  predicate IsSigned(e: Escape) {
    e.first == PLUS && HexDigit(e.second).Some?
  }

  predicate IsNumber(e: Escape) {
    HexDigit(e.first).Some? && HexDigit(e.second).Some?
  }

  /** The complete escapes of a text as a scan from the left meets them, whatever they say. */
  function Escapes(raw: seq<Byte>): seq<Escape> {
    if raw == [] then []
    else if raw[0] == PERCENT && 2 < |raw| then [Escape(raw[1], raw[2])] + Escapes(raw[3..])
    else Escapes(raw[1..])
  }

  /** Each decoder succeeds exactly when it accepts every escape on the way. */
  lemma {:induction false} SucceedsIffEscapesAreAccepted(raw: seq<Byte>)
    ensures PercentDecode(raw).Some? <==> forall e | e in Escapes(raw) :: IsNumber(e) || IsSigned(e)
    ensures StrictDecode(raw).Some? <==> forall e | e in Escapes(raw) :: IsNumber(e)
    decreases |raw|
  {
    if raw != [] {
      if raw[0] == PERCENT && 2 < |raw| {
        var e := Escape(raw[1], raw[2]);
        AcceptedPairs(e.first, e.second);
        SucceedsIffEscapesAreAccepted(raw[3..]);
        var rest := Escapes(raw[3..]);
        assert Escapes(raw) == [e] + rest && e in Escapes(raw);
        assert forall x :: x in Escapes(raw) <==> x == e || x in rest;
        assert PercentDecode(raw).Some? <==> ParseHexPair(raw[1], raw[2]).Some? && PercentDecode(raw[3..]).Some?;
        assert StrictDecode(raw).Some? <==> IsNumber(e) && StrictDecode(raw[3..]).Some?;
      } else {
        SucceedsIffEscapesAreAccepted(raw[1..]);
      }
    }
  }

  lemma {:induction false} SameOnNumbers(raw: seq<Byte>)
    requires forall e | e in Escapes(raw) :: IsNumber(e)
    ensures PercentDecode(raw) == StrictDecode(raw)
    decreases |raw|
  {
    if raw != [] {
      if raw[0] == PERCENT && 2 < |raw| {
        assert Escape(raw[1], raw[2]) in Escapes(raw);
        assert forall x | x in Escapes(raw[3..]) :: x in Escapes(raw);
        SameOnNumbers(raw[3..]);
      } else {
        SameOnNumbers(raw[1..]);
      }
    }
  }

  /**
   Where the decoder and the RFC part: they disagree on a text if and only if a
   scan of it meets a signed escape and no escape that neither accepts.
   */
  lemma DisagreesWithTheRfcIffASignIsMet(raw: seq<Byte>)
    ensures PercentDecode(raw) != StrictDecode(raw)
            <==> && (exists e | e in Escapes(raw) :: IsSigned(e))
                 && (forall e | e in Escapes(raw) :: IsNumber(e) || IsSigned(e))
  {
    SucceedsIffEscapesAreAccepted(raw);
    if forall e | e in Escapes(raw) :: IsNumber(e) {
      SameOnNumbers(raw);
      assert forall e | e in Escapes(raw) :: !IsSigned(e);
    }
  }

  /** For instance `%+5`, which decodes to the byte 5. */
  lemma PlusSignIsAccepted()
    ensures PercentDecode([PERCENT, PLUS, 0x35]) == Some([5]) && StrictDecode([PERCENT, PLUS, 0x35]) == None
  {
    var raw: seq<Byte> := [PERCENT, PLUS, 0x35];
    assert raw[3..] == [] && PercentDecode(raw[3..]) == Some([]);
    assert HexDigit(PLUS).None? && ParseHexPair(raw[1], raw[2]) == Some(5);
    var five: seq<Byte> := [5];
    assert PercentDecode(raw) == Prepend(five, Some([])) && five + [] == five;
  }
}
