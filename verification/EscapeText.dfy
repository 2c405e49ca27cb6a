/** What the emitted text looks like, stated without the functions that make it. */
module EscapeText {
  import opened Bytes
  import opened Utf8
  import opened Escape

  /** Printable ASCII. */
  predicate IsPrintable(t: seq<byte>)
  {
    forall i :: 0 <= i < |t| ==> 0x20 <= t[i] <= 0x7E
  }

  lemma {:induction false} HexIsPrintable(v: nat, digits: nat)
    ensures IsPrintable(Hex(v, digits))
  {
    if digits > 0 {
      HexIsPrintable(v / 16, digits - 1);
    }
  }

  lemma {:induction false} PieceIsPrintable(s: seq<byte>, allowNonUtf8: bool, p: Piece)
    requires s != [] && NextPiece(s, allowNonUtf8, false) == Some(p)
    ensures IsPrintable(p.text)
  {
    hide Decode, Hex, IsPrintable, Encode;
    var c := s[0];
    match ShortEscape(c)
    case Some(e) => TwoPrintable(e);
    case None =>
      if 0x20 <= c <= 0x7E {
        OnePrintable(c);
      } else {
        match Decode(s)
        case None =>
          HexIsPrintable(c, 2);
          Joined([BACKSLASH, 0x78], Hex(c, 2));
        case Some(d) =>
          EncodeOfDecode(s, d);
          CodeIsPrintable(d.u);
      }
  }

  lemma {:induction false} OnePrintable(c: byte)
    requires 0x20 <= c <= 0x7E
    ensures IsPrintable([c])
  {
  }

  lemma {:induction false} TwoPrintable(e: byte)
    requires exists c :: ShortEscape(c) == Some(e)
    ensures IsPrintable([BACKSLASH, e])
  {
  }

  lemma {:induction false} Joined(x: seq<byte>, y: seq<byte>)
    requires (x == [BACKSLASH, 0x78] || x == [BACKSLASH, 0x75] || IsPrintable(x)) && IsPrintable(y)
    ensures IsPrintable(x + y)
  {
  }

  lemma {:induction false} CodeIsPrintable(u: nat)
    requires Scalar(u)
    ensures IsPrintable(CodeEscape(u))
  {
    hide Hex, IsPrintable;
    if u <= 0xFFFF {
      HexIsPrintable(u, 4);
      Joined([BACKSLASH, 0x75], Hex(u, 4));
    } else {
      var high, low := (u - 0x1_0000) / 0x400 + 0xD800, (u - 0x1_0000) % 0x400 + 0xDC00;
      HexIsPrintable(high, 4);
      HexIsPrintable(low, 4);
      Joined([BACKSLASH, 0x75], Hex(high, 4));
      Joined([BACKSLASH, 0x75], Hex(low, 4));
      Joined(UnicodeEscape(high), UnicodeEscape(low));
    }
  }

  lemma {:induction false} BodyIsPrintable(s: seq<byte>, allowNonUtf8: bool)
    requires Body(s, allowNonUtf8, false).Some?
    ensures IsPrintable(Body(s, allowNonUtf8, false).value)
  {
    hide NextPiece, IsPrintable;
    if s == [] {
      NothingPrintable();
    } else {
      var p := NextPiece(s, allowNonUtf8, false).value;
      PieceIsPrintable(s, allowNonUtf8, p);
      BodyIsPrintable(s[p.used..], allowNonUtf8);
      Joined(p.text, Body(s[p.used..], allowNonUtf8, false).value);
    }
  }

  lemma {:induction false} NothingPrintable()
    ensures IsPrintable([])
  {
  }

  /** Without natural UTF-8, whatever the input, only printable ASCII comes out. */
  lemma {:induction false} EscapedIsPrintable(s: seq<byte>, allowNonUtf8: bool)
    requires Escaped(s, allowNonUtf8, false).Some?
    ensures forall i :: 0 <= i < |Escaped(s, allowNonUtf8, false).value| ==>
              0x20 <= Escaped(s, allowNonUtf8, false).value[i] <= 0x7E
  {
    hide Body, IsPrintable;
    BodyIsPrintable(s, allowNonUtf8);
    OnePrintable(0x22);
    var body := Body(s, allowNonUtf8, false).value;
    Joined([0x22], body);
    Joined([0x22] + body, [0x22]);
    ShowPrintable([0x22] + body + [0x22]);
  }

  lemma {:induction false} ShowPrintable(t: seq<byte>)
    requires IsPrintable(t)
    ensures forall i :: 0 <= i < |t| ==> 0x20 <= t[i] <= 0x7E
  {
  }

  /** Each of the seven special characters by its letter, everything else as it is. */
  function Substituted(s: seq<byte>): seq<byte>
  {
    if s == [] then []
    else
      (if s[0] == 0x0A then [0x5C, 0x6E]
       else if s[0] == 0x09 then [0x5C, 0x74]
       else if s[0] == 0x0D then [0x5C, 0x72]
       else if s[0] == 0x08 then [0x5C, 0x62]
       else if s[0] == 0x0C then [0x5C, 0x66]
       else if s[0] == 0x22 then [0x5C, 0x22]
       else if s[0] == 0x5C then [0x5C, 0x5C]
       else [s[0]]) + Substituted(s[1..])
  }

  predicate IsSpecial(c: byte)
  {
    c == 0x0A || c == 0x09 || c == 0x0D || c == 0x08 || c == 0x0C || c == 0x22 || c == 0x5C
  }

  lemma {:induction false} SubstitutedFirst(c: byte, rest: seq<byte>)
    requires !IsSpecial(c)
    ensures Substituted([c] + rest) == [c] + Substituted(rest)
  {
    assert ([c] + rest)[1..] == rest;
  }

  lemma {:induction false} SubstitutedRaw(x: seq<byte>, rest: seq<byte>)
    requires forall i :: 0 <= i < |x| ==> !IsSpecial(x[i])
    ensures Substituted(x + rest) == x + Substituted(rest)
  {
    hide Substituted, IsSpecial;
    if x == [] {
      assert x + rest == rest;
    } else {
      SubstitutedRaw(x[1..], rest);
      assert x + rest == [x[0]] + (x[1..] + rest);
      SubstitutedFirst(x[0], x[1..] + rest);
      assert [x[0]] + (x[1..] + Substituted(rest)) == x + Substituted(rest);
    }
  }

  /** A character of more than one byte has no special byte in it. */
  lemma {:induction false} RawHasNoSpecial(s: seq<byte>, d: Decoded)
    requires s != [] && Decode(s) == Some(d) && !IsSpecial(s[0])
    ensures 1 <= d.n <= |s| && forall i :: 0 <= i < d.n ==> !IsSpecial(s[..d.n][i])
  {
    hide Decode, Continuation, Shift;
    EncodeOfDecode(s, d);
    if d.n > 1 {
      var n := More(d.u);
      assert s[..d.n] == [s[0]] + Continuation(d.u, n);
      forall i | 1 <= i < d.n
        ensures !IsSpecial(s[..d.n][i])
      {
        assert s[..d.n][i] == Continuation(d.u, n)[i - 1];
      }
    }
  }

  lemma {:induction false} SpecialEscape(c: byte, rest: seq<byte>)
    requires IsSpecial(c)
    ensures ShortEscape(c).Some? && Substituted([c] + rest) == [0x5C, ShortEscape(c).value] + Substituted(rest)
  {
    assert ([c] + rest)[1..] == rest;
  }

  lemma {:induction false} BodySubstitutes(s: seq<byte>, allowNonUtf8: bool)
    requires WellFormed(s)
    ensures Body(s, allowNonUtf8, true) == Some(Substituted(s))
  {
    hide Decode, Substituted, CharLength, CodeEscape, HexEscape;
    if s == [] {
      NothingSubstituted();
    } else {
      PieceSucceedsIff(s, allowNonUtf8, true);
      var p := NextPiece(s, allowNonUtf8, true).value;
      DecodeIsGrammar(s);
      var n := p.used;
      BodySubstitutes(s[n..], allowNonUtf8);
      assert s == s[..n] + s[n..];
      if IsSpecial(s[0]) {
        SpecialEscape(s[0], s[n..]);
        assert s[..1] == [s[0]];
      } else {
        RawHasNoSpecial(s, Decode(s).value);
        SubstitutedRaw(s[..n], s[n..]);
        assert s[..1] == [s[0]];
      }
    }
  }

  lemma {:induction false} NothingSubstituted()
    ensures Substituted([]) == []
  {
  }

  /** With natural UTF-8, well-formed text keeps every character but the seven special ones. */
  lemma {:induction false} NaturalText(s: seq<byte>, allowNonUtf8: bool)
    requires WellFormed(s)
    ensures Escaped(s, allowNonUtf8, true) == Some([0x22] + Substituted(s) + [0x22])
  {
    hide Body;
    BodySubstitutes(s, allowNonUtf8);
  }

  /** So text without any of them comes out as itself between the quotes. */
  lemma {:induction false} NaturalIsItself(s: seq<byte>, allowNonUtf8: bool)
    requires WellFormed(s) && forall i :: 0 <= i < |s| ==> s[i] !in {0x0A, 0x09, 0x0D, 0x08, 0x0C, 0x22, 0x5C}
    ensures Escaped(s, allowNonUtf8, true) == Some([0x22] + s + [0x22])
  {
    hide WellFormed, Substituted, Escaped;
    NaturalText(s, allowNonUtf8);
    SubstitutedRaw(s, []);
    NothingSubstituted();
    assert s + [] == s;
  }

  lemma {:induction false} PrintablePiece(s: seq<byte>, allowNonUtf8: bool, naturalUtf8: bool)
    requires s != [] && 0x20 <= s[0] <= 0x7E && s[0] != 0x22 && s[0] != 0x5C
    ensures NextPiece(s, allowNonUtf8, naturalUtf8) == Some(Piece([s[0]], 1))
  {
    hide Decode;
    assert ShortEscape(s[0]).None?;
  }

  /** And printable ASCII, the special characters apart, with any flags. */
  lemma {:induction false} PrintableIsItself(s: seq<byte>, allowNonUtf8: bool, naturalUtf8: bool)
    requires forall i :: 0 <= i < |s| ==> 0x20 <= s[i] <= 0x7E && s[i] != 0x22 && s[i] != 0x5C
    ensures Body(s, allowNonUtf8, naturalUtf8) == Some(s)
  {
    hide NextPiece;
    if s != [] {
      PrintablePiece(s, allowNonUtf8, naturalUtf8);
      PrintableIsItself(s[1..], allowNonUtf8, naturalUtf8);
      assert [s[0]] + s[1..] == s;
    }
  }

  /** The special characters, with any flags and whatever follows. */
  lemma {:induction false} SpecialPieces(c: byte, rest: seq<byte>, allowNonUtf8: bool, naturalUtf8: bool)
    requires IsSpecial(c)
    ensures NextPiece([c] + rest, allowNonUtf8, naturalUtf8) == Some(Piece(Substituted([c]), 1))
  {
    hide Decode;
    SpecialEscape(c, []);
    NothingSubstituted();
    assert [c] + [] == [c] && [BACKSLASH, ShortEscape(c).value] + [] == [BACKSLASH, ShortEscape(c).value];
  }

  // ---------------------------------------------------------------------------------------------
  // The escapes, letter by letter

  function Ascii(t: string): (s: seq<byte>)
    requires forall i :: 0 <= i < |t| ==> t[i] < 128 as char
    ensures |s| == |t|
  {
    seq(|t|, i requires 0 <= i < |t| => t[i] as int)
  }

  lemma {:induction false} HexDigits(d: nat)
    requires d < 16
    ensures [HexDigit(d)] == [Ascii("0123456789ABCDEF")[d]]
  {
  }

  lemma {:induction false} Hex2(a: nat, b: nat, v: nat)
    requires a < 16 && b < 16 && v == 16 * a + b
    ensures Hex(v, 2) == [Ascii("0123456789ABCDEF")[a], Ascii("0123456789ABCDEF")[b]]
  {
    assert v / 16 == a && v % 16 == b;
    assert Hex(a, 1) == Hex(a / 16, 0) + [HexDigit(a % 16)];
    HexDigits(a);
    HexDigits(b);
  }

  lemma {:induction false} Hex4(a: nat, b: nat, c: nat, d: nat, v: nat)
    requires a < 16 && b < 16 && c < 16 && d < 16 && v == 16 * (16 * (16 * a + b) + c) + d
    ensures Hex(v, 4) == [Ascii("0123456789ABCDEF")[a], Ascii("0123456789ABCDEF")[b],
                          Ascii("0123456789ABCDEF")[c], Ascii("0123456789ABCDEF")[d]]
  {
    var x := 16 * (16 * a + b) + c;
    assert v / 16 == x && v % 16 == d && x / 16 == 16 * a + b && x % 16 == c;
    Hex2(a, b, 16 * a + b);
    assert Hex(x, 3) == Hex(16 * a + b, 2) + [HexDigit(c)];
    assert Hex(v, 4) == Hex(x, 3) + [HexDigit(d)];
    HexDigits(c);
    HexDigits(d);
  }

  /** An ill-formed byte: \x and two capital hexadecimal digits, the high one first. */
  lemma {:induction false} IllFormedPiece(s: seq<byte>, a: nat, b: nat, naturalUtf8: bool)
    requires s != [] && a < 16 && b < 16 && s[0] == 16 * a + b && CharLength(s) == 0
    ensures NextPiece(s, true, naturalUtf8) == Some(Piece(
      Ascii("\\x") + [Ascii("0123456789ABCDEF")[a], Ascii("0123456789ABCDEF")[b]], 1))
  {
    hide Decode, Hex, HexDigit;
    DecodeIsGrammar(s);
    Hex2(a, b, s[0]);
    assert s[0] >= 0x80;
    assert Ascii("\\x") == [BACKSLASH, 0x78];
  }

  /** The code point of the character a string starts with, by the bits of its bytes. */
  function CodePoint(s: seq<byte>): nat
    requires s != [] && 0 < CharLength(s) <= |s|
  {
    match CharLength(s)
    case 1 => s[0]
    case 2 => Bits(s, 0, 0x20) * 0x40 + Bits(s, 1, 0x40)
    case 3 => (Bits(s, 0, 0x10) * 0x40 + Bits(s, 1, 0x40)) * 0x40 + Bits(s, 2, 0x40)
    case _ => ((Bits(s, 0, 0x08) * 0x40 + Bits(s, 1, 0x40)) * 0x40 + Bits(s, 2, 0x40)) * 0x40 + Bits(s, 3, 0x40)
  }

  function Bits(s: seq<byte>, i: nat, n: nat): nat
    requires n > 0
  {
    if i < |s| then s[i] % n else 0
  }

  lemma {:induction false} TwoBytes(s: seq<byte>, d: Decoded)
    requires s != [] && 0xC0 <= s[0] < 0xE0 && Decode(s) == Some(d)
    ensures d.n == 2 && d.u == Bits(s, 0, 0x20) * 0x40 + Bits(s, 1, 0x40)
  {
    hide Decode, CharLength;
    Decode2(s, s[0] - 0xC0);
    assert s[0] % 0x20 == s[0] - 0xC0;
  }

  lemma {:induction false} ThreeBytes(s: seq<byte>, d: Decoded)
    requires s != [] && 0xE0 <= s[0] < 0xF0 && Decode(s) == Some(d)
    ensures d.n == 3 && d.u == (Bits(s, 0, 0x10) * 0x40 + Bits(s, 1, 0x40)) * 0x40 + Bits(s, 2, 0x40)
  {
    hide Decode, CharLength;
    Decode3(s, s[0] - 0xE0);
    assert s[0] % 0x10 == s[0] - 0xE0;
  }

  lemma {:induction false} FourBytes(s: seq<byte>, d: Decoded)
    requires s != [] && 0xF0 <= s[0] < 0xF8 && Decode(s) == Some(d)
    ensures d.n == 4
    ensures d.u == ((Bits(s, 0, 0x08) * 0x40 + Bits(s, 1, 0x40)) * 0x40 + Bits(s, 2, 0x40)) * 0x40 + Bits(s, 3, 0x40)
  {
    hide Decode, CharLength;
    Decode4(s, s[0] - 0xF0);
    assert s[0] % 0x08 == s[0] - 0xF0;
  }

  lemma {:induction false} LengthByLead(s: seq<byte>)
    requires s != [] && CharLength(s) > 0
    ensures match CharLength(s)
      case 1 => s[0] < 0x80
      case 2 => 0xC0 <= s[0] < 0xE0
      case 3 => 0xE0 <= s[0] < 0xF0
      case 4 => 0xF0 <= s[0] < 0xF8
      case _ => false
  {
  }

  lemma {:induction false} DecodeIsCodePoint(s: seq<byte>)
    requires s != [] && CharLength(s) > 0
    ensures CharLength(s) <= |s| && Decode(s) == Some(Decoded(CodePoint(s), CharLength(s)))
  {
    hide Tail, CharLength, Bits, Accepts;
    DecodeIsGrammar(s);
    var d := Decode(s).value;
    EncodeOfDecode(s, d);
    LengthByLead(s);
    match d.n {
      case 1 =>
      case 2 => TwoBytes(s, d);
      case 3 => ThreeBytes(s, d);
      case _ => FourBytes(s, d);
    }
  }

  /** A character that is neither special nor printable, without natural UTF-8: \\u and four capital digits, or
      above U+FFFF two of these, of the surrogates of UTF-16. */
  lemma {:induction false} CodePointPiece(s: seq<byte>, allowNonUtf8: bool)
    requires s != [] && CharLength(s) > 0 && !IsSpecial(s[0]) && !(0x20 <= s[0] <= 0x7E)
    ensures CharLength(s) <= |s|
    ensures var u := CodePoint(s);
      NextPiece(s, allowNonUtf8, false) == Some(Piece(
        if u < 0x1_0000 then Ascii("\\u") + Hex(u, 4)
        else Ascii("\\u") + Hex(0xD800 + (u - 0x1_0000) / 0x400, 4)
             + (Ascii("\\u") + Hex(0xDC00 + (u - 0x1_0000) % 0x400, 4)),
        CharLength(s)))
  {
    hide Decode, Hex, CharLength, CodePoint, Encode;
    DecodeIsCodePoint(s);
    EncodeOfDecode(s, Decode(s).value);
    assert Ascii("\\u") == [BACKSLASH, 0x75];
  }

  lemma {:induction false} TwoByteExample(rest: seq<byte>)
    ensures NextPiece([0xC3, 0xA9] + rest, true, false) == Some(Piece(Ascii("\\u00E9"), 2))
    ensures NextPiece([0xC3, 0xA9] + rest, true, true) == Some(Piece([0xC3, 0xA9], 2))
  {
    hide Decode, Hex, Encode;
    var s := [0xC3, 0xA9] + rest;
    assert CharLength(s) == 2 && CodePoint(s) == 0xE9;
    CodePointPiece(s, true);
    Hex4(0, 0, 14, 9, 0xE9);
    assert Ascii("\\u00E9") == Ascii("\\u") + Hex(0xE9, 4);
    DecodeIsCodePoint(s);
    assert s[..2] == [0xC3, 0xA9];
  }

  lemma {:induction false} FourByteExample(rest: seq<byte>)
    ensures NextPiece([0xF0, 0x9F, 0x98, 0x80] + rest, true, false) == Some(Piece(Ascii("\\uD83D\\uDE00"), 4))
  {
    hide Decode, Hex, Encode, NextPiece;
    var s := [0xF0, 0x9F, 0x98, 0x80] + rest;
    assert CharLength(s) == 4 && CodePoint(s) == 0x1_F600;
    CodePointPiece(s, true);
    SmileDigits();
  }

  lemma {:induction false} SmileDigits()
    ensures Ascii("\\uD83D\\uDE00") == Ascii("\\u") + Hex(0xD83D, 4) + (Ascii("\\u") + Hex(0xDE00, 4))
  {
    hide Hex;
    Hex4(13, 8, 3, 13, 0xD83D);
    Hex4(13, 14, 0, 0, 0xDE00);
    assert Hex(0xD83D, 4) == Ascii("D83D") && Hex(0xDE00, 4) == Ascii("DE00");
  }

  lemma {:induction false} IllFormedExample(rest: seq<byte>)
    ensures NextPiece([0xFF] + rest, true, false) == Some(Piece(Ascii("\\xFF"), 1))
  {
    hide NextPiece;
    var s := [0xFF] + rest;
    assert CharLength(s) == 0;
    IllFormedPiece(s, 15, 15, false);
    assert Ascii("\\xFF") == Ascii("\\x") + [Ascii("0123456789ABCDEF")[15], Ascii("0123456789ABCDEF")[15]];
  }
}
