/** EscapeString, and a decoder for what it emits. */
module Escape {
  import opened Bytes
  import opened Utf8

  const QUOTE: byte := 0x22
  const BACKSLASH: byte := 0x5C

  /** The letter behind the backslash, for the seven characters that have one. */
  function ShortEscape(c: byte): Option<byte>
  {
    if c == 0x0A then Some(0x6E)
    else if c == 0x09 then Some(0x74)
    else if c == 0x0D then Some(0x72)
    else if c == 0x08 then Some(0x62)
    else if c == 0x0C then Some(0x66)
    else if c == QUOTE then Some(QUOTE)
    else if c == BACKSLASH then Some(BACKSLASH)
    else None
  }

  function HexDigit(d: nat): byte
    requires d < 16
  {
    if d < 10 then 0x30 + d else 0x41 + d - 10
  }

  /** IntToStringHex of a number with at most this many digits. */
  function Hex(v: nat, digits: nat): (s: seq<byte>)
    ensures |s| == digits
  {
    if digits == 0 then [] else Hex(v / 16, digits - 1) + [HexDigit(v % 16)]
  }

  function HexEscape(c: byte): seq<byte>
  {
    [BACKSLASH, 0x78] + Hex(c, 2)
  }

  function UnicodeEscape(v: nat): seq<byte>
  {
    [BACKSLASH, 0x75] + Hex(v, 4)
  }

  /** A code point as one or two escapes: above U+FFFF as a surrogate pair. */
  function CodeEscape(u: nat): seq<byte>
  {
    if u <= 0xFFFF then UnicodeEscape(u)
    else if u <= 0x10_FFFF then
      UnicodeEscape((u - 0x1_0000) / 0x400 + 0xD800) + UnicodeEscape((u - 0x1_0000) % 0x400 + 0xDC00)
    else []
  }

  /** What one turn of the loop appends, and how many bytes it uses up; `None` when it gives up. */
  datatype Piece = Piece(text: seq<byte>, used: nat)

  function NextPiece(s: seq<byte>, allowNonUtf8: bool, naturalUtf8: bool): (r: Option<Piece>)
    requires s != []
    ensures r.Some? ==> 1 <= r.value.used <= |s|
  {
    var c := s[0];
    match ShortEscape(c)
    case Some(e) => Some(Piece([BACKSLASH, e], 1))
    case None =>
      if 0x20 <= c <= 0x7E then Some(Piece([c], 1))
      else
        match Decode(s)
        case None => if allowNonUtf8 then Some(Piece(HexEscape(c), 1)) else None
        case Some(d) =>
          EncodeOfDecode(s, d);
          Some(Piece(if naturalUtf8 then s[..d.n] else CodeEscape(d.u), d.n))
  }

  function Body(s: seq<byte>, allowNonUtf8: bool, naturalUtf8: bool): Option<seq<byte>>
  {
    if s == [] then Some([])
    else
      var p :- NextPiece(s, allowNonUtf8, naturalUtf8);
      var rest :- Body(s[p.used..], allowNonUtf8, naturalUtf8);
      Some(p.text + rest)
  }

  /** EscapeString: the text it appends; `None` when it returns false. */
  function Escaped(s: seq<byte>, allowNonUtf8: bool, naturalUtf8: bool): Option<seq<byte>>
  {
    var body :- Body(s, allowNonUtf8, naturalUtf8);
    Some([QUOTE] + body + [QUOTE])
  }

  /** The loop of EscapeString. */
  method EscapeString(s: seq<byte>, text: seq<byte>, allowNonUtf8: bool, naturalUtf8: bool)
    returns (ok: bool, r: seq<byte>)
    ensures ok <==> Escaped(s, allowNonUtf8, naturalUtf8).Some?
    ensures ok ==> r == text + Escaped(s, allowNonUtf8, naturalUtf8).value
  {
    hide NextPiece;
    r := text + [QUOTE];
    ghost var start := r;
    var i: nat := 0;
    assert s[0..] == s;
    while i < |s|
      invariant i <= |s|
      invariant Body(s, allowNonUtf8, naturalUtf8).Some? <==> Body(s[i..], allowNonUtf8, naturalUtf8).Some?
      invariant Body(s, allowNonUtf8, naturalUtf8).Some? ==>
        start + Body(s, allowNonUtf8, naturalUtf8).value == r + Body(s[i..], allowNonUtf8, naturalUtf8).value
    {
      var appended, used := EscapeNext(s, i, allowNonUtf8, naturalUtf8);
      if used == 0 {
        return false, r;
      }
      assert s[i..][used..] == s[i + used..];
      r := r + appended;
      i := i + used;
    }
    assert s[i..] == [];
    ghost var body := Body(s, allowNonUtf8, naturalUtf8).value;
    assert r == r + [] == start + body;
    assert start + body + [QUOTE] == text + ([QUOTE] + body + [QUOTE]);
    r := r + [QUOTE];
    ok := true;
  }

  /** One turn of the loop; nothing is used up when it gives up. */
  method EscapeNext(s: seq<byte>, i: nat, allowNonUtf8: bool, naturalUtf8: bool)
    returns (text: seq<byte>, used: nat)
    requires i < |s|
    ensures match NextPiece(s[i..], allowNonUtf8, naturalUtf8)
      case None => used == 0
      case Some(p) => text == p.text && used == p.used
  {
    hide Decode, CodeEscape;
    var c := s[i];
    match ShortEscape(c)
    case Some(e) => return [BACKSLASH, e], 1;
    case None =>
      if 0x20 <= c <= 0x7E {
        return [c], 1;
      }
      var ucc, next := FromUTF8(s, i);
      if ucc < 0 {
        return HexEscape(c), if allowNonUtf8 then 1 else 0;
      } else if naturalUtf8 {
        assert s[i..next] == s[i..][..next - i];
        return s[i..next], next - i;
      } else {
        return CodeEscape(ucc), next - i;
      }
  }

  // ---------------------------------------------------------------------------------------------
  // The decoder

  function HexValue(c: byte): Option<nat>
  {
    if 0x30 <= c <= 0x39 then Some(c - 0x30)
    else if 0x41 <= c <= 0x46 then Some(c - 0x41 + 10)
    else None
  }

  /** The number in the first `digits` bytes. */
  function FromHex(t: seq<byte>, digits: nat): Option<nat>
  {
    if digits == 0 then Some(0)
    else if |t| < digits then None
    else
      var high :- FromHex(t, digits - 1);
      var low :- HexValue(t[digits - 1]);
      Some(16 * high + low)
  }

  function ShortUnescape(e: byte): Option<byte>
  {
    if e == 0x6E then Some(0x0A)
    else if e == 0x74 then Some(0x09)
    else if e == 0x72 then Some(0x0D)
    else if e == 0x62 then Some(0x08)
    else if e == 0x66 then Some(0x0C)
    else if e == QUOTE then Some(QUOTE)
    else if e == BACKSLASH then Some(BACKSLASH)
    else None
  }

  /** One escape or one plain byte: the bytes it stands for, and how long it is. */
  function Unescape(t: seq<byte>): (r: Option<Piece>)
    requires t != []
    ensures r.Some? ==> 1 <= r.value.used <= |t|
  {
    if t[0] != BACKSLASH then Some(Piece([t[0]], 1))
    else if |t| < 2 then None
    else if t[1] == 0x78 then
      var v :- FromHex(t[2..], 2);
      if |t| >= 4 && v < 0x100 then Some(Piece([v], 4)) else None
    else if t[1] == 0x75 then UnescapeUnicode(t)
    else
      var c :- ShortUnescape(t[1]);
      Some(Piece([c], 2))
  }

  /** A high surrogate has to be followed by the escape of a low one. */
  function UnescapeUnicode(t: seq<byte>): (r: Option<Piece>)
    requires |t| >= 2
    ensures r.Some? ==> 1 <= r.value.used <= |t|
  {
    var v :- FromHex(t[2..], 4);
    if |t| < 6 || v >= 0x1_0000 then None
    else if 0xD800 <= v < 0xDC00 then
      if |t| < 12 || t[6] != BACKSLASH || t[7] != 0x75 then None
      else
        var low :- FromHex(t[8..], 4);
        if 0xDC00 <= low < 0xE000
        then Some(Piece(Encode((v - 0xD800) * 0x400 + (low - 0xDC00) + 0x1_0000), 12)) else None
    else Some(Piece(Encode(v), 6))
  }

  /** Everything up to the closing quote, which has to be the end. */
  function UnescapeBody(t: seq<byte>): Option<seq<byte>>
  {
    if t == [] then None
    else if t[0] == QUOTE then (if |t| == 1 then Some([]) else None)
    else
      var p :- Unescape(t);
      var rest :- UnescapeBody(t[p.used..]);
      Some(p.text + rest)
  }

  function Unescaped(t: seq<byte>): Option<seq<byte>>
  {
    if t == [] || t[0] != QUOTE then None else UnescapeBody(t[1..])
  }

  lemma {:induction false} FromHexOfHex(v: nat, digits: nat, bound: nat, rest: seq<byte>)
    requires v < bound && bound == Pow16(digits)
    ensures FromHex(Hex(v, digits) + rest, digits) == Some(v)
  {
    if digits > 0 {
      FromHexOfHex(v / 16, digits - 1, bound / 16, [HexDigit(v % 16)] + rest);
      assert Hex(v, digits) + rest == Hex(v / 16, digits - 1) + ([HexDigit(v % 16)] + rest);
    }
  }

  function Pow16(n: nat): (p: nat)
    ensures p >= 1
  {
    if n == 0 then 1 else 16 * Pow16(n - 1)
  }

  /** A piece of plain bytes, none of them special. */
  predicate Plain(x: seq<byte>)
  {
    forall i :: 0 <= i < |x| ==> x[i] != QUOTE && x[i] != BACKSLASH
  }

  lemma {:induction false} PlainUnescapes(x: seq<byte>, rest: seq<byte>)
    requires Plain(x)
    ensures UnescapeBody(x + rest)
         == if UnescapeBody(rest).Some? then Some(x + UnescapeBody(rest).value) else None
  {
    if x == [] {
      assert x + rest == rest;
      if UnescapeBody(rest).Some? {
        assert x + UnescapeBody(rest).value == UnescapeBody(rest).value;
      }
    } else {
      PlainUnescapes(x[1..], rest);
      assert (x + rest)[1..] == x[1..] + rest;
      if UnescapeBody(rest).Some? {
        assert [x[0]] + (x[1..] + UnescapeBody(rest).value) == x + UnescapeBody(rest).value;
      }
    }
  }

  /** One escape in front of the rest. */
  lemma {:induction false} EscapeUnescapes(x: seq<byte>, y: seq<byte>, rest: seq<byte>)
    requires x != [] && x[0] != QUOTE && Unescape(x + rest) == Some(Piece(y, |x|))
    ensures UnescapeBody(x + rest)
         == if UnescapeBody(rest).Some? then Some(y + UnescapeBody(rest).value) else None
  {
    hide Unescape;
    assert (x + rest)[|x|..] == rest;
  }

  lemma {:induction false} ShortUnescapes(c: byte, e: byte, rest: seq<byte>)
    requires ShortEscape(c) == Some(e)
    ensures Unescape([BACKSLASH, e] + rest) == Some(Piece([c], 2))
  {
  }

  lemma {:induction false} HexUnescapes(c: byte, rest: seq<byte>)
    ensures Unescape(HexEscape(c) + rest) == Some(Piece([c], 4))
  {
    var t := HexEscape(c) + rest;
    assert Pow16(2) == 0x100;
    FromHexOfHex(c, 2, 0x100, rest);
    assert t[2..] == Hex(c, 2) + rest;
  }

  lemma {:induction false} UnicodeValue(v: nat, rest: seq<byte>)
    requires v < 0x1_0000
    ensures var t := UnicodeEscape(v) + rest; FromHex(t[2..], 4) == Some(v) && t[0] == BACKSLASH && t[1] == 0x75
  {
    var t := UnicodeEscape(v) + rest;
    assert Pow16(4) == 0x1_0000 by { assert Pow16(2) == 0x100; }
    FromHexOfHex(v, 4, 0x1_0000, rest);
    assert t[2..] == Hex(v, 4) + rest;
  }

  lemma {:induction false} CodeUnescapes(u: nat, rest: seq<byte>)
    requires Scalar(u)
    ensures Unescape(CodeEscape(u) + rest) == Some(Piece(Encode(u), |CodeEscape(u)|))
  {
    hide Encode, Hex, FromHex;
    if u <= 0xFFFF {
      UnicodeValue(u, rest);
    } else {
      var high, low := (u - 0x1_0000) / 0x400 + 0xD800, (u - 0x1_0000) % 0x400 + 0xDC00;
      var t := CodeEscape(u) + rest;
      assert t == UnicodeEscape(high) + (UnicodeEscape(low) + rest);
      UnicodeValue(high, UnicodeEscape(low) + rest);
      UnicodeValue(low, rest);
      assert t[6..] == UnicodeEscape(low) + rest;
      assert t[8..] == (UnicodeEscape(low) + rest)[2..];
      assert t[6] == t[6..][0] && t[7] == t[6..][1];
    }
  }

  /** Raw UTF-8 has no quote and no backslash in it, unless it is one of them. */
  lemma {:induction false} RawIsPlain(s: seq<byte>, d: Decoded)
    requires s != [] && Decode(s) == Some(d) && s[0] != QUOTE && s[0] != BACKSLASH
    ensures d.n <= |s| && Plain(s[..d.n])
  {
    hide Decode, Continuation, Shift;
    EncodeOfDecode(s, d);
    if d.n == 1 {
    } else {
      var n := More(d.u);
      assert s[..d.n] == [s[0]] + Continuation(d.u, n);
      forall i | 1 <= i < d.n
        ensures s[i] != QUOTE && s[i] != BACKSLASH
      {
        assert s[..d.n][i] == Continuation(d.u, n)[i - 1];
      }
    }
  }

  /** What one turn appends stands for the bytes it used up. */
  lemma {:induction false} PieceUnescapes(s: seq<byte>, allowNonUtf8: bool, naturalUtf8: bool, p: Piece, rest: seq<byte>)
    requires s != [] && NextPiece(s, allowNonUtf8, naturalUtf8) == Some(p)
    ensures UnescapeBody(p.text + rest)
         == if UnescapeBody(rest).Some? then Some(s[..p.used] + UnescapeBody(rest).value) else None
  {
    hide Decode, UnescapeBody, Unescape, Encode, CodeEscape, HexEscape;
    var c := s[0];
    assert s[..1] == [c];
    match ShortEscape(c)
    case Some(e) =>
      ShortUnescapes(c, e, rest);
      EscapeUnescapes([BACKSLASH, e], [c], rest);
    case None =>
      if 0x20 <= c <= 0x7E {
        PlainUnescapes([c], rest);
      } else {
        match Decode(s)
        case None =>
          HexUnescapes(c, rest);
          HexEscapeHead(c);
          EscapeUnescapes(HexEscape(c), [c], rest);
        case Some(d) =>
          EncodeOfDecode(s, d);
          if naturalUtf8 {
            RawIsPlain(s, d);
            PlainUnescapes(s[..d.n], rest);
          } else {
            CodeUnescapes(d.u, rest);
            CodeEscapeHead(d.u);
            EscapeUnescapes(CodeEscape(d.u), Encode(d.u), rest);
          }
      }
  }

  lemma {:induction false} HexEscapeHead(c: byte)
    ensures |HexEscape(c)| == 4 && HexEscape(c)[0] == BACKSLASH
  {
  }

  lemma {:induction false} CodeEscapeHead(u: nat)
    requires Scalar(u)
    ensures CodeEscape(u) != [] && CodeEscape(u)[0] == BACKSLASH
  {
  }

  lemma {:induction false} BodyUnescapes(s: seq<byte>, allowNonUtf8: bool, naturalUtf8: bool)
    requires Body(s, allowNonUtf8, naturalUtf8).Some?
    ensures UnescapeBody(Body(s, allowNonUtf8, naturalUtf8).value + [QUOTE]) == Some(s)
  {
    hide NextPiece, Unescape;
    if s != [] {
      var p := NextPiece(s, allowNonUtf8, naturalUtf8).value;
      var rest := Body(s[p.used..], allowNonUtf8, naturalUtf8).value;
      BodyUnescapes(s[p.used..], allowNonUtf8, naturalUtf8);
      PieceUnescapes(s, allowNonUtf8, naturalUtf8, p, rest + [QUOTE]);
      assert p.text + rest + [QUOTE] == p.text + (rest + [QUOTE]);
      assert s[..p.used] + s[p.used..] == s;
    }
  }

  /** Escaping loses nothing: with any choice of the two flags, what EscapeString emits decodes to the
      string it was given. */
  lemma {:induction false} UnescapeOfEscape(s: seq<byte>, allowNonUtf8: bool, naturalUtf8: bool)
    requires Escaped(s, allowNonUtf8, naturalUtf8).Some?
    ensures Unescaped(Escaped(s, allowNonUtf8, naturalUtf8).value) == Some(s)
  {
    hide Body, UnescapeBody;
    BodyUnescapes(s, allowNonUtf8, naturalUtf8);
    var body := Body(s, allowNonUtf8, naturalUtf8).value;
    assert ([QUOTE] + body + [QUOTE])[1..] == body + [QUOTE];
  }

  /** A string of characters of the grammar of section 4 of RFC 3629. */
  predicate WellFormed(s: seq<byte>)
  {
    s == [] || (0 < CharLength(s) <= |s| && WellFormed(s[CharLength(s)..]))
  }

  /** EscapeString returns true if ill-formed bytes are allowed, and otherwise exactly on well-formed
      UTF-8. */
  lemma {:induction false} EscapeSucceedsIff(s: seq<byte>, allowNonUtf8: bool, naturalUtf8: bool)
    ensures Escaped(s, allowNonUtf8, naturalUtf8).Some? <==> allowNonUtf8 || WellFormed(s)
  {
    hide CharLength, NextPiece;
    if s != [] {
      PieceSucceedsIff(s, allowNonUtf8, naturalUtf8);
      if NextPiece(s, allowNonUtf8, naturalUtf8).Some? {
        var p := NextPiece(s, allowNonUtf8, naturalUtf8).value;
        EscapeSucceedsIff(s[p.used..], allowNonUtf8, naturalUtf8);
      }
    }
  }

  lemma {:induction false} PieceSucceedsIff(s: seq<byte>, allowNonUtf8: bool, naturalUtf8: bool)
    requires s != []
    ensures NextPiece(s, allowNonUtf8, naturalUtf8).Some? <==> allowNonUtf8 || CharLength(s) > 0
    ensures CharLength(s) <= |s|
    ensures CharLength(s) > 0 ==> NextPiece(s, allowNonUtf8, naturalUtf8).value.used == CharLength(s)
  {
    hide Decode;
    DecodeIsGrammar(s);
    if Decode(s).Some? {
      EncodeOfDecode(s, Decode(s).value);
    }
  }
}
