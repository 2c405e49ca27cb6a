/** ToUTF8 and FromUTF8. Shifts and masks are written as division and remainder. */
module Utf8 {
  import opened Bytes

  /** For the powers of two in use: masking is a remainder, shifting a quotient, and `|` of bits that do not
      overlap a sum. */
  lemma {:induction false} MasksAreArithmetic(x: bv32, b: bv8)
    ensures x & 0x3F == x % 0x40 && x >> 6 == x / 0x40
    ensures (b & 0x3F) | 0x80 == b % 0x40 + 0x80
    ensures b & 0xC0 == 0x80 <==> b / 0x40 == 2
    ensures b & 0x1F == b % 0x20 && b & 0x0F == b % 0x10 && b & 0x07 == b % 0x08
  {
  }

  /** The first byte ToUTF8 stores, for each of the six lengths: the shifted 0xFE and the highest bits of the code
      point do not overlap in the byte that is kept of them. */
  lemma {:induction false} LeadBytesAreSums(u: bv32)
    ensures u < 0x80 ==> ((0xFE << 7) | u) & 0xFF == u
    ensures u < 0x800 ==> ((0xFE << 5) | (u >> 6)) & 0xFF == 0xC0 + (u >> 6)
    ensures u < 0x1_0000 ==> ((0xFE << 4) | (u >> 12)) & 0xFF == 0xE0 + (u >> 12)
    ensures u < 0x20_0000 ==> ((0xFE << 3) | (u >> 18)) & 0xFF == 0xF0 + (u >> 18)
    ensures u < 0x400_0000 ==> ((0xFE << 2) | (u >> 24)) & 0xFF == 0xF8 + (u >> 24)
    ensures u < 0x8000_0000 ==> ((0xFE << 1) | (u >> 30)) & 0xFF == 0xFC + (u >> 30)
  {
  }

  /** FromUTF8 makes room for six more bits and puts them there. */
  lemma {:induction false} SixMoreBits(u: bv32, b: bv32)
    requires u < 0x400_0000
    ensures (u << 6) | (b & 0x3F) == u * 0x40 + b % 0x40
  {
  }

  /** `ucc >> (6 * j)`. */
  function Shift(u: nat, j: nat): nat
  {
    if j == 0 then u else Shift(u, j - 1) / 64
  }

  /** The first byte of an encoding with `n` more bytes, and the first code point that needs more. */
  function Lead(n: nat): byte
  {
    if n == 0 then 0 else if n == 1 then 0xC0 else if n == 2 then 0xE0 else if n == 3 then 0xF0
    else if n == 4 then 0xF8 else 0xFC
  }

  function Limit(n: nat): nat
  {
    if n == 0 then 0x80 else if n == 1 then 0x800 else if n == 2 then 0x1_0000 else if n == 3 then 0x20_0000
    else if n == 4 then 0x400_0000 else 0x8000_0000
  }

  /** How many more bytes a code point takes. */
  function More(u: nat): (n: nat)
    requires u < 0x8000_0000
    ensures n <= 5 && u < Limit(n) && (n > 0 ==> Limit(n - 1) <= u)
  {
    if u < 0x80 then 0 else if u < 0x800 then 1 else if u < 0x1_0000 then 2 else if u < 0x20_0000 then 3
    else if u < 0x400_0000 then 4 else 5
  }

  /** The `n` low groups of six bits, most significant first. */
  function Continuation(u: nat, n: nat): (s: seq<byte>)
    ensures |s| == n
    ensures forall i :: 0 <= i < n ==> 0x80 <= s[i] < 0xC0
  {
    if n == 0 then [] else Continuation(u / 64, n - 1) + [0x80 + u % 64]
  }

  lemma {:induction false} LeadFits(u: nat, n: nat)
    requires n <= 5 && u < Limit(n)
    ensures Lead(n) + Shift(u, n) < 0x100
  {
    assert Shift(u, 1) == u / 64 && Shift(u, 2) == u / 64 / 64;
    assert Shift(u, 3) == Shift(u, 2) / 64 && Shift(u, 4) == Shift(u, 3) / 64 && Shift(u, 5) == Shift(u, 4) / 64;
  }

  function Encode(u: nat): (s: seq<byte>)
    requires u < 0x8000_0000
    ensures |s| == More(u) + 1
  {
    var n := More(u);
    LeadFits(u, n);
    [Lead(n) + Shift(u, n)] + Continuation(u, n)
  }

  /** The bytes of every code point, in all six lengths. */
  lemma {:induction false} EncodeLayout(u: nat)
    requires u < 0x8000_0000
    ensures Encode(u) ==
      if u < 0x80 then [u]
      else if u < 0x800 then [0xC0 + u / 0x40, 0x80 + u % 0x40]
      else if u < 0x1_0000 then [0xE0 + u / 0x1000, 0x80 + u / 0x40 % 0x40, 0x80 + u % 0x40]
      else if u < 0x20_0000 then
        [0xF0 + u / 0x4_0000, 0x80 + u / 0x1000 % 0x40, 0x80 + u / 0x40 % 0x40, 0x80 + u % 0x40]
      else if u < 0x400_0000 then
        [0xF8 + u / 0x100_0000, 0x80 + u / 0x4_0000 % 0x40, 0x80 + u / 0x1000 % 0x40, 0x80 + u / 0x40 % 0x40,
         0x80 + u % 0x40]
      else
        [0xFC + u / 0x4000_0000, 0x80 + u / 0x100_0000 % 0x40, 0x80 + u / 0x4_0000 % 0x40, 0x80 + u / 0x1000 % 0x40,
         0x80 + u / 0x40 % 0x40, 0x80 + u % 0x40]
  {
    hide Continuation, Shift, Limit;
    Groups(u);
    match More(u) {
      case 0 => Continued1(u / 0x40);
      case 1 => Continued1(u);
      case 2 => Continued2(u);
      case 3 => Continued3(u);
      case 4 => Continued4(u);
      case _ => Continued5(u);
    }
  }

  lemma {:induction false} Continued1(u: nat)
    ensures Continuation(u, 0) == [] && Continuation(u, 1) == [0x80 + u % 0x40]
  {
    assert Continuation(u / 64, 0) == [];
  }

  lemma {:induction false} Continued2(u: nat)
    ensures Continuation(u, 2) == [0x80 + u / 0x40 % 0x40, 0x80 + u % 0x40]
  {
    Continued1(u / 64);
  }

  lemma {:induction false} Continued3(u: nat)
    ensures Continuation(u, 3) == [0x80 + u / 0x1000 % 0x40, 0x80 + u / 0x40 % 0x40, 0x80 + u % 0x40]
  {
    Continued2(u / 64);
    Groups(u);
  }

  lemma {:induction false} Continued4(u: nat)
    ensures Continuation(u, 4)
         == [0x80 + u / 0x4_0000 % 0x40, 0x80 + u / 0x1000 % 0x40, 0x80 + u / 0x40 % 0x40, 0x80 + u % 0x40]
  {
    Continued3(u / 64);
    Groups(u);
  }

  lemma {:induction false} Continued5(u: nat)
    ensures Continuation(u, 5)
         == [0x80 + u / 0x100_0000 % 0x40, 0x80 + u / 0x4_0000 % 0x40, 0x80 + u / 0x1000 % 0x40, 0x80 + u / 0x40 % 0x40,
             0x80 + u % 0x40]
  {
    Continued4(u / 64);
    Groups(u);
  }

  lemma {:induction false} Groups(u: nat)
    ensures u / 0x40 / 0x40 == u / 0x1000 && u / 0x40 / 0x1000 == u / 0x4_0000
    ensures u / 0x40 / 0x4_0000 == u / 0x100_0000
    ensures Shift(u, 0) == u && Shift(u, 1) == u / 0x40 && Shift(u, 2) == u / 0x1000
    ensures Shift(u, 3) == u / 0x4_0000 && Shift(u, 4) == u / 0x100_0000 && Shift(u, 5) == u / 0x4000_0000
  {
    assert Shift(u, 1) == u / 64 && Shift(u, 2) == u / 64 / 64;
    assert Shift(u, 3) == Shift(u, 2) / 64 && Shift(u, 4) == Shift(u, 3) / 64 && Shift(u, 5) == Shift(u, 4) / 64;
  }

  /** What ToUTF8 shifts for its first byte: 0xFE, by as many bits as the first byte holds. */
  lemma {:induction false} LeadIsShifted(i: nat)
    requires i < 6
    ensures var bits := 6 + i * 5 + (if i == 0 then 1 else 0) - i * 6;
      0 <= bits <= 7 && 0xFE * Pow2(bits) % 0x100 == Lead(i)
    ensures Pow2(6 + i * 5 + if i == 0 then 1 else 0) == Limit(i)
  {
    Pow2Values();
  }

  function Pow2(n: nat): (p: nat)
    ensures p >= 1
  {
    if n == 0 then 1 else 2 * Pow2(n - 1)
  }

  lemma {:induction false} Pow2Values()
    ensures Pow2(1) == 2 && Pow2(2) == 4 && Pow2(3) == 8 && Pow2(4) == 16 && Pow2(5) == 32 && Pow2(7) == 128
    ensures Pow2(11) == 0x800 && Pow2(16) == 0x1_0000 && Pow2(21) == 0x20_0000 && Pow2(26) == 0x400_0000
    ensures Pow2(31) == 0x8000_0000
  {
    assert Pow2(4) == 16;
    assert Pow2(7) == 128;
    assert Pow2(11) == 0x800 by { assert Pow2(9) == 0x200; }
    assert Pow2(16) == 0x1_0000 by { assert Pow2(13) == 0x2000; }
    assert Pow2(21) == 0x20_0000 by { assert Pow2(18) == 0x4_0000; }
    assert Pow2(26) == 0x400_0000 by { assert Pow2(23) == 0x80_0000; }
    assert Pow2(31) == 0x8000_0000 by { assert Pow2(28) == 0x1000_0000; }
  }

  lemma {:induction false} ContinuationAt(u: nat, n: nat, j: nat)
    requires j < n
    ensures Continuation(Shift(u, j), n - j)
         == Continuation(Shift(u, j + 1), n - j - 1) + [0x80 + Shift(u, j) % 64]
  {
  }

  /** ToUTF8: try the six lengths in turn. The last assertion is never reached. */
  method ToUTF8(u: nat, out: seq<byte>) returns (r: seq<byte>, count: nat)
    requires u < 0x8000_0000
    ensures r == out + Encode(u) && count == |Encode(u)|
  {
    hide Continuation, Shift, Pow2, More;
    r := out;
    var i: nat := 0;
    while i < 6
      invariant i <= 6 && r == out && (i > 0 ==> Limit(i - 1) <= u)
    {
      LeadIsShifted(i);
      var maxBits := 6 + i * 5 + if i == 0 then 1 else 0;
      if u < Pow2(maxBits) {
        MoreIsFirst(u, i);
        LeadFits(u, i);
        r := r + [0xFE * Pow2(maxBits - i * 6) % 0x100 + Shift(u, i)];
        r := AppendContinuation(u, i, r);
        return r, i + 1;
      }
      i := i + 1;
    }
    assert false;
  }

  lemma {:induction false} MoreIsFirst(u: nat, i: nat)
    requires u < 0x8000_0000 && i <= 5 && u < Limit(i) && (i > 0 ==> Limit(i - 1) <= u)
    ensures More(u) == i
  {
  }

  /** The inner loop of ToUTF8. */
  method AppendContinuation(u: nat, i: nat, out: seq<byte>) returns (r: seq<byte>)
    requires i <= 5
    ensures r == out + Continuation(u, i)
  {
    hide Continuation, Shift;
    r := out;
    var j: nat := i;
    NoContinuation(Shift(u, i));
    while j > 0
      invariant j <= i && r == out + Continuation(Shift(u, j), i - j)
    {
      j := j - 1;
      ContinuationAt(u, i, j);
      r := r + [0x80 + Shift(u, j) % 64];
    }
    WholeQuotient(u);
  }

  lemma {:induction false} NoContinuation(u: nat)
    ensures Continuation(u, 0) == []
  {
  }

  lemma {:induction false} WholeQuotient(u: nat)
    ensures Shift(u, 0) == u
  {
  }

  // ---------------------------------------------------------------------------------------------
  // FromUTF8

  /** The leading 1 bits, of which at most six are counted. */
  function LeadingOnes(b: byte): nat
  {
    if b < 0x80 then 0 else if b < 0xC0 then 1 else if b < 0xE0 then 2 else if b < 0xF0 then 3
    else if b < 0xF8 then 4 else if b < 0xFC then 5 else 6
  }

  /** `k` bytes of six bits each. What is behind the end of the string is its terminator. */
  function Tail(s: seq<byte>, k: nat, acc: nat): Option<nat>
    decreases k
  {
    if k == 0 then Some(acc)
    else if s == [] || s[0] / 64 != 2 then None
    else Tail(s[1..], k - 1, acc * 64 + s[0] % 64)
  }

  /** The Unicode scalar values: no surrogates. */
  predicate Scalar(u: nat)
  {
    u < 0xD800 || 0xE000 <= u <= 0x10_FFFF
  }

  /** The ranges FromUTF8 insists on. */
  predicate Accepts(len: nat, u: nat)
  {
    && !(0xD800 <= u <= 0xDFFF)
    && (len == 2 ==> 0x80 <= u <= 0x7FF)
    && (len == 3 ==> 0x800 <= u <= 0xFFFF)
    && (len == 4 ==> 0x1_0000 <= u <= 0x10_FFFF)
  }

  /** A code point, and how many bytes it took. */
  datatype Decoded = Decoded(u: nat, n: nat)

  function Decode(s: seq<byte>): Option<Decoded>
    requires s != []
  {
    var len := LeadingOnes(s[0]);
    if len == 0 then Some(Decoded(s[0], 1))
    else if len < 2 || len > 4 then None
    else
      var u :- Tail(s[1..], len - 1, s[0] % Pow2(7 - len));
      if Accepts(len, u) then Some(Decoded(u, len)) else None
  }

  /** Nothing behind a terminator has any influence. */
  lemma {:induction false} TailStopsAtNul(s: seq<byte>, behind: seq<byte>, k: nat, acc: nat)
    ensures Tail(s + [0] + behind, k, acc) == Tail(s, k, acc)
    decreases k
  {
    if k > 0 && s != [] && s[0] / 64 == 2 {
      TailStopsAtNul(s[1..], behind, k - 1, acc * 64 + s[0] % 64);
      assert (s + [0] + behind)[1..] == s[1..] + [0] + behind;
    }
  }

  lemma {:induction false} DecodeStopsAtNul(s: seq<byte>, behind: seq<byte>)
    requires s != []
    ensures Decode(s + [0] + behind) == Decode(s)
  {
    hide Tail, Accepts;
    var len := LeadingOnes(s[0]);
    assert (s + [0] + behind)[1..] == s[1..] + [0] + behind;
    if 2 <= len <= 4 {
      TailStopsAtNul(s[1..], behind, len - 1, s[0] % Pow2(7 - len));
    }
  }

  /** FromUTF8, with a position in place of the address; -1 stands for a corrupt encoding. Wherever it stops,
      behind the first byte it has only passed bytes that continue a character, three at most. */
  method FromUTF8(s: seq<byte>, at: nat) returns (u: int, next: nat)
    requires at < |s|
    ensures match Decode(s[at..])
      case None => u == -1
      case Some(d) => u == d.u && next == at + d.n
    ensures at <= next <= at + 4 && next <= |s| && forall k :: at < k < next ==> s[k] / 64 == 2
  {
    hide Tail, Accepts;
    next := at;
    var len: nat := 0;
    var mask: nat := 0x80;
    while mask >= 0x04
      invariant CountedOnes(s[at], mask, len)
      decreases mask
    {
      CountStep(s[at], mask, len);
      if s[at] / mask % 2 == 1 {
        len := len + 1;
      } else {
        break;
      }
      mask := mask / 2;
    }
    CountEnd(s[at], mask, len);
    Pow2Values();
    if s[at] * Pow2(len) / 0x80 % 2 == 1 {
      return -1, next;
    }
    if len == 0 {
      return s[at], at + 1;
    }
    if len < 2 || len > 4 {
      return -1, next;
    }
    u := s[at] % Pow2(7 - len);
    next := at + 1;
    assert s[at..][1..] == s[at + 1..];
    for i := 0 to len - 1
      invariant u >= 0 && next == at + 1 + i && next <= |s| && forall k :: at < k < next ==> s[k] / 64 == 2
      invariant Tail(s[next..], len - 1 - i, u) == Tail(s[at..][1..], len - 1, s[at] % Pow2(7 - len))
    {
      TailStep(s, next, len - 1 - i, u);
      if next == |s| || s[next] / 64 != 2 {
        return -1, next;
      }
      u := u * 64 + s[next] % 64;
      next := next + 1;
    }
    TailDone(s[next..], u);
    if !Accepts(len, u) {
      u := -1;
    }
  }

  /** All bits above `mask` are 1, and `len` counts them. */
  predicate CountedOnes(b: byte, mask: nat, len: nat)
  {
    (mask == 0x80 && len == 0) || (mask == 0x40 && len == 1 && b >= 0x80) || (mask == 0x20 && len == 2 && b >= 0xC0)
    || (mask == 0x10 && len == 3 && b >= 0xE0) || (mask == 0x08 && len == 4 && b >= 0xF0)
    || (mask == 0x04 && len == 5 && b >= 0xF8) || (mask == 0x02 && len == 6 && b >= 0xFC)
  }

  lemma {:induction false} CountStep(b: byte, mask: nat, len: nat)
    requires CountedOnes(b, mask, len) && mask >= 0x04
    ensures b / mask % 2 == 1 ==> CountedOnes(b, mask / 2, len + 1)
    ensures b / mask % 2 != 1 ==> len == LeadingOnes(b)
  {
  }

  /** The bit behind the leading ones is 0, unless there are more of them than are counted. */
  lemma {:induction false} CountEnd(b: byte, mask: nat, len: nat)
    requires CountedOnes(b, mask, len) && (mask < 0x04 || len == LeadingOnes(b))
    ensures len == LeadingOnes(b)
    ensures len <= 5 ==> b * Pow2(len) / 0x80 % 2 == 0
  {
    Pow2Values();
    if len == 0 {
      assert b / 0x80 == 0;
    } else if len == 1 {
      assert b * 2 / 0x80 == 2;
    } else if len == 2 {
      assert b * 4 / 0x80 == 6;
    } else if len == 3 {
      assert b * 8 / 0x80 == 14;
    } else if len == 4 {
      assert b * 16 / 0x80 == 30;
    } else if len == 5 {
      assert b * 32 / 0x80 == 62;
    }
  }

  lemma {:induction false} TailStep(s: seq<byte>, at: nat, k: nat, acc: nat)
    requires at <= |s| && k > 0
    ensures Tail(s[at..], k, acc) ==
      if at == |s| || s[at] / 64 != 2 then None else Tail(s[at + 1..], k - 1, acc * 64 + s[at] % 64)
  {
    if at < |s| {
      assert s[at..][1..] == s[at + 1..];
    }
  }

  lemma {:induction false} TailDone(s: seq<byte>, acc: nat)
    ensures Tail(s, 0, acc) == Some(acc)
  {
  }

  // ---------------------------------------------------------------------------------------------
  // Inverses

  // The encodings of two, three and four bytes, by their groups of bits

  lemma {:induction false} Encode2(a: nat, b: nat, u: nat)
    requires a < 32 && b < 64 && u == a * 64 + b && u >= 0x80
    ensures Encode(u) == [0xC0 + a, 0x80 + b]
  {
    Split(a, b);
    assert Shift(u, 1) == a;
    assert Continuation(a, 0) == [];
    assert Continuation(u, 1) == [] + [0x80 + b];
  }

  lemma {:induction false} Encode3(a: nat, b: nat, c: nat, u: nat)
    requires a < 16 && b < 64 && c < 64 && u == (a * 64 + b) * 64 + c && u >= 0x800
    ensures Encode(u) == [0xE0 + a, 0x80 + b, 0x80 + c]
  {
    Split(a, b);
    Split(a * 64 + b, c);
    assert Shift(u, 1) == a * 64 + b && Shift(u, 2) == a;
    assert Continuation(a, 0) == [];
    assert Continuation(a * 64 + b, 1) == [] + [0x80 + b];
    assert Continuation(u, 2) == [0x80 + b] + [0x80 + c];
  }

  lemma {:induction false} Encode4(a: nat, b: nat, c: nat, d: nat, u: nat)
    requires a < 8 && b < 64 && c < 64 && d < 64 && u == ((a * 64 + b) * 64 + c) * 64 + d && u >= 0x1_0000
    ensures Encode(u) == [0xF0 + a, 0x80 + b, 0x80 + c, 0x80 + d]
  {
    Split(a, b);
    Split(a * 64 + b, c);
    Split((a * 64 + b) * 64 + c, d);
    assert Shift(u, 1) == (a * 64 + b) * 64 + c && Shift(u, 2) == a * 64 + b && Shift(u, 3) == a;
    assert Continuation(a, 0) == [];
    assert Continuation(a * 64 + b, 1) == [] + [0x80 + b];
    assert Continuation((a * 64 + b) * 64 + c, 2) == [0x80 + b] + [0x80 + c];
    assert Continuation(u, 3) == [0x80 + b, 0x80 + c] + [0x80 + d];
  }

  lemma {:induction false} Split(a: nat, b: nat)
    requires b < 64
    ensures (a * 64 + b) / 64 == a && (a * 64 + b) % 64 == b
  {
  }

  predicate IsTail(s: seq<byte>, i: nat)
  {
    i < |s| && 0x80 <= s[i] < 0xC0
  }

  /** Tails written out. */
  lemma {:induction false} Tails(s: seq<byte>, a: nat)
    ensures Tail(s, 1, a) == if IsTail(s, 0) then Some(a * 64 + s[0] % 64) else None
    ensures Tail(s, 2, a)
         == if IsTail(s, 0) && IsTail(s, 1) then Some((a * 64 + s[0] % 64) * 64 + s[1] % 64) else None
    ensures Tail(s, 3, a)
         == if IsTail(s, 0) && IsTail(s, 1) && IsTail(s, 2)
            then Some(((a * 64 + s[0] % 64) * 64 + s[1] % 64) * 64 + s[2] % 64) else None
  {
    if s != [] {
      var b := a * 64 + s[0] % 64;
      TailDone(s[1..], b);
      TailOne(s[1..], b);
      TailTwo(s[1..], b);
    }
  }

  lemma {:induction false} TailOne(s: seq<byte>, a: nat)
    ensures Tail(s, 1, a) == if IsTail(s, 0) then Some(a * 64 + s[0] % 64) else None
  {
    if s != [] {
      TailDone(s[1..], a * 64 + s[0] % 64);
    }
  }

  lemma {:induction false} TailTwo(s: seq<byte>, a: nat)
    ensures Tail(s, 2, a)
         == if IsTail(s, 0) && IsTail(s, 1) then Some((a * 64 + s[0] % 64) * 64 + s[1] % 64) else None
  {
    if s != [] {
      TailOne(s[1..], a * 64 + s[0] % 64);
    }
  }

  function Checked(u: nat, len: nat): Option<Decoded>
  {
    if Accepts(len, u) then Some(Decoded(u, len)) else None
  }

  lemma {:induction false} Decode2(s: seq<byte>, a: nat)
    requires s != [] && a < 32 && s[0] == 0xC0 + a
    ensures Decode(s) == if IsTail(s, 1) then Checked(a * 64 + s[1] % 64, 2) else None
  {
    hide Tail, Accepts;
    Pow2Values();
    Tails(s[1..], a);
    assert |s| > 1 ==> s[1..][0] == s[1];
  }

  lemma {:induction false} Decode3(s: seq<byte>, a: nat)
    requires s != [] && a < 16 && s[0] == 0xE0 + a
    ensures Decode(s)
         == if IsTail(s, 1) && IsTail(s, 2) then Checked((a * 64 + s[1] % 64) * 64 + s[2] % 64, 3) else None
  {
    hide Tail, Accepts;
    Pow2Values();
    Tails(s[1..], a);
    assert |s| > 1 ==> s[1..][0] == s[1];
    assert |s| > 2 ==> s[1..][1] == s[2];
  }

  lemma {:induction false} Decode4(s: seq<byte>, a: nat)
    requires s != [] && a < 8 && s[0] == 0xF0 + a
    ensures Decode(s)
         == if IsTail(s, 1) && IsTail(s, 2) && IsTail(s, 3)
            then Checked(((a * 64 + s[1] % 64) * 64 + s[2] % 64) * 64 + s[3] % 64, 4) else None
  {
    hide Tail, Accepts;
    Pow2Values();
    Tails(s[1..], a);
    assert |s| > 1 ==> s[1..][0] == s[1];
    assert |s| > 2 ==> s[1..][1] == s[2];
    assert |s| > 3 ==> s[1..][2] == s[3];
  }

  lemma {:induction false} Back2(a: nat, b: nat, u: nat, rest: seq<byte>)
    requires a < 32 && b < 64 && u == a * 64 + b && u >= 0x80
    ensures Decode(Encode(u) + rest) == Checked(u, 2)
  {
    hide Decode, Encode, Accepts;
    Encode2(a, b, u);
    Decode2(Encode(u) + rest, a);
  }

  lemma {:induction false} Back3(a: nat, b: nat, c: nat, u: nat, rest: seq<byte>)
    requires a < 16 && b < 64 && c < 64 && u == (a * 64 + b) * 64 + c && u >= 0x800
    ensures Decode(Encode(u) + rest) == Checked(u, 3)
  {
    hide Decode, Encode, Accepts;
    Encode3(a, b, c, u);
    Decode3(Encode(u) + rest, a);
  }

  lemma {:induction false} Back4(a: nat, b: nat, c: nat, d: nat, u: nat, rest: seq<byte>)
    requires a < 8 && b < 64 && c < 64 && d < 64 && u == ((a * 64 + b) * 64 + c) * 64 + d && u >= 0x1_0000
    ensures Decode(Encode(u) + rest) == Checked(u, 4)
  {
    hide Decode, Encode, Accepts;
    Encode4(a, b, c, d, u);
    Decode4(Encode(u) + rest, a);
  }

  /** FromUTF8 undoes ToUTF8 on Unicode scalar values, and on them only. */
  lemma {:induction false} DecodeOfEncode(u: nat, rest: seq<byte>)
    requires u < 0x8000_0000
    ensures Decode(Encode(u) + rest) == if Scalar(u) then Some(Decoded(u, |Encode(u)|)) else None
  {
    hide Decode, Encode;
    if u >= 0x20_0000 {
      LongLead(u, Encode(u) + rest);
    } else if u >= 0x1_0000 {
      Back4(u / 64 / 64 / 64, u / 64 / 64 % 64, u / 64 % 64, u % 64, u, rest);
    } else if u >= 0x800 {
      Back3(u / 64 / 64, u / 64 % 64, u % 64, u, rest);
    } else if u >= 0x80 {
      Back2(u / 64, u % 64, u, rest);
    } else {
      Ascii(u, Encode(u) + rest);
    }
  }

  lemma {:induction false} Ascii(u: nat, s: seq<byte>)
    requires u < 0x80 && s != [] && s[0] == Encode(u)[0]
    ensures Encode(u) == [u] && Decode(s) == Some(Decoded(u, 1))
  {
    assert Continuation(u, 0) == [];
  }

  lemma {:induction false} LongLead(u: nat, s: seq<byte>)
    requires 0x20_0000 <= u < 0x8000_0000 && s != [] && s[0] == Encode(u)[0]
    ensures Decode(s) == None
  {
    LeadFits(u, More(u));
  }

  lemma {:induction false} Forth2(s: seq<byte>, a: nat, d: Decoded)
    requires s != [] && a < 32 && s[0] == 0xC0 + a && Decode(s) == Some(d)
    ensures Scalar(d.u) && d.n == 2 <= |s| && Encode(d.u) == s[..2]
  {
    hide Decode, Encode;
    Decode2(s, a);
    Encode2(a, s[1] % 64, d.u);
  }

  lemma {:induction false} Forth3(s: seq<byte>, a: nat, d: Decoded)
    requires s != [] && a < 16 && s[0] == 0xE0 + a && Decode(s) == Some(d)
    ensures Scalar(d.u) && d.n == 3 <= |s| && Encode(d.u) == s[..3]
  {
    hide Decode, Encode;
    Decode3(s, a);
    Encode3(a, s[1] % 64, s[2] % 64, d.u);
  }

  lemma {:induction false} Forth4(s: seq<byte>, a: nat, d: Decoded)
    requires s != [] && a < 8 && s[0] == 0xF0 + a && Decode(s) == Some(d)
    ensures Scalar(d.u) && d.n == 4 <= |s| && Encode(d.u) == s[..4]
  {
    hide Decode, Encode;
    Decode4(s, a);
    Encode4(a, s[1] % 64, s[2] % 64, s[3] % 64, d.u);
  }

  /** ToUTF8 undoes FromUTF8: there is one encoding of each code point that is accepted. */
  lemma {:induction false} EncodeOfDecode(s: seq<byte>, d: Decoded)
    requires s != [] && Decode(s) == Some(d)
    ensures Scalar(d.u) && 1 <= d.n <= |s| && Encode(d.u) == s[..d.n]
  {
    hide Encode, Tail;
    if s[0] < 0x80 {
      Ascii(s[0], Encode(s[0]));
    } else if s[0] < 0xE0 {
      Forth2(s, s[0] - 0xC0, d);
    } else if s[0] < 0xF0 {
      Forth3(s, s[0] - 0xE0, d);
    } else {
      Forth4(s, s[0] - 0xF0, d);
    }
  }

  // ---------------------------------------------------------------------------------------------
  // Section 4 of RFC 3629

  /** The length of the UTF8-char a string starts with, by the rules of the grammar; 0 if there is none. */
  function CharLength(s: seq<byte>): nat
    requires s != []
  {
    var b := s[0];
    if b <= 0x7F then 1
    else if 0xC2 <= b <= 0xDF && IsTail(s, 1) then 2
    else if b == 0xE0 && |s| > 1 && 0xA0 <= s[1] <= 0xBF && IsTail(s, 2) then 3
    else if 0xE1 <= b <= 0xEC && IsTail(s, 1) && IsTail(s, 2) then 3
    else if b == 0xED && |s| > 1 && 0x80 <= s[1] <= 0x9F && IsTail(s, 2) then 3
    else if 0xEE <= b <= 0xEF && IsTail(s, 1) && IsTail(s, 2) then 3
    else if b == 0xF0 && |s| > 1 && 0x90 <= s[1] <= 0xBF && IsTail(s, 2) && IsTail(s, 3) then 4
    else if 0xF1 <= b <= 0xF3 && IsTail(s, 1) && IsTail(s, 2) && IsTail(s, 3) then 4
    else if b == 0xF4 && |s| > 1 && 0x80 <= s[1] <= 0x8F && IsTail(s, 2) && IsTail(s, 3) then 4
    else 0
  }

  /** FromUTF8 accepts exactly the characters of that grammar. */
  lemma {:induction false} DecodeIsGrammar(s: seq<byte>)
    requires s != []
    ensures CharLength(s) == match Decode(s) case Some(d) => d.n case None => 0
  {
    hide Tail;
    if 0xC0 <= s[0] < 0xE0 {
      Decode2(s, s[0] - 0xC0);
    } else if 0xE0 <= s[0] < 0xF0 {
      Decode3(s, s[0] - 0xE0);
    } else if 0xF0 <= s[0] < 0xF8 {
      Decode4(s, s[0] - 0xF0);
    }
  }
}
