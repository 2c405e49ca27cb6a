/** Little-endian scalars in byte sequences, and bounds-checked reads of them.

    A read outside the sequence is not undefined here: it yields `None`, so that "every read is
    inside the buffer" is a statement the other modules can make and prove. */
module Bytes {

  type byte = b: int | 0 <= b < 0x100

  datatype Option<+T> = None | Some(value: T) {
    predicate IsFailure() { None? }
    function PropagateFailure<U>(): Option<U>
      requires None?
    {
      None
    }
    function Extract(): T
      requires Some?
    {
      value
    }
  }

  /** FLATBUFFERS_MAX_BUFFER_SIZE: signed 32-bit offsets have to reach everything. */
  const MAX_BUFFER_SIZE: nat := 0x7FFF_FFFF

  function Pow256(n: nat): (p: nat)
    ensures p >= 1
    ensures n > 0 ==> p >= 0x100
  {
    if n == 0 then 1 else 0x100 * Pow256(n - 1)
  }

  /** The `n` low-order bytes of `v`, least significant first. */
  function LE(v: nat, n: nat): (s: seq<byte>)
    ensures |s| == n
  {
    if n == 0 then [] else [v % 0x100] + LE(v / 0x100, n - 1)
  }

  function FromLE(s: seq<byte>): (v: nat)
    ensures v < Pow256(|s|)
  {
    if s == [] then 0 else s[0] + 0x100 * FromLE(s[1..])
  }

  lemma {:induction false} FromLEofLE(v: nat, n: nat)
    requires v < Pow256(n)
    ensures FromLE(LE(v, n)) == v
  {
    if n > 0 {
      FromLEofLE(v / 0x100, n - 1);
      assert LE(v, n)[1..] == LE(v / 0x100, n - 1);
    }
  }

  /** The bytes of a number below 256. */
  lemma {:induction false} SmallNumbers(v: nat)
    requires v < 0x100
    ensures LE(v, 4) == [v, 0, 0, 0] && LE(v, 2) == [v, 0] && LE(v, 1) == [v]
  {
    assert LE(v, 1) == [v] + LE(0, 0) && LE(0, 1) == [0] + LE(0, 0);
    assert LE(v, 2) == [v] + LE(0, 1) && LE(0, 2) == [0] + LE(0, 1);
    assert LE(0, 3) == [0] + LE(0, 2) && LE(v, 4) == [v] + LE(0, 3);
  }

  lemma {:induction false} SliceOfAppend(a: seq<byte>, b: seq<byte>, i: nat, n: nat)
    requires i + n <= |b|
    ensures (a + b)[|a| + i..|a| + i + n] == b[i..i + n]
  {
    var x, y := (a + b)[|a| + i..|a| + i + n], b[i..i + n];
    assert |x| == |y| && forall k :: 0 <= k < n ==> x[k] == y[k];
  }

  lemma {:induction false} SubSlice(b: seq<byte>, at: nat, len: nat, i: nat, n: nat)
    requires i + n <= len && at + len <= |b|
    ensures b[at + i..at + i + n] == b[at..at + len][i..i + n]
  {
    var x, y := b[at + i..at + i + n], b[at..at + len][i..i + n];
    assert |x| == |y| && forall k :: 0 <= k < n ==> x[k] == y[k];
  }

  /** Reading a scalar of `n` bytes at index `i`; `None` when the range leaves the buffer. */
  function U(b: seq<byte>, i: int, n: nat): (r: Option<nat>)
    ensures r.Some? <==> 0 <= i && i + n <= |b|
    ensures r.Some? ==> r.value < Pow256(n)
  {
    if 0 <= i && i + n <= |b| then Some(FromLE(b[i..i + n])) else None
  }

  lemma {:induction false} UShift(p: seq<byte>, b: seq<byte>, i: int, n: nat)
    requires 0 <= i
    ensures U(p + b, |p| + i, n) == U(b, i, n)
  {
    if i + n <= |b| {
      SliceOfAppend(p, b, i, n);
    }
  }

  lemma {:induction false} UAppend(b: seq<byte>, s: seq<byte>, i: int, n: nat)
    requires U(b, i, n).Some?
    ensures U(b + s, i, n) == U(b, i, n)
  {
    assert (b + s)[i..i + n] == b[i..i + n];
  }

  lemma {:induction false} UAt(p: seq<byte>, v: nat, n: nat, s: seq<byte>)
    requires v < Pow256(n)
    ensures U(p + LE(v, n) + s, |p|, n) == Some(v)
  {
    FromLEofLE(v, n);
    assert (p + LE(v, n) + s)[|p|..|p| + n] == LE(v, n);
  }

  /** Two's complement: the signed reading of an unsigned `n`-byte value, and its inverse. */
  function Signed(v: nat, n: nat): int
  {
    if 2 * v < Pow256(n) then v else v - Pow256(n)
  }

  predicate FitsSigned(x: int, n: nat)
  {
    0 <= 2 * x + Pow256(n) && 2 * x < Pow256(n)
  }

  function TwosComplement(x: int, n: nat): (v: nat)
    requires FitsSigned(x, n)
    ensures v < Pow256(n) && Signed(v, n) == x
  {
    if x >= 0 then x else x + Pow256(n)
  }

  function Zeros(n: nat): (s: seq<byte>)
    ensures |s| == n && forall i :: 0 <= i < n ==> s[i] == 0
  {
    seq(n, _ => 0)
  }

  /** The alignments in use are the powers of two up to 16 (FLATBUFFERS_MAX_ALIGNMENT). */
  predicate IsAlign(a: nat)
  {
    a == 1 || a == 2 || a == 4 || a == 8 || a == 16
  }

  predicate Multiple(x: int, n: nat)
    requires n > 0
  {
    x % n == 0
  }

  lemma {:induction false} Sum2(x: int, y: int)
    requires x % 2 == 0 && y % 2 == 0
    ensures (x + y) % 2 == 0 && (x - y) % 2 == 0
  {
  }

  lemma {:induction false} Sum4(x: int, y: int)
    requires x % 4 == 0 && y % 4 == 0
    ensures (x + y) % 4 == 0 && (x - y) % 4 == 0
  {
  }

  lemma {:induction false} Sum8(x: int, y: int)
    requires x % 8 == 0 && y % 8 == 0
    ensures (x + y) % 8 == 0 && (x - y) % 8 == 0
  {
  }

  lemma {:induction false} Sum16(x: int, y: int)
    requires x % 16 == 0 && y % 16 == 0
    ensures (x + y) % 16 == 0 && (x - y) % 16 == 0
  {
  }

  lemma {:induction false} MultipleSum(x: int, y: int, n: nat, sum: int, diff: int)
    requires IsAlign(n) && Multiple(x, n) && Multiple(y, n) && sum == x + y && diff == x - y
    ensures Multiple(sum, n) && Multiple(diff, n)
  {
    match n
    case 1 =>
    case 2 => Sum2(x, y);
    case 4 => Sum4(x, y);
    case 8 => Sum8(x, y);
    case 16 => Sum16(x, y);
  }

  /** The padding that brings `size` up to a multiple of `align`: for a power of two this is
      `((~size) + 1) & (align - 1)`, the two's complement negation reduced modulo `align`. */
  function PaddingBytes(size: nat, align: nat): (p: nat)
    requires IsAlign(align)
    ensures p < align && Multiple(size + p, align)
  {
    PaddingAligns(size, align);
    (align - size % align) % align
  }

  lemma {:induction false} PaddingAligns(size: nat, align: nat)
    requires IsAlign(align)
    ensures var p := (align - size % align) % align; p < align && Multiple(size + p, align)
  {
    match align
    case 1 =>
    case 2 => Pad2(size);
    case 4 => Pad4(size);
    case 8 => Pad8(size);
    case 16 => Pad16(size);
  }

  lemma {:induction false} Pad2(size: nat)
    ensures var p := (2 - size % 2) % 2; p < 2 && (size + p) % 2 == 0
  {
    var q := size / 2;
    assert size == 2 * q || size + 1 == 2 * (q + 1);
  }

  lemma {:induction false} Pad4(size: nat)
    ensures var p := (4 - size % 4) % 4; p < 4 && (size + p) % 4 == 0
  {
    var q, r := size / 4, size % 4;
    assert if r == 0 then size == 4 * q else size + (4 - r) == 4 * (q + 1);
  }

  lemma {:induction false} Pad8(size: nat)
    ensures var p := (8 - size % 8) % 8; p < 8 && (size + p) % 8 == 0
  {
    var q, r := size / 8, size % 8;
    assert if r == 0 then size == 8 * q else size + (8 - r) == 8 * (q + 1);
  }

  lemma {:induction false} Pad16(size: nat)
    ensures var p := (16 - size % 16) % 16; p < 16 && (size + p) % 16 == 0
  {
    var q, r := size / 16, size % 16;
    assert if r == 0 then size == 16 * q else size + (16 - r) == 16 * (q + 1);
  }

  lemma {:induction false} PaddingIsMaskedNegation(size: bv64, align: bv64)
    requires align == 1 || align == 2 || align == 4 || align == 8 || align == 16
    ensures (size + ((!size + 1) & (align - 1))) & (align - 1) == 0
    ensures (!size + 1) & (align - 1) < align
  {
  }

  /** Bitwise `&` of numbers, a binary digit at a time. */
  function BitAnd(x: nat, y: nat): nat
  {
    if x == 0 then 0 else 2 * BitAnd(x / 2, y / 2) + if x % 2 == 1 && y % 2 == 1 then 1 else 0
  }

  const WORD: nat := 0x1_0000_0000_0000_0000

  /** `~` of 64 bits. */
  function BitNot(x: nat): nat
    requires x < WORD
  {
    WORD - 1 - x
  }

  lemma {:induction false} BitAndNone(x: nat)
    ensures BitAnd(x, 0) == 0
  {
    if x != 0 {
      BitAndNone(x / 2);
    }
  }

  /** One below a power of two masks the remainder. */
  lemma {:induction false} BitAndMask(x: nat, align: nat)
    requires IsAlign(align)
    ensures BitAnd(x, align - 1) == x % align
    decreases align
  {
    if align == 1 {
      BitAndNone(x);
    } else {
      BitAndMask(x / 2, align / 2);
      DigitBelow(x, align);
    }
  }

  lemma {:induction false} DigitBelow(x: nat, align: nat)
    requires IsAlign(align) && align > 1
    ensures x % align == 2 * (x / 2 % (align / 2)) + x % 2
    ensures (align - 1) / 2 == align / 2 - 1 && (align - 1) % 2 == 1 && IsAlign(align / 2)
  {
    match align
    case 2 =>
    case 4 => Digit4(x);
    case 8 => Digit8(x);
    case 16 => Digit16(x);
  }

  lemma {:induction false} Digit4(x: nat)
    ensures x % 4 == 2 * (x / 2 % 2) + x % 2
  {
    var y, d := x / 2, x % 2;
    var q, r := y / 2, y % 2;
    assert x == 2 * y + d && y == 2 * q + r;
    Mod4(x, q, 2 * r + d);
  }

  lemma {:induction false} Mod4(x: nat, q: nat, r: nat)
    requires x == 4 * q + r && r < 4
    ensures x % 4 == r
  {
  }

  lemma {:induction false} Digit8(x: nat)
    ensures x % 8 == 2 * (x / 2 % 4) + x % 2
  {
    var y, d := x / 2, x % 2;
    var q, r := y / 4, y % 4;
    assert x == 2 * y + d && y == 4 * q + r;
    Mod8(x, q, 2 * r + d);
  }

  lemma {:induction false} Mod8(x: nat, q: nat, r: nat)
    requires x == 8 * q + r && r < 8
    ensures x % 8 == r
  {
  }

  lemma {:induction false} Digit16(x: nat)
    ensures x % 16 == 2 * (x / 2 % 8) + x % 2
  {
    var y, d := x / 2, x % 2;
    var q, r := y / 8, y % 8;
    assert x == 2 * y + d && y == 8 * q + r;
    Mod16(x, q, 2 * r + d);
  }

  lemma {:induction false} Mod16(x: nat, q: nat, r: nat)
    requires x == 16 * q + r && r < 16
    ensures x % 16 == r
  {
  }

  function TwoTo(k: nat): nat
  {
    if k == 0 then 1 else 2 * TwoTo(k - 1)
  }

  /** What a mask leaves out is what its complement leaves. */
  lemma {:induction false} BitAndComplement(x: nat, m: nat, k: nat)
    requires x < TwoTo(k) && m < TwoTo(k)
    ensures BitAnd(x, TwoTo(k) - 1 - m) + BitAnd(x, m) == x
  {
    if x != 0 {
      BitAndComplement(x / 2, m / 2, k - 1);
      var c := TwoTo(k) - 1 - m;
      assert c / 2 == TwoTo(k - 1) - 1 - m / 2 && c % 2 == 1 - m % 2;
    }
  }

  lemma {:induction false} FourDigits(k: nat)
    ensures TwoTo(k + 4) == 16 * TwoTo(k)
  {
    assert TwoTo(k + 4) == 2 * TwoTo(k + 3) && TwoTo(k + 3) == 2 * TwoTo(k + 2);
    assert TwoTo(k + 2) == 2 * TwoTo(k + 1) && TwoTo(k + 1) == 2 * TwoTo(k);
  }

  lemma {:induction false} SixteenDigits(k: nat)
    ensures TwoTo(k + 16) == 0x1_0000 * TwoTo(k)
  {
    hide TwoTo;
    FourDigits(k);
    FourDigits(k + 4);
    FourDigits(k + 8);
    FourDigits(k + 12);
  }

  lemma {:induction false} WordIsTwoTo64()
    ensures TwoTo(64) == WORD
  {
    SixteenDigits(0);
    SixteenDigits(16);
    SixteenDigits(32);
    SixteenDigits(48);
    assert TwoTo(0) == 1;
  }

  /** PaddingBytes as it is computed: `((~size) + 1) & (align - 1)`, in 64 bits. */
  lemma {:induction false} PaddingIsMasked(size: nat, align: nat)
    requires IsAlign(align) && size < WORD
    ensures PaddingBytes(size, align) == BitAnd((BitNot(size) + 1) % WORD, align - 1)
  {
    BitAndMask((BitNot(size) + 1) % WORD, align);
    if size != 0 {
      NegationIsPadding(size, align);
    }
  }

  lemma {:induction false} NegationIsPadding(size: nat, align: nat)
    requires IsAlign(align) && 0 < size < WORD
    ensures (WORD - size) % align == PaddingBytes(size, align)
  {
    hide Multiple, PaddingBytes;
    var x, p := WORD - size, (WORD - size) % align;
    WithoutRemainder(x, align);
    WordMultiple(align);
    MultipleSum(WORD, x - p, align, WORD + (x - p), size + p);
    PaddingIsUnique(size, align, p);
  }

  lemma {:induction false} WordMultiple(align: nat)
    requires IsAlign(align)
    ensures Multiple(WORD, align)
  {
  }

  lemma {:induction false} WithoutRemainder(x: nat, align: nat)
    requires IsAlign(align)
    ensures Multiple(x - x % align, align) && x % align < align
  {
    match align
    case 1 =>
    case 2 => Floor2(x);
    case 4 => Floor4(x);
    case 8 => Floor8(x);
    case 16 => Floor16(x);
  }

  lemma {:induction false} Floor2(x: nat)
    ensures (x - x % 2) % 2 == 0
  {
    assert x - x % 2 == 2 * (x / 2);
  }

  lemma {:induction false} Floor4(x: nat)
    ensures (x - x % 4) % 4 == 0
  {
    assert x - x % 4 == 4 * (x / 4);
  }

  lemma {:induction false} Floor8(x: nat)
    ensures (x - x % 8) % 8 == 0
  {
    assert x - x % 8 == 8 * (x / 8);
  }

  lemma {:induction false} Floor16(x: nat)
    ensures (x - x % 16) % 16 == 0
  {
    assert x - x % 16 == 16 * (x / 16);
  }

  /** There is only one padding. */
  lemma {:induction false} PaddingIsUnique(size: nat, align: nat, p: nat)
    requires IsAlign(align) && p < align && Multiple(size + p, align)
    ensures p == PaddingBytes(size, align)
  {
    hide Multiple;
    var p' := PaddingBytes(size, align);
    MultipleSum(size + p, size + p', align, size + p + (size + p'), p - p');
    MultipleSum(size + p', size + p, align, size + p' + (size + p), p' - p);
    if p > p' {
      NoMultipleBelow(p - p', align);
    } else if p' > p {
      NoMultipleBelow(p' - p, align);
    }
  }

  lemma {:induction false} NoMultipleBelow(d: nat, align: nat)
    requires 0 < d < align
    ensures !Multiple(d, align)
  {
  }

  lemma {:induction false} Halve4(x: int)
    requires x % 4 == 0
    ensures x % 2 == 0
  {
    var q := x / 4;
    assert x == 2 * (2 * q);
  }

  lemma {:induction false} Halve8(x: int)
    requires x % 8 == 0
    ensures x % 4 == 0
  {
    var q := x / 8;
    assert x == 4 * (2 * q);
  }

  lemma {:induction false} Halve16(x: int)
    requires x % 16 == 0
    ensures x % 8 == 0
  {
    var q := x / 16;
    assert x == 8 * (2 * q);
  }

  lemma {:induction false} AlignDivides(x: int, m: nat, a: nat)
    requires IsAlign(m) && IsAlign(a) && a <= m && Multiple(x, m)
    ensures Multiple(x, a)
    decreases m
  {
    if a < m {
      match m
      case 2 =>
      case 4 => Halve4(x); AlignDivides(x, 2, a);
      case 8 => Halve8(x); AlignDivides(x, 4, a);
      case 16 => Halve16(x); AlignDivides(x, 8, a);
    }
  }
}
