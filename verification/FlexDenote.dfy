/** What a value on the builder's stack stands for, and that storing it in a vector keeps its meaning.

    A scalar is in the value itself and is written in the width of its parent, truncated to it; anything
    else is in the buffer already, and what is written is the way back to it. The packed type then tells a
    reader which of the two it was. */
module FlexDenote {
  import opened Bytes
  import opened FlexWidth
  import opened FlexReader
  import opened FlexLayout

  /** Value `v` stands for tree `t`: a scalar is in the value itself, anything else is in the buffer. */
  ghost predicate Denotes(b: seq<byte>, v: Value, t: Tree)
  {
    match t
    case Null => v == Value(0, FBT_NULL, 0)
    case Bool(x) => v == Value(if x then 1 else 0, FBT_BOOL, 0)
    case Int(i) => IsInt64(i) && v == Value(i, FBT_INT, WidthI(i))
    case UInt(u) => IsUInt64(u) && v == Value(u, FBT_UINT, WidthU(u))
    case _ =>
      && !IsInline(v.ty) && 0 <= v.u <= |b| && ReadsAt(b, v.u, ByteWidth(v.minWidth), v.ty, t)
      && SizeWidth(v.minWidth, t)
  }

  /** The width of a string is that of its size. */
  predicate SizeWidth(w: BitWidth, t: Tree)
  {
    match t
    case String(s) => w == WidthU(|s|)
    case _ => true
  }

  lemma {:induction false} DenotesPrefix(b: seq<byte>, b': seq<byte>, v: Value, t: Tree)
    requires IsPrefix(b, b') && Denotes(b, v, t)
    ensures Denotes(b', v, t)
  {
    hide ReadsAt;
    match t
    case Null =>
    case Bool(x) =>
    case Int(i) =>
    case UInt(u) =>
    case _ => ReadsAtPrefix(b, b', v.u, ByteWidth(v.minWidth), v.ty, t);
  }

  lemma {:induction false} DenotesWritable(b: seq<byte>, v: Value, t: Tree)
    requires Denotes(b, v, t)
    ensures Writable(v, |b|)
  {
    hide ReadsAt;
  }

  // ---------------------------------------------------------------------------------------------
  // Scalars in the width of their parent

  /** Adding a multiple of 256^n does not change the `n` low bytes. */
  lemma {:induction false} LowBytes(v: nat, q: nat, n: nat, k: nat)
    requires k == q * Pow256(n)
    ensures LE(v + k, n) == LE(v, n)
  {
    if n > 0 {
      var k' := q * Pow256(n - 1);
      assert k == 0x100 * k' by { assert Pow256(n) == 0x100 * Pow256(n - 1); }
      assert (v + k) % 0x100 == v % 0x100 && (v + k) / 0x100 == v / 0x100 + k';
      LowBytes(v / 0x100, q, n - 1, k');
    }
  }

  /** The bits of a number that fits `n` bytes, truncated to them. */
  function BitsOf(x: int, n: nat): nat
    requires 0 <= x || FitsSigned(x, n)
  {
    if x >= 0 then x else x + Pow256(n)
  }

  lemma {:induction false} TruncatedWrite(x: int, w: BitWidth)
    requires IsInt64(x) && (x < 0 ==> FitsSigned(x, ByteWidth(w)))
    ensures LE(Bits64(x), ByteWidth(w)) == LE(BitsOf(x, ByteWidth(w)), ByteWidth(w))
  {
    hide LE;
    Pow256Values();
    var n := ByteWidth(w);
    if x < 0 {
      var q := if w == 0 then 0xFF_FFFF_FFFF_FFFF else if w == 1 then 0xFFFF_FFFF_FFFF
               else if w == 2 then 0xFFFF_FFFF else 0;
      LowBytes(x + Pow256(n), q, n, q * Pow256(n));
    }
  }

  /** A scalar written in at least its own width reads back. */
  lemma {:induction false} ScalarReads(b: seq<byte>, v: Value, t: Tree, w: BitWidth, b': seq<byte>, width: nat)
    requires Denotes(b, v, t) && IsInline(v.ty) && v.minWidth <= w
    requires b' == b + LE(Bits64(v.u), ByteWidth(w))
    ensures Reads(b', Ref(|b|, ByteWidth(w), width, v.ty), t)
  {
    hide U, ReadsAt, LE;
    var n := ByteWidth(w);
    Pow256Values();
    assert b' == b + LE(Bits64(v.u), n) + [];
    match t
    case Null =>
    case Bool(x) => UAt(b, v.u, n, []);
    case Int(i) =>
      FitsEight(i);
      WidthIIsLeast(i, w);
      TruncatedWrite(i, w);
      UAt(b, BitsOf(i, n), n, []);
    case UInt(u) =>
      WidthUIsLeast(u, w);
      UAt(b, u, n, []);
    case _ =>
  }

  lemma {:induction false} FitsEight(i: int)
    requires IsInt64(i)
    ensures FitsSigned(i, 8)
  {
    Pow256Values();
  }

  // ---------------------------------------------------------------------------------------------
  // Offsets in the width of their parent

  /** The offset written at the end of `b` leads back to `o`. */
  lemma {:induction false} OffsetReads(b: seq<byte>, o: nat, n: nat, b': seq<byte>)
    requires o <= |b| && |b| - o < Pow256(n) && b' == WriteOffset(b, o, n)
    ensures Indirect(b', |b|, n) == Some(o)
  {
    hide U;
    UAt(b, |b| - o, n, []);
    assert b' == b + LE(|b| - o, n) + [];
  }

  /** The packed type of an element says what to do with it. */
  lemma {:induction false} PackedTypeReads(data: int, n: nat, v: Value, parent: BitWidth)
    ensures RefOfPacked(data, n, StoredPackedType(v, parent))
         == Ref(data, n, ByteWidth(StoredWidth(v, parent)), v.ty)
  {
  }

  /** The width a reader has for what an element points to: its own, and for a key any will do. */
  predicate WidthOk(v: Value, t: Tree, width: nat)
  {
    IsInline(v.ty) || width == ByteWidth(v.minWidth) || t.Key?
  }

  lemma {:induction false} KeyAnyWidth(b: seq<byte>, p: int, n: nat, n': nat, ty: nat, t: Tree)
    requires t.Key? && ReadsAt(b, p, n, ty, t)
    ensures ReadsAt(b, p, n', ty, t)
  {
  }

  /** The offset fits where it is written; a scalar fits anyway. */
  predicate StoreFits(v: Value, size: nat, w: BitWidth)
  {
    if IsInline(v.ty) then v.minWidth <= w else size - v.u < Pow256(ByteWidth(w))
  }

  /** Storing a value at the end of the buffer, in a width its offset fits: reading it from there, with
      its own width and type, yields what it stands for. */
  lemma {:induction false} StoredReads(b: seq<byte>, v: Value, t: Tree, w: BitWidth, b': seq<byte>, width: nat)
    requires Denotes(b, v, t) && Writable(v, |b|) && b' == WriteAny(b, v, ByteWidth(w))
    requires StoreFits(v, |b|, w) && WidthOk(v, t, width)
    ensures Reads(b', Ref(|b|, ByteWidth(w), width, v.ty), t)
    ensures IsPrefix(b, b')
  {
    hide U, ReadsAt, LE, Denotes, Reads, Bits64;
    assert IsPrefix(b, b');
    if IsInline(v.ty) {
      ScalarReads(b, v, t, w, b', width);
    } else {
      OffsetReads(b, v.u, ByteWidth(w), b');
      DenotesPrefix(b, b', v, t);
      DenotesAt(b', v, t);
      if t.Key? {
        KeyAnyWidth(b', v.u, ByteWidth(v.minWidth), width, v.ty, t);
      }
      ReadsThrough(b', Ref(|b|, ByteWidth(w), width, v.ty), v.u, t);
    }
  }

  predicate ScalarTree(t: Tree)
  {
    t.Null? || t.Bool? || t.Int? || t.UInt?
  }

  lemma {:induction false} DenotesAt(b: seq<byte>, v: Value, t: Tree)
    requires Denotes(b, v, t)
    ensures ScalarTree(t) <==> IsInline(v.ty)
    ensures !ScalarTree(t) ==> 0 <= v.u <= |b| && ReadsAt(b, v.u, ByteWidth(v.minWidth), v.ty, t)
  {
    hide ReadsAt, ByteWidth;
  }

  lemma {:induction false} ReadsThrough(b: seq<byte>, r: Ref, p: int, t: Tree)
    requires !ScalarTree(t) && Indirect(b, r.data, r.parent) == Some(p) && ReadsAt(b, p, r.width, r.ty, t)
    ensures Reads(b, r, t)
  {
    hide ReadsAt, Indirect;
  }
}
