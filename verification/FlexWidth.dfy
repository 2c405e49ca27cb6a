/** The widths of FlexBuffers elements, and the search for one an offset fits. */
module FlexWidth {
  import opened Bytes

  /** BitWidth: 0, 1, 2, 3 stand for 8, 16, 32, 64 bits. */
  type BitWidth = w: nat | w < 4

  predicate IsInt64(i: int)
  {
    -0x8000_0000_0000_0000 <= i < 0x8000_0000_0000_0000
  }

  predicate IsUInt64(u: int)
  {
    0 <= u < 0x1_0000_0000_0000_0000
  }

  function ByteWidth(w: BitWidth): (n: nat)
    ensures IsAlign(n) && n <= 8
    ensures n == 1 || n == 2 || n == 4 || n == 8
  {
    if w == 0 then 1 else if w == 1 then 2 else if w == 2 then 4 else 8
  }

  function WidthU(u: nat): BitWidth
  {
    if u < 0x100 then 0 else if u < 0x1_0000 then 1 else if u < 0x1_0000_0000 then 2 else 3
  }

  /** WidthI shifts left by one and complements a negative number, all in 64 bits. */
  function WidthI(i: int): BitWidth
  {
    if i >= 0 then WidthU(2 * i) else WidthU(-2 * i - 1)
  }

  /** The range a value of `n` bytes has, written out for the four widths. */
  lemma {:induction false} Pow256Values()
    ensures Pow256(1) == 0x100 && Pow256(2) == 0x1_0000 && Pow256(4) == 0x1_0000_0000
    ensures Pow256(8) == 0x1_0000_0000_0000_0000
  {
  }

  /** WidthU is the least width that holds the value. */
  lemma {:induction false} WidthUIsLeast(u: nat, w: BitWidth)
    requires u < 0x1_0000_0000_0000_0000
    ensures u < Pow256(ByteWidth(w)) <==> WidthU(u) <= w
  {
    Pow256Values();
  }

  /** WidthI is the least width that holds the value in two's complement. */
  lemma {:induction false} WidthIIsLeast(i: int, w: BitWidth)
    requires FitsSigned(i, 8)
    ensures FitsSigned(i, ByteWidth(w)) <==> WidthI(i) <= w
  {
    Pow256Values();
  }

  /** Where element `index` after a buffer of `size` bytes goes when elements are `n` bytes wide, and
      the distance from there back to `target`. */
  function OffsetAt(size: nat, target: nat, index: nat, n: nat): (d: nat)
    requires IsAlign(n) && target <= size
  {
    size + PaddingBytes(size, n) + index * n - target
  }

  predicate OffsetFits(size: nat, target: nat, index: nat, w: BitWidth)
    requires target <= size
  {
    OffsetAt(size, target, index, ByteWidth(w)) < Pow256(ByteWidth(w))
  }

  /** Everything the builder measures stays addressable. */
  predicate Addressable(size: nat, index: nat)
  {
    size + 8 * index + 8 < 0x1_0000_0000_0000_0000
  }

  /** Doubling the width at most doubles the index part and adds less than the new width in padding. */
  lemma {:induction false} WiderOffset(size: nat, target: nat, index: nat, n: nat)
    requires n == 1 || n == 2 || n == 4
    requires target <= size
    ensures OffsetAt(size, target, index, n) <= OffsetAt(size, target, index, 2 * n)
    ensures OffsetAt(size, target, index, 2 * n) < 2 * OffsetAt(size, target, index, n) + 2 * n
  {
    PaddingGrows(size, n);
    assert index * (2 * n) == 2 * (index * n);
  }

  lemma {:induction false} PaddingGrows(size: nat, n: nat)
    requires n == 1 || n == 2 || n == 4
    ensures PaddingBytes(size, n) <= PaddingBytes(size, 2 * n) < 2 * n
  {
    if n == 1 {
    } else if n == 2 {
      Padding2(size, size % 4);
    } else {
      Padding4(size, size % 8);
    }
  }

  lemma {:induction false} Padding2(size: nat, r: nat)
    requires r == size % 4
    ensures PaddingBytes(size, 2) <= PaddingBytes(size, 4)
  {
    assert size == 4 * (size / 4) + r;
    assert size % 2 == r % 2;
  }

  lemma {:induction false} Padding4(size: nat, r: nat)
    requires r == size % 8
    ensures PaddingBytes(size, 4) <= PaddingBytes(size, 8)
  {
    var q := size / 8;
    if r < 4 {
      assert size == 4 * (2 * q) + r;
    } else {
      assert size == 4 * (2 * q + 1) + (r - 4);
    }
    assert size % 4 == if r < 4 then r else r - 4;
  }

  /** An offset that fits some width fits every larger one. */
  lemma {:induction false} FitsWider(size: nat, target: nat, index: nat, w: BitWidth, w': BitWidth)
    requires target <= size && w <= w' && OffsetFits(size, target, index, w)
    ensures OffsetFits(size, target, index, w')
    decreases w' - w
  {
    if w < w' {
      Pow256Values();
      var n := ByteWidth(w);
      WiderOffset(size, target, index, n);
      assert ByteWidth(w + 1) == 2 * n;
      FitsWider(size, target, index, w + 1, w');
    }
  }

  lemma {:induction false} WidestFits(size: nat, target: nat, index: nat)
    requires target <= size && Addressable(size, index)
    ensures OffsetFits(size, target, index, 3)
  {
    Pow256Values();
  }

  /** The least width at which the offset fits. */
  function LeastFit(size: nat, target: nat, index: nat, w: BitWidth): (r: BitWidth)
    requires target <= size && Addressable(size, index)
    decreases 4 - w
  {
    if w == 3 || OffsetFits(size, target, index, w) then w else LeastFit(size, target, index, w + 1)
  }

  lemma {:induction false} LeastFitFits(size: nat, target: nat, index: nat, w: BitWidth)
    requires target <= size && Addressable(size, index)
    ensures OffsetFits(size, target, index, LeastFit(size, target, index, w)) && w <= LeastFit(size, target, index, w)
    ensures forall v: BitWidth :: w <= v < LeastFit(size, target, index, w) ==> !OffsetFits(size, target, index, v)
    decreases 4 - w
  {
    WidestFits(size, target, index);
    if w < 3 && !OffsetFits(size, target, index, w) {
      LeastFitFits(size, target, index, w + 1);
    }
  }

  /** Value::ElemWidth for an offset: try each width in turn and stop at the first whose offset needs
      exactly that width. The search always succeeds before it runs out of widths, and what it returns
      is the least width at which the offset fits. */
  method ElemWidth(size: nat, target: nat, index: nat) returns (w: BitWidth)
    requires target <= size && Addressable(size, index)
    ensures w == LeastFit(size, target, index, 0)
    ensures OffsetFits(size, target, index, w)
    ensures forall v: BitWidth :: v < w ==> !OffsetFits(size, target, index, v)
  {
    LeastFitFits(size, target, index, 0);
    var byteWidth: nat := 1;
    ghost var tried: nat := 0;
    while byteWidth <= 8
      invariant tried <= 4 && byteWidth == if tried < 4 then ByteWidth(tried) else 16
      invariant forall v: BitWidth :: v < tried ==> !OffsetFits(size, target, index, v)
      invariant tried > 0 ==> WidthU(OffsetAt(size, target, index, ByteWidth(tried - 1))) >= tried
      decreases 16 - byteWidth
    {
      var offset := OffsetAt(size, target, index, byteWidth);
      var bitWidth := WidthU(offset);
      MatchIsFit(size, target, index, tried);
      if ByteWidth(bitWidth) == byteWidth {
        return bitWidth;
      }
      byteWidth := byteWidth * 2;
      tried := tried + 1;
    }
    WidestFits(size, target, index);
    assert false;
  }

  /** Offsets grow with the width, so once all smaller widths were too small for their own offset, the
      offset needs exactly this width if and only if it fits it. */
  lemma {:induction false} MatchIsFit(size: nat, target: nat, index: nat, w: BitWidth)
    requires target <= size && Addressable(size, index)
    requires w > 0 ==> WidthU(OffsetAt(size, target, index, ByteWidth(w - 1))) >= w
    ensures ByteWidth(WidthU(OffsetAt(size, target, index, ByteWidth(w)))) == ByteWidth(w)
       <==> OffsetFits(size, target, index, w)
    ensures !OffsetFits(size, target, index, w) ==> WidthU(OffsetAt(size, target, index, ByteWidth(w))) > w
  {
    Pow256Values();
    if w > 0 {
      WiderOffset(size, target, index, ByteWidth(w - 1));
      assert ByteWidth(w) == 2 * ByteWidth(w - 1);
    }
    OffsetBound(size, target, index, ByteWidth(w));
    WidthUIsLeast(OffsetAt(size, target, index, ByteWidth(w)), w);
  }

  lemma {:induction false} OffsetBound(size: nat, target: nat, index: nat, n: nat)
    requires target <= size && Addressable(size, index) && IsAlign(n) && n <= 8
    ensures OffsetAt(size, target, index, n) < 0x1_0000_0000_0000_0000
  {
    assert index * n <= index * 8;
  }
}
