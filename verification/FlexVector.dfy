/** CreateVector: every offset it writes fits, and the vector reads back element by element.

    The width is measured before anything is written, with each element taken to lie a little further on
    than it will; a width in which an offset fits there is one in which it fits where it is written, since
    widths that fit stay fitting. */
module FlexVector {
  import opened Bytes
  import opened FlexWidth
  import opened FlexReader
  import opened FlexLayout
  import opened FlexDenote

  /** The words between the alignment and the first element. */
  function HeadWords(e: Elements, shape: Shape): nat
  {
    (if e.keys.Some? then 2 else 0) + (if shape == Fixed then 0 else 1)
  }

  lemma {:induction false} PrefixAppend(b: seq<byte>, s: seq<byte>)
    ensures IsPrefix(b, b + s)
  {
  }

  lemma {:induction false} PrefixTrans(a: seq<byte>, b: seq<byte>, c: seq<byte>)
    requires IsPrefix(a, b) && IsPrefix(b, c)
    ensures IsPrefix(a, c)
  {
    assert c[..|a|] == c[..|b|][..|a|];
  }

  lemma {:induction false} HeadSize(b: seq<byte>, e: Elements, shape: Shape, w: BitWidth, head: seq<byte>)
    requires ElementsOk(e, |b|) && head == VectorHead(b, e, shape, w)
    ensures |head| == |b| + PaddingBytes(|b|, ByteWidth(w)) + HeadWords(e, shape) * ByteWidth(w)
    ensures IsPrefix(b, head)
  {
    hide PaddingBytes, LE;
    var n := ByteWidth(w);
    PrefixAppend(b, Zeros(PaddingBytes(|b|, n)));
    var b1 := Align(b, w);
    if e.keys.Some? {
      var o := LE(|b1| - e.keys.value.u, n);
      PrefixAppend(b1, o);
      PrefixTrans(b, b1, b1 + o);
      var x := LE(Bits64(ByteWidth(e.keys.value.minWidth)), n);
      PrefixAppend(b1 + o, x);
      PrefixTrans(b, b1 + o, b1 + o + x);
      PrefixAppend(b1 + o + x, LE(Bits64(|e.vs|), n));
      PrefixTrans(b, b1 + o + x, b1 + o + x + LE(Bits64(|e.vs|), n));
    } else {
      PrefixAppend(b1, LE(Bits64(|e.vs|), n));
      PrefixTrans(b, b1, b1 + LE(Bits64(|e.vs|), n));
    }
  }

  /** The size in front of the elements. */
  lemma {:induction false} HeadSizeReads(b: seq<byte>, e: Elements, shape: Shape, w: BitWidth, head: seq<byte>)
    requires ElementsOk(e, |b|) && head == VectorHead(b, e, shape, w) && shape != Fixed
    requires WidthU(|e.vs|) <= w && |e.vs| < 0x1_0000_0000_0000_0000
    ensures SizeAt(head, |head|, ByteWidth(w)) == Some(|e.vs|)
  {
    hide U, LE, PaddingBytes;
    var n := ByteWidth(w);
    WidthUIsLeast(|e.vs|, w);
    var b1 := Align(b, w);
    var b2 := if e.keys.None? then b1
              else Write(WriteOffset(b1, e.keys.value.u, n), ByteWidth(e.keys.value.minWidth), n);
    UAt(b2, |e.vs|, n, []);
    assert head == b2 + LE(|e.vs|, n) + [];
  }

  lemma {:induction false} ByteWidthFits(v: BitWidth, w: BitWidth)
    ensures ByteWidth(v) < Pow256(ByteWidth(w))
  {
    Pow256Values();
  }

  /** The first two of three numbers at the end. */
  lemma {:induction false} ThreeNumbers(b: seq<byte>, x: nat, y: nat, z: nat, n: nat, b': seq<byte>)
    requires x < Pow256(n) && y < Pow256(n) && b' == b + LE(x, n) + LE(y, n) + LE(z, n)
    ensures |b'| - 3 * n == |b|
    ensures U(b', |b'| - 3 * n, n) == Some(x) && U(b', |b'| - 2 * n, n) == Some(y)
  {
    hide U;
    assert b' == b + LE(x, n) + (LE(y, n) + LE(z, n));
    UAt(b, x, n, LE(y, n) + LE(z, n));
    UAt(b + LE(x, n), y, n, LE(z, n));
    assert |b'| - 2 * n == |b + LE(x, n)|;
  }

  /** The offset to the keys and the width of the key vector, in front of the size of a map. */
  lemma {:induction false} HeadKeysRead(b: seq<byte>, e: Elements, w: BitWidth, head: seq<byte>)
    requires ElementsOk(e, |b|) && head == VectorHead(b, e, Untyped, w) && e.keys.Some?
    requires |b| + PaddingBytes(|b|, ByteWidth(w)) - e.keys.value.u < Pow256(ByteWidth(w))
    ensures KeysOf(head, |head|, ByteWidth(w))
         == Some(KeyVector(e.keys.value.u, ByteWidth(e.keys.value.minWidth)))
  {
    hide U, LE, PaddingBytes;
    var n, k := ByteWidth(w), e.keys.value;
    var b1 := Align(b, w);
    ByteWidthFits(k.minWidth, w);
    ThreeNumbers(b1, |b1| - k.u, ByteWidth(k.minWidth), |e.vs|, n, head);
  }

  // ---------------------------------------------------------------------------------------------
  // The elements

  ghost predicate AllDenote(b: seq<byte>, vs: seq<Value>, ts: seq<Tree>)
  {
    |vs| == |ts| && forall i :: 0 <= i < |vs| ==> Denotes(b, vs[i], ts[i])
  }

  predicate AllFit(vs: seq<Value>, at: nat, w: BitWidth)
  {
    forall i :: 0 <= i < |vs| ==> StoreFits(vs[i], at + i * ByteWidth(w), w)
  }

  /** Once the first element is written, the others are in the same position the whole sequence was in. */
  lemma {:induction false} TailReady(
      b: seq<byte>, vs: seq<Value>, ts: seq<Tree>, w: BitWidth, n: nat, b1: seq<byte>)
    requires AllDenote(b, vs, ts) && AllFit(vs, |b|, w) && vs != [] && n == ByteWidth(w)
    requires IsPrefix(b, b1) && |b1| == |b| + n
    ensures AllDenote(b1, vs[1..], ts[1..]) && AllFit(vs[1..], |b1|, w)
  {
    hide Denotes, ByteWidth, StoreFits, IsPrefix;
    forall i | 0 <= i < |vs| - 1
      ensures Denotes(b1, vs[1..][i], ts[1..][i])
      ensures StoreFits(vs[1..][i], |b1| + i * n, w)
    {
      DenotesPrefix(b, b1, vs[i + 1], ts[i + 1]);
      assert StoreFits(vs[i + 1], |b| + (i + 1) * n, w);
      Distribute(1, i, n, 0);
    }
  }

  lemma {:induction false} WriteAnyPrefix(b: seq<byte>, v: Value, n: nat)
    requires Writable(v, |b|)
    ensures IsPrefix(b, WriteAny(b, v, n))
  {
    hide LE, IsPrefix;
    PrefixAppend(b, if IsInline(v.ty) then LE(Bits64(v.u), n) else LE(|b| - v.u, n));
  }

  /** The elements written one after the other: each reads as what it stands for. */
  lemma {:induction false} ElemsRead(
      b: seq<byte>, vs: seq<Value>, ts: seq<Tree>, w: BitWidth, b': seq<byte>, j: nat, width: nat)
    requires AllDenote(b, vs, ts) && AllFit(vs, |b|, w)
    requires AllWritable(vs, |b|)
    requires b' == WriteElems(b, vs, ByteWidth(w))
    requires j < |vs| && WidthOk(vs[j], ts[j], width)
    ensures Reads(b', Ref(|b| + j * ByteWidth(w), ByteWidth(w), width, vs[j].ty), ts[j])
    decreases |vs|
  {
    hide Denotes, Reads, ByteWidth, LE, StoreFits, IsPrefix, WidthOk, WriteAny, Writable, AllFit;
    var n := ByteWidth(w);
    var b1 := WriteAny(b, vs[0], n);
    AllWritableTail(vs, |b|, |b1|);
    WriteAnyPrefix(b, vs[0], n);
    Distribute(1, j - 1, n, 0);
    if j == 0 {
      FirstFits(vs, |b|, w);
      StoredReads(b, vs[0], ts[0], w, b1, width);
      ElemsPrefix(b1, vs[1..], n, b');
      ReadsPrefix(b1, b', Ref(|b|, n, width, vs[0].ty), ts[0]);
    } else {
      TailReady(b, vs, ts, w, n, b1);
      ElemsRead(b1, vs[1..], ts[1..], w, b', j - 1, width);
    }
  }

  lemma {:induction false} FirstFits(vs: seq<Value>, at: nat, w: BitWidth)
    requires AllFit(vs, at, w) && vs != []
    ensures StoreFits(vs[0], at, w)
  {
    hide StoreFits, ByteWidth;
    assert StoreFits(vs[0], at + 0 * ByteWidth(w), w);
  }

  lemma {:induction false} ElemsPrefix(b: seq<byte>, vs: seq<Value>, n: nat, b': seq<byte>)
    requires AllWritable(vs, |b|)
    requires b' == WriteElems(b, vs, n)
    ensures IsPrefix(b, b')
    decreases |vs|
  {
    hide LE, IsPrefix;
    if vs == [] {
      PrefixAppend(b, []);
      assert b + [] == b;
    } else {
      var b1 := WriteAny(b, vs[0], n);
      WriteAnyPrefix(b, vs[0], n);
      AllWritableTail(vs, |b|, |b1|);
      ElemsPrefix(b1, vs[1..], n, b');
      PrefixTrans(b, b1, b');
    }
  }

  // ---------------------------------------------------------------------------------------------
  // The width chosen for a vector suits every element of it

  lemma {:induction false} MaxWidthUnfold(vs: seq<Value>, size: nat, index: nat, step: nat)
    requires AllPlaced(vs, size) && Addressable(size, index + step * |vs|) && vs != []
    ensures AllPlaced(vs[1..], size) && Addressable(size, index + step + step * |vs[1..]|)
    ensures Addressable(size, index)
    ensures MaxWidth(vs, size, index, step)
         == MaxW(ElemWidthOf(vs[0], size, index), MaxWidth(vs[1..], size, index + step, step))
  {
    hide ElemWidthOf, Placed, MaxW;
    Distribute(1, |vs| - 1, step, 0);
    assert forall k :: 0 <= k < |vs| - 1 ==> vs[1..][k] == vs[k + 1];
  }

  lemma {:induction false} StepInside(index: nat, step: nat, i: nat, n: nat)
    requires i < n
    ensures index + step * i <= index + step * n
    ensures i > 0 ==> index + step + step * (i - 1) == index + step * i
  {
  }

  lemma {:induction false} MaxWidthCovers(vs: seq<Value>, size: nat, index: nat, step: nat, i: nat)
    requires AllPlaced(vs, size) && Addressable(size, index + step * |vs|) && i < |vs|
    ensures Addressable(size, index + step * i)
    ensures ElemWidthOf(vs[i], size, index + step * i) <= MaxWidth(vs, size, index, step)
    decreases |vs|
  {
    hide ElemWidthOf, MaxWidth, Placed;
    StepInside(index, step, i, |vs|);
    MaxWidthUnfold(vs, size, index, step);
    if i > 0 {
      MaxWidthCovers(vs[1..], size, index + step, step, i - 1);
    }
  }

  /** The offset of an element fits where it is really written, because it was measured at least as far
      back, and because a width that fits stays fitting when the vector gets wider. */
  lemma {:induction false} ElementFits(
      v: Value, size: nat, measured: nat, actual: nat, w: BitWidth, at: nat)
    requires Placed(v, size) && Addressable(size, measured) && actual <= measured
    requires ElemWidthOf(v, size, measured) <= w
    requires at == size + PaddingBytes(size, ByteWidth(w)) + actual * ByteWidth(w)
    ensures StoreFits(v, at, w)
  {
    if !IsInline(v.ty) {
      var least := ElemWidthOf(v, size, measured);
      LeastFitFits(size, v.u, measured, 0);
      FitsWider(size, v.u, measured, least, w);
      assert actual * ByteWidth(w) <= measured * ByteWidth(w);
    }
  }

  lemma {:induction false} VectorWidthCovers(e: Elements, size: nat, force: BitWidth, w: BitWidth)
    requires ElementsOk(e, size) && w == VectorWidth(e, size, force)
    ensures Addressable(size, 0) && force <= w && WidthU(|e.vs|) <= w
    ensures MaxWidth(e.vs, size, e.index, e.step) <= w
    ensures e.keys.Some? ==> ElemWidthOf(e.keys.value, size, 0) <= w
  {
    hide MaxWidth, ElemWidthOf, WidthU;
    assert e.step * |e.vs| >= 0;
  }

  /** Element `i` can do with this width. */
  predicate ServedBy(vs: seq<Value>, size: nat, index: nat, step: nat, i: nat, w: BitWidth)
    requires i < |vs| && AllPlaced(vs, size)
  {
    Addressable(size, index + step * i) && ElemWidthOf(vs[i], size, index + step * i) <= w
  }

  lemma {:induction false} MaxWidthBelow(vs: seq<Value>, size: nat, index: nat, step: nat, w: BitWidth)
    requires AllPlaced(vs, size) && Addressable(size, index + step * |vs|)
    requires forall i :: 0 <= i < |vs| ==> ServedBy(vs, size, index, step, i, w)
    ensures MaxWidth(vs, size, index, step) <= w
    decreases |vs|
  {
    hide ElemWidthOf, Placed, Addressable;
    if vs != [] {
      MaxWidthUnfold(vs, size, index, step);
      assert ServedBy(vs, size, index, step, 0, w) && step * 0 == 0;
      var rest, next := vs[1..], index + step;
      forall i | 0 <= i < |rest|
        ensures ServedBy(rest, size, next, step, i, w)
      {
        assert ServedBy(vs, size, index, step, i + 1, w);
        assert step * (i + 1) == step + step * i;
      }
      MaxWidthBelow(rest, size, next, step, w);
    }
  }

  /** The width of a vector is the least that serves everything in it: the minimum asked for, its
      size, all elements, and the way back to the keys of a map. */
  lemma {:induction false} VectorWidthIsLeast(e: Elements, size: nat, force: BitWidth, w: BitWidth)
    requires ElementsOk(e, size)
    ensures Addressable(size, 0)
    ensures VectorWidth(e, size, force) <= w
       <==> (&& force <= w && WidthU(|e.vs|) <= w
             && (forall i :: 0 <= i < |e.vs| ==> ServedBy(e.vs, size, e.index, e.step, i, w))
             && (e.keys.Some? ==> ElemWidthOf(e.keys.value, size, 0) <= w))
  {
    hide MaxWidth, ElemWidthOf, WidthU, Placed;
    VectorWidthCovers(e, size, force, VectorWidth(e, size, force));
    if MaxWidth(e.vs, size, e.index, e.step) <= w {
      forall i | 0 <= i < |e.vs|
        ensures ServedBy(e.vs, size, e.index, e.step, i, w)
      {
        MaxWidthCovers(e.vs, size, e.index, e.step, i);
      }
    } else if forall i :: 0 <= i < |e.vs| ==> ServedBy(e.vs, size, e.index, e.step, i, w) {
      MaxWidthBelow(e.vs, size, e.index, e.step, w);
    }
  }

  /** A few words of `n` bytes further on is still a multiple of `n`. */
  lemma {:induction false} WordsFurther(x: nat, words: nat, n: nat, total: nat)
    requires IsAlign(n) && Multiple(x, n) && words <= 3 && total == x + words * n
    ensures Multiple(total, n)
    decreases words
  {
    hide Multiple;
    ItselfMultiple(n);
    if words > 0 {
      MultipleSum(x, n, n, x + n, x - n);
      WordsFurther(x + n, words - 1, n, total);
    }
  }

  lemma {:induction false} ItselfMultiple(n: nat)
    requires IsAlign(n)
    ensures Multiple(n, n)
  {
  }

  /** The elements of a vector, a tuple or a map start on a multiple of their width. */
  lemma {:induction false} VectorAligned(
      b: seq<byte>, e: Elements, shape: Shape, force: BitWidth, all: seq<byte>, v: Value)
    requires ElementsOk(e, |b|)
    requires shape != Untyped ==> IsTypedVectorElementType(ElementType(e.vs))
    requires shape == Fixed ==> 2 <= |e.vs| <= 4
    requires (all, v) == CreateVector(b, e, shape, force)
    ensures 0 <= v.u && Multiple(v.u, ByteWidth(v.minWidth))
    ensures v.minWidth == VectorWidth(e, |b|, force)
  {
    hide VectorWidth, VectorHead, WriteElems, Types, ElementsOk, Multiple, PaddingBytes, ByteWidth;
    var w := VectorWidth(e, |b|, force);
    var n, head := ByteWidth(w), VectorHead(b, e, shape, w);
    HeadSize(b, e, shape, w, head);
    FewWords(e, shape);
    WordsFurther(|b| + PaddingBytes(|b|, n), HeadWords(e, shape), n, |head|);
  }

  lemma {:induction false} FewWords(e: Elements, shape: Shape)
    ensures HeadWords(e, shape) <= 3
  {
  }

  lemma {:induction false} AllElementsFit(
      b: seq<byte>, e: Elements, shape: Shape, force: BitWidth, w: BitWidth, head: seq<byte>)
    requires ElementsOk(e, |b|) && HeadWords(e, shape) <= e.index && 1 <= e.step
    requires w == VectorWidth(e, |b|, force) && head == VectorHead(b, e, shape, w)
    ensures AllFit(e.vs, |head|, w)
  {
    hide StoreFits, PaddingBytes, VectorHead, ElemWidthOf, VectorWidth, MaxWidth, HeadWords, ByteWidth;
    HeadSize(b, e, shape, w, head);
    VectorWidthCovers(e, |b|, force, w);
    var n, words := ByteWidth(w), HeadWords(e, shape);
    forall i | 0 <= i < |e.vs|
      ensures StoreFits(e.vs[i], |head| + i * n, w)
    {
      MaxWidthCovers(e.vs, |b|, e.index, e.step, i);
      Distribute(words, i, n, e.step);
      ElementFits(e.vs[i], |b|, e.index + e.step * i, words + i, w, |head| + i * n);
    }
  }

  lemma {:induction false} Distribute(a: nat, i: int, n: nat, step: nat)
    ensures (a + i) * n == a * n + i * n
    ensures step >= 1 && i >= 0 ==> step * i >= i
  {
  }

  lemma {:induction false} KeysOffsetFits(b: seq<byte>, e: Elements, force: BitWidth, w: BitWidth)
    requires ElementsOk(e, |b|) && w == VectorWidth(e, |b|, force) && e.keys.Some?
    ensures |b| + PaddingBytes(|b|, ByteWidth(w)) - e.keys.value.u < Pow256(ByteWidth(w))
  {
    hide PaddingBytes, MaxWidth, ElemWidthOf;
    ZeroIndex(e, |b|);
    ElementFits(e.keys.value, |b|, 0, 0, w, |b| + PaddingBytes(|b|, ByteWidth(w)));
  }

  lemma {:induction false} ZeroIndex(e: Elements, size: nat)
    requires ElementsOk(e, size)
    ensures Addressable(size, 0)
  {
    assert e.step * |e.vs| >= 0;
  }

  // ---------------------------------------------------------------------------------------------
  // Whole vectors

  /** The elements of a vector, wherever its bytes end up. */
  lemma {:induction false} VectorElemReads(
      b: seq<byte>, e: Elements, ts: seq<Tree>, shape: Shape, force: BitWidth, w: BitWidth,
      head: seq<byte>, elems: seq<byte>, all: seq<byte>, j: nat, width: nat)
    requires ElementsOk(e, |b|) && HeadWords(e, shape) <= e.index && 1 <= e.step
    requires w == VectorWidth(e, |b|, force) && head == VectorHead(b, e, shape, w)
    requires AllDenote(b, e.vs, ts) && j < |ts| && WidthOk(e.vs[j], ts[j], width)
    requires AllWritable(e.vs, |head|) && elems == WriteElems(head, e.vs, ByteWidth(w))
    requires IsPrefix(elems, all)
    ensures Reads(all, Ref(|head| + j * ByteWidth(w), ByteWidth(w), width, e.vs[j].ty), ts[j])
  {
    hide Denotes, Reads, ByteWidth, LE, StoreFits, IsPrefix, WidthOk, VectorHead, VectorWidth, AllFit,
         PaddingBytes, WriteElems, HeadWords, Writable, Placed;
    HeadSize(b, e, shape, w, head);
    AllElementsFit(b, e, shape, force, w, head);
    forall i | 0 <= i < |e.vs|
      ensures Denotes(head, e.vs[i], ts[i])
    {
      DenotesPrefix(b, head, e.vs[i], ts[i]);
    }
    ElemsRead(head, e.vs, ts, w, elems, j, width);
    ReadsPrefix(elems, all, Ref(|head| + j * ByteWidth(w), ByteWidth(w), width, e.vs[j].ty), ts[j]);
  }

  lemma {:induction false} HeadWritable(b: seq<byte>, e: Elements, shape: Shape, w: BitWidth, head: seq<byte>)
    requires ElementsOk(e, |b|) && head == VectorHead(b, e, shape, w)
    ensures AllWritable(e.vs, |head|)
  {
    forall i | 0 <= i < |e.vs|
      ensures Writable(e.vs[i], |head|)
    {
      assert Writable(e.vs[i], |b|);
    }
  }

  /** The packed types behind the elements. */
  lemma {:induction false} TypesRead(elems: seq<byte>, vs: seq<Value>, w: BitWidth, i: nat)
    requires i < |vs|
    ensures U(elems + Types(vs, w), |elems| + i, 1) == Some(StoredPackedType(vs[i], w))
  {
    var all := elems + Types(vs, w);
    assert all[|elems| + i..|elems| + i + 1] == [StoredPackedType(vs[i], w)];
    assert FromLE([StoredPackedType(vs[i], w)]) == StoredPackedType(vs[i], w);
  }
}
