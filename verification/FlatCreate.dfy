/** Each creating step of the builder puts an object in place that reads as what was asked for, is
    aligned, and leaves everything serialized before as it was.

    Alignment is stated by distances from the end of the buffer, which do not change when the buffer grows
    at its front. */
module FlatCreate {
  import opened Bytes
  import opened FlatReader
  import opened FlatSchema
  import opened FlatLayout
  import opened FlatObjects

  /** `b'` is `b` with bytes put in front. */
  predicate Extends(b': seq<byte>, b: seq<byte>)
  {
    |b| <= |b'| && b'[|b'| - |b|..] == b
  }

  function Prefix(b': seq<byte>, b: seq<byte>): (p: seq<byte>)
    requires Extends(b', b)
    ensures b' == p + b
  {
    b'[..|b'| - |b|]
  }

  lemma {:induction false} ExtendsItself(b: seq<byte>)
    ensures Extends(b, b)
  {
  }

  lemma {:induction false} ExtendsLength(b': seq<byte>, b: seq<byte>)
    requires Extends(b', b)
    ensures |b| <= |b'|
  {
  }

  lemma {:induction false} ExtendsTrans(c: seq<byte>, b: seq<byte>, a: seq<byte>)
    requires Extends(c, b) && Extends(b, a)
    ensures Extends(c, a)
  {
    assert c == Prefix(c, b) + (Prefix(b, a) + a);
  }

  lemma {:induction false} ExtendsU(b': seq<byte>, b: seq<byte>, o: nat, n: nat)
    requires Extends(b', b) && o <= |b|
    ensures U(b', |b'| - o, n) == U(b, |b| - o, n)
  {
    UShift(Prefix(b', b), b, |b| - o, n);
  }

  lemma {:induction false} PushExtends(s: seq<byte>, b: seq<byte>, a: seq<byte>)
    requires Extends(b, a)
    ensures Extends(s + b, a)
  {
    assert s + b == (s + Prefix(b, a)) + a;
  }

  // Sizes are passed to these lemmas as numbers of their own: that keeps sums of lengths out of the
  // arguments of Multiple.

  lemma {:induction false} PreAlignFacts(st: State, len: nat, n: nat, r: State, total: nat)
    requires IsAlign(n) && r == PreAlign(st, len, n) && total == |r.bytes| + len
    ensures Extends(r.bytes, st.bytes) && |r.bytes| < |st.bytes| + n
    ensures Multiple(total, n)
    ensures r == st.(bytes := r.bytes, minalign := Max(st.minalign, n))
  {
    hide PaddingBytes, Multiple;
    assert total == |st.bytes| + len + PaddingBytes(|st.bytes| + len, n);
  }

  /** At a multiple of its size a scalar is pushed without padding. */
  lemma {:induction false} PushScalarAligned(st: State, v: nat, n: ScalarSize, size: nat)
    requires size == |st.bytes| && Multiple(size, n)
    ensures PushScalar(st, v, n)
         == st.(bytes := LE(v, n) + st.bytes, minalign := Max(st.minalign, n))
    ensures n == 4 ==> Multiple(|PushScalar(st, v, n).bytes|, 4)
  {
    hide PaddingBytes, Multiple;
    NoPadding(size, n);
    assert Zeros(0) + st.bytes == st.bytes;
    PlusFour(size, size + 4, n);
  }

  lemma {:induction false} NoPadding(size: nat, n: nat)
    requires IsAlign(n) && Multiple(size, n)
    ensures PaddingBytes(size, n) == 0
  {
    hide PaddingBytes;
    var p := PaddingBytes(size, n);
    MultipleSum(size + p, size, n, size + p + size, p);
  }

  lemma {:induction false} PlusFour(size: nat, more: nat, n: nat)
    requires IsAlign(n) && more == size + 4
    ensures n == 4 && Multiple(size, n) ==> Multiple(more, 4)
  {
  }

  lemma {:induction false} PushRefAligned(st: State, off: nat, size: nat)
    requires off <= |st.bytes| && size == |st.bytes| && Multiple(size, 4)
    ensures PushRef(st, off)
         == st.(bytes := LE(size - off + 4, 4) + st.bytes, minalign := Max(st.minalign, 4))
    ensures Multiple(|PushRef(st, off).bytes|, 4)
  {
    hide PaddingBytes, Multiple;
    NoPadding(size, 4);
    assert Zeros(0) + st.bytes == st.bytes;
    PlusFour(size, size + 4, 4);
  }

  // ---------------------------------------------------------------------------------------------
  // Strings

  /** No padding separates the length of a string from its characters, and a terminator follows. */
  lemma {:induction false} CreateStringLayout(st: State, s: seq<byte>, p: State, st': State, o: nat)
    requires p == PreAlign(st, |s| + 1, 4) && (st', o) == CreateString(st, s)
    ensures st'.bytes == LE(|s|, 4) + (s + [0] + p.bytes)
    ensures Extends(p.bytes, st.bytes) && Extends(st'.bytes, st.bytes)
    ensures o == |st'.bytes| && Multiple(o, 4)
    ensures st' == st.(bytes := st'.bytes, minalign := Max(st.minalign, 4))
  {
    hide PreAlign, PushScalar, LE, Multiple, Extends;
    var n := |p.bytes| + |s| + 1;
    PreAlignFacts(st, |s| + 1, 4, p, n);
    PushScalarAligned(Push(p, s + [0]), |s|, 4, n);
    PushExtends(s + [0], p.bytes, st.bytes);
    PushExtends(LE(|s|, 4), s + [0] + p.bytes, st.bytes);
  }

  lemma {:induction false} CreateStringReads(st: State, offs: seq<nat>, s: seq<byte>, st': State, o: nat)
    requires |s| < 0x1_0000_0000 && (st', o) == CreateString(st, s)
    ensures ObjAt(st'.bytes, offs, o, OStr(s), st'.minalign)
  {
    hide CreateString, PreAlign, GetString, LE, Multiple;
    var p := PreAlign(st, |s| + 1, 4);
    CreateStringLayout(st, s, p, st', o);
    StringInFront(s, p.bytes);
  }

  lemma {:induction false} StringInFront(s: seq<byte>, behind: seq<byte>)
    requires |s| < 0x1_0000_0000
    ensures GetString(LE(|s|, 4) + (s + [0] + behind), 0) == Some(s)
  {
    hide U, LE;
    assert Pow256(4) == 0x1_0000_0000;
    var b := LE(|s|, 4) + (s + [0] + behind);
    assert b == [] + LE(|s|, 4) + (s + [0] + behind);
    UAt([], |s|, 4, s + [0] + behind);
    assert b[4..4 + |s|] == s;
  }

  // ---------------------------------------------------------------------------------------------
  // Scalar vectors

  lemma {:induction false} ElemsLength(xs: seq<nat>, n: ScalarSize)
    ensures |Elems(xs, n)| == n * |xs|
  {
    if xs != [] {
      ElemsLength(xs[1..], n);
      assert n * |xs| == n + n * (|xs| - 1);
    }
  }

  lemma {:induction false} ElemsAt(xs: seq<nat>, n: ScalarSize, i: nat)
    requires i < |xs|
    ensures |Elems(xs, n)| == n * |xs|
    ensures n * i + n <= n * |xs|
    ensures Elems(xs, n)[n * i..n * i + n] == LE(xs[i], n)
  {
    ElemsLength(xs, n);
    assert n * i + n <= n * |xs| by { assert n * (|xs| - i - 1) >= 0; }
    if i > 0 {
      ElemsAt(xs[1..], n, i - 1);
      assert n * i == n + n * (i - 1);
      SliceOfAppend(LE(xs[0], n), Elems(xs[1..], n), n * (i - 1), n);
    }
  }

  lemma {:induction false} ElemRead(b: seq<byte>, xs: seq<nat>, n: ScalarSize, i: nat)
    requires i < |xs| && xs[i] < Pow256(n) && |Elems(xs, n)| == n * |xs|
    requires 4 + n * |xs| <= |b| && b[4..4 + n * |xs|] == Elems(xs, n)
    ensures VecGet(b, 0, n, i) == Some(xs[i])
  {
    hide LE, FromLE, Elems;
    ElemsAt(xs, n, i);
    FromLEofLE(xs[i], n);
    SubSlice(b, 4, n * |xs|, n * i, n);
  }

  lemma {:induction false} ElemsRead(b: seq<byte>, xs: seq<nat>, n: ScalarSize, i: nat)
    requires i <= |xs| && forall k :: 0 <= k < |xs| ==> xs[k] < Pow256(n)
    requires |Elems(xs, n)| == n * |xs|
    requires 4 + n * |xs| <= |b| && b[4..4 + n * |xs|] == Elems(xs, n)
    ensures VecFrom(b, 0, n, i, |xs|) == Some(xs[i..])
    decreases |xs| - i
  {
    hide LE, FromLE, Elems;
    if i < |xs| {
      ElemsRead(b, xs, n, i + 1);
      ElemRead(b, xs, n, i);
      assert [xs[i]] + xs[i + 1..] == xs[i..];
    }
  }

  lemma {:induction false} OneIsOdd()
    ensures !Multiple(1, 2)
  {
  }

  /** Padding a multiple of 4 up to a multiple of `n` leaves a multiple of both. */
  lemma {:induction false} BothAligned(a: nat, b: nat, n: ScalarSize)
    requires Multiple(a, 4) && a <= b < a + n && Multiple(b, n)
    ensures Multiple(b, 4)
  {
    hide Multiple;
    if n == 2 {
      AlignDivides(a, 4, 2);
      MultipleSum(b, a, 2, b + a, b - a);
      OneIsOdd();
    } else if n == 8 {
      AlignDivides(b, 8, 4);
    }
  }

  /** No padding separates the length of a scalar vector from its elements. */
  lemma {:induction false} CreateScalarsLayout(
      st: State, n: ScalarSize, xs: seq<nat>, e: seq<byte>, p: State, st': State, o: nat)
    requires e == Elems(xs, n) && p == PreAlign(PreAlign(st, |e|, 4), |e|, n)
    requires (st', o) == CreateScalars(st, n, xs)
    ensures st'.bytes == LE(|xs|, 4) + (e + p.bytes)
    ensures Extends(p.bytes, st.bytes) && Extends(st'.bytes, st.bytes)
    ensures o == |st'.bytes| && Multiple(o, 4) && 4 <= o && Multiple(o - 4, n)
    ensures st' == st.(bytes := st'.bytes, minalign := Max(Max(st.minalign, 4), n))
  {
    hide PreAlign, PushScalar, LE, Elems, Multiple, Extends;
    var p0 := PreAlign(st, |e|, 4);
    var total0, total := |p0.bytes| + |e|, |p.bytes| + |e|;
    PreAlignFacts(st, |e|, 4, p0, total0);
    PreAlignFacts(p0, |e|, n, p, total);
    ExtendsTrans(p.bytes, p0.bytes, st.bytes);
    ExtendsLength(p.bytes, p0.bytes);
    BothAligned(total0, total, n);
    PushScalarAligned(Push(p, e), |xs|, 4, total);
    PushExtends(e, p.bytes, st.bytes);
    PushExtends(LE(|xs|, 4), e + p.bytes, st.bytes);
    assert o - 4 == total;
  }

  lemma {:induction false} CreateScalarsReads(
      st: State, offs: seq<nat>, n: ScalarSize, xs: seq<nat>, st': State, o: nat)
    requires |xs| < 0x1_0000_0000 && forall k :: 0 <= k < |xs| ==> xs[k] < Pow256(n)
    requires (st', o) == CreateScalars(st, n, xs)
    ensures ObjAt(st'.bytes, offs, o, OScalars(n, xs), st'.minalign)
  {
    hide CreateScalars, PreAlign, U, LE, Multiple, Elems, VecFrom;
    var e := Elems(xs, n);
    var p := PreAlign(PreAlign(st, |e|, 4), |e|, n);
    CreateScalarsLayout(st, n, xs, e, p, st', o);
    ElemsLength(xs, n);
    assert st'.bytes == [] + LE(|xs|, 4) + (e + p.bytes);
    UAt([], |xs|, 4, e + p.bytes);
    assert st'.bytes[4..4 + n * |xs|] == e;
    ElemsRead(st'.bytes, xs, n, 0);
    assert xs[0..] == xs;
  }

  // ---------------------------------------------------------------------------------------------
  // Offset vectors

  lemma {:induction false} PushRefsLayout(st: State, offs: seq<nat>, r: State, size: nat)
    requires size == |st.bytes| && Multiple(size, 4)
    requires forall k :: 0 <= k < |offs| ==> offs[k] <= |st.bytes|
    requires |st.bytes| + 4 * |offs| < 0x1_0000_0000
    requires r == PushRefs(st, offs)
    ensures |r.bytes| == |st.bytes| + 4 * |offs| && Multiple(|r.bytes|, 4)
    ensures Extends(r.bytes, st.bytes)
    ensures forall k :: 0 <= k < |offs| ==> U(r.bytes, 4 * k, 4) == Some(|r.bytes| - 4 * k - offs[k])
    ensures r == st.(bytes := r.bytes, minalign := if offs == [] then st.minalign else Max(st.minalign, 4))
  {
    hide U, LE, PreAlign, Multiple, Extends, PushRef;
    if offs == [] {
      ExtendsItself(st.bytes);
    } else {
      var st1 := PushRefs(st, offs[1..]);
      PushRefsLayout(st, offs[1..], st1, size);
      PushRefAligned(st1, offs[0], |st1.bytes|);
      var v := |st1.bytes| - offs[0] + 4;
      PushExtends(LE(v, 4), st1.bytes, st.bytes);
      RefsAfterPush(st1.bytes, offs, v, r.bytes);
    }
  }

  lemma {:induction false} RefsAfterPush(b1: seq<byte>, offs: seq<nat>, v: nat, b: seq<byte>)
    requires offs != [] && b == LE(v, 4) + b1 && v < Pow256(4) && v == |b1| - offs[0] + 4
    requires forall k :: 0 <= k < |offs| - 1 ==> U(b1, 4 * k, 4) == Some(|b1| - 4 * k - offs[1..][k])
    ensures forall k :: 0 <= k < |offs| ==> U(b, 4 * k, 4) == Some(|b| - 4 * k - offs[k])
  {
    hide U, LE;
    UAt([], v, 4, b1);
    assert [] + LE(v, 4) + b1 == b;
    forall k | 0 <= k < |offs|
      ensures U(b, 4 * k, 4) == Some(|b| - 4 * k - offs[k])
    {
      if k > 0 {
        var j := k - 1;
        UShift(LE(v, 4), b1, 4 * j, 4);
        assert offs[1..][j] == offs[k] && |LE(v, 4)| + 4 * j == 4 * k;
      }
    }
  }

  lemma {:induction false} PushRefsSize(st: State, offs: seq<nat>)
    requires forall k :: 0 <= k < |offs| ==> offs[k] <= |st.bytes|
    ensures |PushRefs(st, offs).bytes| >= |st.bytes| + 4 * |offs|
  {
    if offs != [] {
      PushRefsSize(st, offs[1..]);
    }
  }

  /** The elements of an offset vector, before its length is pushed. */
  lemma {:induction false} AlignedRefsLayout(st: State, offs: seq<nat>, st0: State, st1: State)
    requires forall k :: 0 <= k < |offs| ==> offs[k] <= |st.bytes|
    requires st0 == PreAlign(st, 4 * |offs|, 4) && st1 == PushRefs(st0, offs)
    requires |st1.bytes| < 0x8000_0000
    ensures Extends(st1.bytes, st.bytes) && Multiple(|st1.bytes|, 4) && |offs| < 0x8000_0000
    ensures forall k :: 0 <= k < |offs| ==> U(st1.bytes, 4 * k, 4) == Some(|st1.bytes| - 4 * k - offs[k])
    ensures st1 == st.(bytes := st1.bytes, minalign := Max(st.minalign, 4))
  {
    PushRefsSize(st0, offs);
    hide U, LE, PreAlign, PushRefs, Multiple, Extends;
    var total := |st0.bytes| + 4 * |offs|;
    PreAlignFacts(st, 4 * |offs|, 4, st0, total);
    StripMultiple(|st0.bytes|, |offs|, total);
    PushRefsLayout(st0, offs, st1, |st0.bytes|);
    ExtendsTrans(st1.bytes, st0.bytes, st.bytes);
  }

  lemma {:induction false} PushScalarSize(st: State, v: nat, n: ScalarSize)
    ensures |PushScalar(st, v, n).bytes| >= |st.bytes| + n
  {
  }

  lemma {:induction false} CreateOffsetsLayout(st: State, offs: seq<nat>, st': State, o: nat)
    requires forall k :: 0 <= k < |offs| ==> offs[k] <= |st.bytes|
    requires (st', o) == CreateOffsets(st, offs) && |st'.bytes| < 0x8000_0000
    ensures Extends(st'.bytes, st.bytes)
    ensures o == |st'.bytes| && 4 <= o && Multiple(o, 4)
    ensures U(st'.bytes, 0, 4) == Some(|offs|)
    ensures forall k :: 0 <= k < |offs| ==> VecGetRef(st'.bytes, 0, k) == Some(o - offs[k])
    ensures st' == st.(bytes := st'.bytes, minalign := Max(st.minalign, 4))
  {
    hide U, LE, PreAlign, PushRefs, Multiple, Extends, PushScalar, VecGetRef;
    var st0 := PreAlign(st, 4 * |offs|, 4);
    PreAlignFacts(st, 4 * |offs|, 4, st0, |st0.bytes| + 4 * |offs|);
    ExtendsLength(st0.bytes, st.bytes);
    var st1 := PushRefs(st0, offs);
    PushScalarSize(st1, |offs|, 4);
    AlignedRefsLayout(st, offs, st0, st1);
    PushScalarAligned(st1, |offs|, 4, |st1.bytes|);
    PushExtends(LE(|offs|, 4), st1.bytes, st.bytes);
    ExtendsLength(st1.bytes, st.bytes);
    OffsetsAfterLength(st1.bytes, offs, st'.bytes);
  }

  lemma {:induction false} StripMultiple(a: nat, k: nat, total: nat)
    requires total == a + 4 * k && Multiple(total, 4)
    ensures Multiple(a, 4)
  {
  }

  lemma {:induction false} OffsetsAfterLength(b1: seq<byte>, offs: seq<nat>, b: seq<byte>)
    requires b == LE(|offs|, 4) + b1 && |offs| < Pow256(4)
    requires forall k :: 0 <= k < |offs| ==> offs[k] <= |b1|
    requires forall k :: 0 <= k < |offs| ==> U(b1, 4 * k, 4) == Some(|b1| - 4 * k - offs[k])
    ensures U(b, 0, 4) == Some(|offs|)
    ensures forall k :: 0 <= k < |offs| ==> VecGetRef(b, 0, k) == Some(|b| - offs[k])
  {
    hide U, LE;
    UAt([], |offs|, 4, b1);
    assert [] + LE(|offs|, 4) + b1 == b;
    forall k | 0 <= k < |offs|
      ensures VecGetRef(b, 0, k) == Some(|b| - offs[k])
    {
      UShift(LE(|offs|, 4), b1, 4 * k, 4);
    }
  }

  lemma {:induction false} CreateOffsetsReads(st: State, offs: seq<nat>, hs: seq<nat>, st': State, o: nat)
    requires forall k :: 0 <= k < |hs| ==> hs[k] < |offs| && offs[hs[k]] <= |st.bytes|
    requires (st', o) == CreateOffsets(st, Targets(offs, hs)) && |st'.bytes| < 0x8000_0000
    ensures ObjAt(st'.bytes, offs, o, ORefs(hs), st'.minalign)
  {
    hide CreateOffsets, U, VecGetRef, Multiple;
    CreateOffsetsLayout(st, Targets(offs, hs), st', o);
  }

  /** The offsets of the objects that `hs` names. */
  function Targets(offs: seq<nat>, hs: seq<nat>): (r: seq<nat>)
    requires forall k :: 0 <= k < |hs| ==> hs[k] < |offs|
    ensures |r| == |hs| && forall k :: 0 <= k < |hs| ==> r[k] == offs[hs[k]]
  {
    seq(|hs|, k requires 0 <= k < |hs| => offs[hs[k]])
  }
}
