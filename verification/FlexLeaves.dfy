/** Keys, strings, blobs and indirect numbers: what the builder appends for them stands for them.

    A key is a C string and has no size; a string has a size in front and a terminator behind; a blob has
    the size only; an indirect number is a scalar of its own. All but keys are aligned to the width of what
    is in front of them. */
module FlexLeaves {
  import opened Bytes
  import opened FlexWidth
  import opened FlexReader
  import opened FlexLayout
  import opened FlexDenote
  import opened FlexVector
  import opened FlexPool

  lemma {:induction false} KeyDenotes(b: seq<byte>, s: seq<byte>, b': seq<byte>)
    requires b' == b + s + [0]
    ensures StringHere(b', |b|, s)
    ensures Denotes(b', Value(|b|, FBT_KEY, 0), Key(Cut(s)))
    ensures CString(b', |b|) == Some(Cut(s))
    ensures IsPrefix(b, b')
  {
    hide CString, Cut;
    assert b'[|b|..|b| + |s|] == s;
    CStringIsCut(b', |b|, s);
  }

  lemma {:induction false} BlobReads(
      b: seq<byte>, s: seq<byte>, trailing: seq<byte>, ty: FlexType, b': seq<byte>, v: Value)
    requires |s| < 0x1_0000_0000_0000_0000
    requires (b', v) == CreateBlob(b, s, trailing, ty)
    ensures IsPrefix(b, b') && v.minWidth == WidthU(|s|) && 0 <= v.u && v.u + |s| + |trailing| == |b'|
    ensures b'[v.u..v.u + |s|] == s && b'[v.u + |s|..] == trailing
    ensures BlobAt(b', v.u, ByteWidth(v.minWidth)) == Some(s)
  {
    hide LE, U, PaddingBytes, WidthU, IsPrefix;
    var w := WidthU(|s|);
    var a := Align(b, w);
    var n := ByteWidth(w);
    WidthUIsLeast(|s|, w);
    UAt(a, |s|, n, s + trailing);
    assert b' == a + LE(|s|, n) + (s + trailing);
    PrefixAppend(b, Zeros(PaddingBytes(|b|, n)));
    PrefixAppend(a, LE(|s|, n) + (s + trailing));
    assert b' == a + (LE(|s|, n) + (s + trailing));
    PrefixTrans(b, a, b');
  }

  lemma {:induction false} BlobDenotes(b: seq<byte>, s: seq<byte>, b': seq<byte>, v: Value)
    requires |s| < 0x1_0000_0000_0000_0000 && (b', v) == CreateBlob(b, s, [], FBT_BLOB)
    ensures Denotes(b', v, Blob(s)) && IsPrefix(b, b')
  {
    hide LE, BlobAt, WidthU, IsPrefix, CreateBlob;
    BlobReads(b, s, [], FBT_BLOB, b', v);
  }

  lemma {:induction false} StringDenotes(b: seq<byte>, s: seq<byte>, b': seq<byte>, v: Value)
    requires |s| < 0x1_0000_0000_0000_0000 && (b', v) == CreateBlob(b, s, [0], FBT_STRING)
    ensures v == Value(v.u, FBT_STRING, WidthU(|s|))
    ensures v.u >= 0 && StringHere(b', v.u, s) && StringAt(b', v.u, ByteWidth(v.minWidth)) == Some(s)
    ensures Denotes(b', v, String(s)) && IsPrefix(b, b')
  {
    hide LE, BlobAt, WidthU, IsPrefix;
    BlobReads(b, s, [0], FBT_STRING, b', v);
    assert b'[v.u + |s|] == b'[v.u + |s|..][0];
  }

  lemma {:induction false} IndirectIntDenotes(b: seq<byte>, i: int, b': seq<byte>, v: Value)
    requires IsInt64(i) && (b', v) == PushIndirect(b, i, FBT_INDIRECT_INT, WidthI(i))
    ensures Denotes(b', v, IndirectInt(i)) && IsPrefix(b, b')
  {
    hide LE, U, PaddingBytes, WidthI, IsPrefix, Bits64;
    var w := WidthI(i);
    var n := ByteWidth(w);
    var a := Align(b, w);
    FitsEight(i);
    WidthIIsLeast(i, w);
    TruncatedWrite(i, w);
    UAt(a, BitsOf(i, n), n, []);
    assert b' == a + LE(BitsOf(i, n), n) + [];
    PrefixAppend(b, Zeros(PaddingBytes(|b|, n)));
    PrefixAppend(a, LE(BitsOf(i, n), n));
    PrefixTrans(b, a, b');
  }

  lemma {:induction false} IndirectUIntDenotes(b: seq<byte>, u: nat, b': seq<byte>, v: Value)
    requires IsUInt64(u) && (b', v) == PushIndirect(b, u, FBT_INDIRECT_UINT, WidthU(u))
    ensures Denotes(b', v, IndirectUInt(u)) && IsPrefix(b, b')
  {
    hide LE, U, PaddingBytes, WidthU, IsPrefix;
    var w := WidthU(u);
    var n := ByteWidth(w);
    var a := Align(b, w);
    WidthUIsLeast(u, w);
    UAt(a, u, n, []);
    assert b' == a + LE(u, n) + [];
    PrefixAppend(b, Zeros(PaddingBytes(|b|, n)));
    PrefixAppend(a, LE(u, n));
    PrefixTrans(b, a, b');
  }

  /** The characters of a string and the bytes of a blob start on a multiple of the width of their size. */
  lemma {:induction false} BlobAligned(
      b: seq<byte>, s: seq<byte>, trailing: seq<byte>, ty: FlexType, b': seq<byte>, v: Value)
    requires (b', v) == CreateBlob(b, s, trailing, ty)
    ensures v.minWidth == WidthU(|s|) && 0 <= v.u && Multiple(v.u, ByteWidth(v.minWidth))
    ensures |b| < v.u < |b| + 16
  {
    hide PaddingBytes, Multiple, WidthU;
    var n := ByteWidth(WidthU(|s|));
    WordsFurther(|b| + PaddingBytes(|b|, n), 1, n, v.u);
  }

  /** A number of its own is aligned to its width. */
  lemma {:induction false} IndirectAligned(b: seq<byte>, x: int, ty: FlexType, w: BitWidth, b': seq<byte>, v: Value)
    requires -0x8000_0000_0000_0000 <= x && (b', v) == PushIndirect(b, x, ty, w)
    ensures v.minWidth == w && 0 <= v.u && Multiple(v.u, ByteWidth(w)) && |b'| == v.u + ByteWidth(w)
    ensures |b| <= v.u < |b| + 8
  {
    hide Multiple;
  }
}
