/** Typed vectors of strings.

    Their reader takes every string's size to be one byte wide, as it does for all elements of typed vectors,
    which have no type byte of their own to tell otherwise. So they read back if and only if all sizes are
    below 256. */
module FlexTyped {
  import opened Bytes
  import opened FlexWidth
  import opened FlexReader
  import opened FlexLayout
  import opened FlexDenote
  import opened FlexVector
  import opened FlexContainers

  /** The last byte of a little-endian number is its highest digit. */
  lemma {:induction false} LastByte(s: seq<byte>)
    requires s != []
    ensures FromLE(s) >= s[|s| - 1] * Pow256(|s| - 1)
    decreases |s|
  {
    if |s| > 1 {
      LastByte(s[1..]);
      assert s[1..][|s[1..]| - 1] == s[|s| - 1];
      assert Pow256(|s| - 1) == 0x100 * Pow256(|s| - 2);
      Scale(s[|s| - 1], Pow256(|s| - 2));
    }
  }

  lemma {:induction false} Scale(a: nat, p: nat)
    ensures a * (0x100 * p) == 0x100 * (a * p)
  {
  }

  /** With one byte for the size, a string of 256 bytes or more is taken to be shorter. */
  lemma {:induction false} NarrowSize(b: seq<byte>, p: int, n: nat, size: nat)
    requires n == 2 || n == 4 || n == 8
    requires SizeAt(b, p, n) == Some(size) && size > 0
    ensures SizeAt(b, p, 1).Some? && SizeAt(b, p, 1).value < size
  {
    var s := b[p - n..p];
    assert b[p - n..p - n + n] == s;
    LastByte(s);
    assert b[p - 1..p - 1 + 1] == [s[n - 1]];
    assert FromLE([s[n - 1]]) == s[n - 1] by {
      assert [s[n - 1]][1..] == [];
    }
    Pow256Values();
    assert Pow256(n - 1) >= 0x100 by {
      assert Pow256(n - 1) == 0x100 * Pow256(n - 2);
    }
    var d: nat, k: nat := s[n - 1], Pow256(n - 1);
    if d > 0 {
      assert d * k >= d * 0x100;
    }
  }

  lemma {:induction false} NarrowStringReadsIff(b: seq<byte>, p: int, s: seq<byte>)
    requires StringAt(b, p, ByteWidth(WidthU(|s|))) == Some(s)
    ensures StringAt(b, p, 1) == Some(s) <==> |s| < 0x100
  {
    hide U;
    if |s| >= 0x100 {
      NarrowSize(b, p, ByteWidth(WidthU(|s|)), |s|);
    }
  }

  /** What CreateVector makes of strings when asked for a typed vector reads as their typed vector if and only
      if each of them is shorter than 256 bytes. */
  lemma {:induction false} TypedStringsReadIff(
      b: seq<byte>, e: Elements, ts: seq<Tree>, force: BitWidth,
      w: BitWidth, head: seq<byte>, elems: seq<byte>, all: seq<byte>)
    requires Created(b, e, Typed, force, w, head, elems, all) && AllDenote(b, e.vs, ts)
    requires forall i :: 0 <= i < |ts| ==> ts[i].String?
    ensures Denotes(all, Value(|head|, ToTypedVector(FBT_STRING, 0), w), TypedVector(FBT_STRING, ts))
       <==> forall i :: 0 <= i < |ts| ==> |ts[i].s| < 0x100
  {
    hide Created, ByteWidth, SizeAt, StringAt, IsPrefix, ReadsAt, Indirect;
    if forall i :: 0 <= i < |ts| ==> |ts[i].s| < 0x100 {
      ShortStrings(b, e.vs, ts);
      TypedVectorDenotes(b, e, ts, FBT_STRING, force, w, head, elems, all);
    }
    if Denotes(all, Value(|head|, ToTypedVector(FBT_STRING, 0), w), TypedVector(FBT_STRING, ts)) {
      forall i | 0 <= i < |ts|
        ensures |ts[i].s| < 0x100
      {
        ElementReads(all, |head|, w, ts, i);
        StringElement(b, e.vs, ts, i);
        CreatedElemReads(b, e, ts, Typed, force, w, head, elems, all, i, ByteWidth(e.vs[i].minWidth));
        SameStringIff(all, |head| + i * ByteWidth(w), ByteWidth(w), ts[i].s);
      }
    }
  }

  lemma {:induction false} StringElement(b: seq<byte>, vs: seq<Value>, ts: seq<Tree>, i: nat)
    requires AllDenote(b, vs, ts) && i < |ts| && ts[i].String?
    ensures |vs| == |ts| && vs[i].ty == FBT_STRING && vs[i].minWidth == WidthU(|ts[i].s|)
  {
    assert Denotes(b, vs[i], ts[i]);
  }

  lemma {:induction false} ShortStrings(b: seq<byte>, vs: seq<Value>, ts: seq<Tree>)
    requires AllDenote(b, vs, ts)
    requires forall i :: 0 <= i < |ts| ==> ts[i].String? && |ts[i].s| < 0x100
    ensures SameType(vs, ts, FBT_STRING)
  {
    hide Denotes;
    SameLength(b, vs, ts);
    forall i | 0 <= i < |vs|
      ensures vs[i].ty == FBT_STRING && WidthOk(vs[i], ts[i], 1)
    {
      StringElement(b, vs, ts, i);
    }
  }

  lemma {:induction false} ElementReads(all: seq<byte>, p: nat, w: BitWidth, ts: seq<Tree>, i: nat)
    requires i < |ts|
    requires Denotes(all, Value(p, ToTypedVector(FBT_STRING, 0), w), TypedVector(FBT_STRING, ts))
    ensures Reads(all, Ref(p + i * ByteWidth(w), ByteWidth(w), 1, FBT_STRING), ts[i])
  {
    hide Reads, ByteWidth;
    assert TypedVectorAt(all, p, ByteWidth(w), FBT_STRING, i).Some?;
  }

  lemma {:induction false} SameStringIff(all: seq<byte>, at: int, n: nat, s: seq<byte>)
    requires Reads(all, Ref(at, n, 1, FBT_STRING), String(s))
    requires Reads(all, Ref(at, n, ByteWidth(WidthU(|s|)), FBT_STRING), String(s))
    ensures |s| < 0x100
  {
    hide StringAt;
    NarrowStringReadsIff(all, Indirect(all, at, n).value, s);
  }

  /** A string of 256 bytes, in a buffer of its own: with one byte for its size it has a length of 1. */
  lemma {:induction false} LongStringExample()
    ensures var s := Zeros(0x100); var b := LE(|s|, 2) + s + [0];
      StringAt(b, 2, 2) == Some(s) && StringAt(b, 2, 1) == Some([0])
  {
    var s := Zeros(0x100);
    var b := LE(|s|, 2) + s + [0];
    assert LE(|s|, 2) == [0, 1] by {
      assert LE(1, 1) == [1] + LE(0, 0);
    }
    UAt([], |s|, 2, s + [0]);
    assert [] + LE(|s|, 2) + (s + [0]) == b;
    assert b[2..2 + 0x100] == s;
    assert b[1..1 + 1] == [1];
    assert FromLE([1]) == 1 by { assert [1 as byte][1..] == []; }
    assert b[2..3] == [0];
  }
}
