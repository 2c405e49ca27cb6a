/** Changing elements of a finished FlexBuffer in place.

    An element can be overwritten by a value that fits the room it has; a string by one of the same length.
    Each result says when this succeeds, what the element reads as afterwards, and that no other byte has
    changed. */
module FlexMutate {
  import opened Bytes
  import opened FlexWidth
  import opened FlexReader
  import opened FlexLayout
  import opened FlexDenote

  /** The buffer with `x` in place of what was at `at`. */
  function Overwritten(b: seq<byte>, at: int, x: seq<byte>): (r: seq<byte>)
    requires 0 <= at && at + |x| <= |b|
    ensures |r| == |b|
  {
    b[..at] + x + b[at + |x|..]
  }

  /** The types MutateInt and MutateUInt write to. */
  predicate IsMutable(ty: nat)
  {
    ty == FBT_INT || ty == FBT_UINT || ty == FBT_INDIRECT_INT || ty == FBT_INDIRECT_UINT
  }

  /** Where a scalar element keeps its value, and how wide it is there. */
  datatype Place = Place(at: int, w: BitWidth)

  /** The element keeps its value inside the buffer: inline in its parent, or behind an offset. */
  predicate StoredAt(b: seq<byte>, r: Ref, p: Place)
  {
    && 0 <= p.at && p.at + ByteWidth(p.w) <= |b|
    && if r.ty == FBT_INT || r.ty == FBT_UINT || r.ty == FBT_BOOL then p.at == r.data && ByteWidth(p.w) == r.parent
       else
         && Indirect(b, r.data, r.parent) == Some(p.at) && ByteWidth(p.w) == r.width
         && (r.data + r.parent <= p.at || p.at + ByteWidth(p.w) <= r.data)
  }

  /** Reads elsewhere in the buffer do not notice. */
  lemma {:induction false} OverwrittenElsewhere(b: seq<byte>, at: nat, x: seq<byte>, i: int, n: nat)
    requires at + |x| <= |b| && (i + n <= at || at + |x| <= i)
    ensures U(Overwritten(b, at, x), i, n) == U(b, i, n)
  {
    var b' := Overwritten(b, at, x);
    if 0 <= i && i + n <= |b| {
      assert b'[i..i + n] == b[i..i + n];
    }
  }

  lemma {:induction false} OverwrittenAt(b: seq<byte>, at: nat, v: nat, n: nat)
    requires at + n <= |b| && v < Pow256(n)
    ensures U(Overwritten(b, at, LE(v, n)), at, n) == Some(v)
  {
    UAt(b[..at], v, n, b[at + n..]);
  }

  /** The value an integer element has after it was set to the 64 bits of `i`, seen with its own sign. */
  lemma {:induction false} IntReads(b: seq<byte>, at: nat, i: int, w: BitWidth)
    requires IsInt64(i) && at + ByteWidth(w) <= |b| && WidthI(i) <= w
    ensures ReadInt(Overwritten(b, at, LE(Bits64(i), ByteWidth(w))), at, ByteWidth(w)) == Some(i)
  {
    hide LE, U;
    FitsEight(i);
    WidthIIsLeast(i, w);
    TruncatedWrite(i, w);
    OverwrittenAt(b, at, BitsOf(i, ByteWidth(w)), ByteWidth(w));
  }

  lemma {:induction false} UIntReads(b: seq<byte>, at: nat, u: nat, w: BitWidth)
    requires IsUInt64(u) && at + ByteWidth(w) <= |b| && WidthU(u) <= w
    ensures U(Overwritten(b, at, LE(u, ByteWidth(w))), at, ByteWidth(w)) == Some(u)
  {
    hide LE, U;
    WidthUIsLeast(u, w);
    OverwrittenAt(b, at, u, ByteWidth(w));
  }

  /** What MutateInt makes an element hold: unsigned ones take the value modulo 2 to the 64. */
  function MutatedTree(ty: nat, i: int): Tree
    requires IsInt64(i)
  {
    if ty == FBT_INT then Int(i)
    else if ty == FBT_INDIRECT_INT then IndirectInt(i)
    else if ty == FBT_UINT then UInt(Bits64(i))
    else IndirectUInt(Bits64(i))
  }

  function MutatedWidth(ty: nat, i: int): BitWidth
    requires IsInt64(i)
  {
    if ty == FBT_INT || ty == FBT_INDIRECT_INT then WidthI(i) else WidthU(Bits64(i))
  }

  /** What memcpy finds in `n` bytes from the address of a value of type T: the value itself, `size` bytes
      wide, and then whatever lies behind it in memory. */
  function Copied(bits: nat, size: nat, behind: seq<byte>, n: nat): (x: seq<byte>)
    requires n <= size + |behind|
    ensures |x| == n
  {
    (LE(bits, size) + behind)[..n]
  }

  /** A value at least as wide as the element is copied without anything from behind it. */
  lemma {:induction false} WideCopy(bits: nat, size: nat, behind: seq<byte>, n: nat)
    requires n <= size
    ensures Copied(bits, size, behind, n) == LE(bits, n)
  {
    LowBytesFirst(bits, size, n);
    assert (LE(bits, size) + behind)[..n] == LE(bits, size)[..n];
  }

  lemma {:induction false} LowBytesFirst(bits: nat, size: nat, n: nat)
    requires n <= size
    ensures LE(bits, size)[..n] == LE(bits, n)
  {
    if n > 0 {
      LowBytesFirst(bits / 0x100, size - 1, n - 1);
      assert LE(bits, size)[..n] == [bits % 0x100] + LE(bits / 0x100, size - 1)[..n - 1];
    }
  }

  /** Mutate, of a value of a type of `size` bytes: a value that needs more room than there is leaves the
      buffer alone; else as many bytes are copied as the element has, whether or not the value has them. */
  method Mutate(
      b: array<byte>, dest: int, bits: nat, size: nat, behind: seq<byte>, byteWidth: nat, valueWidth: BitWidth)
    returns (fits: bool)
    requires 0 <= dest && dest + byteWidth <= b.Length && byteWidth <= size + |behind|
    modifies b
    ensures fits <==> ByteWidth(valueWidth) <= byteWidth
    ensures b[..] == if fits then Overwritten(old(b[..]), dest, Copied(bits, size, behind, byteWidth)) else old(b[..])
  {
    fits := ByteWidth(valueWidth) <= byteWidth;
    if fits {
      var x := Copied(bits, size, behind, byteWidth);
      forall i | 0 <= i < |x| {
        b[dest + i] := x[i];
      }
    }
  }

  /** Of 64 bits: nothing but the value is copied. */
  method Mutate64(b: array<byte>, dest: int, bits: nat, byteWidth: nat, valueWidth: BitWidth) returns (fits: bool)
    requires 0 <= dest && dest + byteWidth <= b.Length && byteWidth <= 8
    modifies b
    ensures fits <==> ByteWidth(valueWidth) <= byteWidth
    ensures b[..] == if fits then Overwritten(old(b[..]), dest, LE(bits, byteWidth)) else old(b[..])
  {
    WideCopy(bits, 8, [], byteWidth);
    fits := Mutate(b, dest, bits, 8, [], byteWidth, valueWidth);
  }

  /** MutateInt: it succeeds if and only if the element is an integer and the new value needs no more room
      than it has; then the element reads as the new value, and nothing else in the buffer has changed. */
  method MutateInt(b: array<byte>, r: Ref, i: int, ghost p: Place) returns (ok: bool)
    requires IsInt64(i) && (IsMutable(r.ty) ==> StoredAt(b[..], r, p))
    modifies b
    ensures ok <==> IsMutable(r.ty) && MutatedWidth(r.ty, i) <= p.w
    ensures ok ==> Reads(b[..], r, MutatedTree(r.ty, i))
    ensures ok ==> b[..] == Overwritten(old(b[..]), p.at, LE(Bits64(i), ByteWidth(p.w)))
    ensures !ok ==> b[..] == old(b[..])
  {
    hide Reads, U, LE, Overwritten;
    ghost var before := b[..];
    if r.ty == FBT_INT {
      ok := Mutate64(b, r.data, Bits64(i), r.parent, WidthI(i));
    } else if r.ty == FBT_INDIRECT_INT {
      ok := Mutate64(b, Indirect(b[..], r.data, r.parent).value, Bits64(i), r.width, WidthI(i));
    } else if r.ty == FBT_UINT {
      ok := Mutate64(b, r.data, Bits64(i), r.parent, WidthU(Bits64(i)));
    } else if r.ty == FBT_INDIRECT_UINT {
      ok := Mutate64(b, Indirect(b[..], r.data, r.parent).value, Bits64(i), r.width, WidthU(Bits64(i)));
    } else {
      ok := false;
    }
    if ok {
      MutatedReads(before, r, i, p, b[..]);
    }
  }

  /** MutateUInt: the same, with the value as the signed integer of the same bits. */
  method MutateUInt(b: array<byte>, r: Ref, u: nat, ghost p: Place) returns (ok: bool)
    requires IsUInt64(u) && (IsMutable(r.ty) ==> StoredAt(b[..], r, p))
    modifies b
    ensures IsInt64(Signed(u, 8)) && Bits64(Signed(u, 8)) == u
    ensures ok <==> IsMutable(r.ty) && MutatedWidth(r.ty, Signed(u, 8)) <= p.w
    ensures ok ==> Reads(b[..], r, MutatedTree(r.ty, Signed(u, 8)))
    ensures ok ==> b[..] == Overwritten(old(b[..]), p.at, LE(u, ByteWidth(p.w)))
    ensures !ok ==> b[..] == old(b[..])
  {
    hide Reads, U, LE, Overwritten;
    SameBits(u);
    ghost var before := b[..];
    if r.ty == FBT_UINT {
      ok := Mutate64(b, r.data, u, r.parent, WidthU(u));
    } else if r.ty == FBT_INDIRECT_UINT {
      ok := Mutate64(b, Indirect(b[..], r.data, r.parent).value, u, r.width, WidthU(u));
    } else if r.ty == FBT_INT {
      ok := Mutate64(b, r.data, u, r.parent, WidthI(Signed(u, 8)));
    } else if r.ty == FBT_INDIRECT_INT {
      ok := Mutate64(b, Indirect(b[..], r.data, r.parent).value, u, r.width, WidthI(Signed(u, 8)));
    } else {
      ok := false;
    }
    if ok {
      MutatedReads(before, r, Signed(u, 8), p, b[..]);
    }
  }

  lemma {:induction false} SameBits(u: nat)
    requires IsUInt64(u)
    ensures IsInt64(Signed(u, 8)) && Bits64(Signed(u, 8)) == u
  {
    assert Pow256(8) == 0x1_0000_0000_0000_0000;
  }

  /** The bytes of a boolean, and how many of them there are. */
  function BoolBits(v: bool): nat
  {
    if v then 1 else 0
  }

  /** The buffer after a boolean in `n` bytes at `at` was set: one byte of `v`, the others from behind it. */
  function BoolSet(b: seq<byte>, at: int, n: nat, v: bool, behind: seq<byte>): (r: seq<byte>)
    requires 0 <= at && at + n <= |b| && n <= 1 + |behind|
    ensures |r| == |b|
  {
    Overwritten(b, at, Copied(BoolBits(v), 1, behind, n))
  }

  /** MutateBool: a boolean is one byte, but as many bytes are copied as the elements of the vector around it
      have. It reads as the new value if and only if that is true, or no other byte than 0 came along. */
  method MutateBool(b: array<byte>, r: Ref, v: bool, behind: seq<byte>, ghost p: Place) returns (ok: bool)
    requires r.ty == FBT_BOOL ==> StoredAt(b[..], r, p) && r.parent <= 1 + |behind|
    modifies b
    ensures ok <==> r.ty == FBT_BOOL
    ensures ok ==> b[..] == BoolSet(old(b[..]), r.data, r.parent, v, behind)
    ensures ok ==> (Reads(b[..], r, Bool(v)) <==> v || AllZero(behind[..r.parent - 1]))
    ensures !ok ==> b[..] == old(b[..])
  {
    hide U, LE, Overwritten, Copied;
    ghost var before := b[..];
    if r.ty != FBT_BOOL {
      return false;
    }
    ok := Mutate(b, r.data, BoolBits(v), 1, behind, r.parent, 0);
    BoolReads(before, r, v, behind, p);
  }

  predicate AllZero(s: seq<byte>)
  {
    forall i :: 0 <= i < |s| ==> s[i] == 0
  }

  lemma {:induction false} ZeroIff(s: seq<byte>)
    ensures FromLE(s) == 0 <==> AllZero(s)
  {
    if s != [] {
      ZeroIff(s[1..]);
      ZeroFirst(s);
    }
  }

  lemma {:induction false} ZeroFirst(s: seq<byte>)
    requires s != []
    ensures AllZero(s) <==> s[0] == 0 && AllZero(s[1..])
  {
    if s[0] == 0 && AllZero(s[1..]) {
      forall i | 0 <= i < |s|
        ensures s[i] == 0
      {
        assert i > 0 ==> s[i] == s[1..][i - 1];
      }
    }
  }

  lemma {:induction false} BoolCopied(v: bool, behind: seq<byte>, n: nat)
    requires 1 <= n <= 1 + |behind|
    ensures Copied(BoolBits(v), 1, behind, n) == [BoolBits(v) as byte] + behind[..n - 1]
    ensures AllZero(Copied(BoolBits(v), 1, behind, n)) <==> !v && AllZero(behind[..n - 1])
  {
    assert LE(BoolBits(v), 1) == [BoolBits(v) as byte] + LE(0, 0);
    var x := Copied(BoolBits(v), 1, behind, n);
    assert x == [BoolBits(v) as byte] + behind[..n - 1];
    assert x[1..] == behind[..n - 1];
    ZeroFirst(x);
  }

  lemma {:induction false} BoolReads(b: seq<byte>, r: Ref, v: bool, behind: seq<byte>, p: Place)
    requires r.ty == FBT_BOOL && StoredAt(b, r, p) && r.parent <= 1 + |behind|
    ensures Reads(BoolSet(b, r.data, r.parent, v, behind), r, Bool(v)) <==> v || AllZero(behind[..r.parent - 1])
  {
    hide Copied;
    var x, b' := Copied(BoolBits(v), 1, behind, r.parent), BoolSet(b, r.data, r.parent, v, behind);
    assert b'[r.data..r.data + r.parent] == x;
    BoolCopied(v, behind, r.parent);
    ZeroIff(x);
  }

  /** Whatever lies behind the value, the element reads as it if and only if it is true or one byte wide. */
  lemma {:induction false} MutateBoolReadsIff(b: seq<byte>, r: Ref, v: bool, p: Place)
    requires r.ty == FBT_BOOL && StoredAt(b, r, p)
    ensures (forall behind: seq<byte> :: |behind| == 7 ==>
               Reads(BoolSet(b, r.data, r.parent, v, behind), r, Bool(v)))
       <==> v || r.parent == 1
  {
    hide Reads, BoolSet, AllZero;
    forall behind: seq<byte> | |behind| == 7
      ensures Reads(BoolSet(b, r.data, r.parent, v, behind), r, Bool(v)) <==> v || AllZero(behind[..r.parent - 1])
    {
      BoolReads(b, r, v, behind, p);
    }
    var ones: seq<byte> := [1, 1, 1, 1, 1, 1, 1];
    assert |ones| == 7;
    OnesNotZero(ones, r.parent - 1);
  }

  lemma {:induction false} OnesNotZero(s: seq<byte>, n: nat)
    requires n <= |s| && forall i :: 0 <= i < |s| ==> s[i] == 1
    ensures AllZero(s[..n]) <==> n == 0
  {
    if n > 0 {
      assert s[..n][0] == 1;
    }
  }

  /** And the element gets the bytes of the value, whatever lies behind it, if and only if it is one byte wide. */
  lemma {:induction false} MutateBoolWritesIff(b: seq<byte>, r: Ref, v: bool, p: Place)
    requires r.ty == FBT_BOOL && StoredAt(b, r, p)
    ensures (forall behind: seq<byte> :: |behind| == 7 ==>
               BoolSet(b, r.data, r.parent, v, behind) == Overwritten(b, r.data, LE(BoolBits(v), r.parent)))
       <==> r.parent == 1
  {
    hide LE, Copied;
    if r.parent == 1 {
      forall behind: seq<byte> | |behind| == 7
        ensures BoolSet(b, r.data, r.parent, v, behind) == Overwritten(b, r.data, LE(BoolBits(v), r.parent))
      {
        WideCopy(BoolBits(v), 1, behind, 1);
      }
    } else {
      var ones: seq<byte> := [1, 1, 1, 1, 1, 1, 1];
      BoolCopied(v, ones, r.parent);
      SecondByte(v, r.parent);
      assert |ones| == 7;
      var x, y := BoolSet(b, r.data, r.parent, v, ones), Overwritten(b, r.data, LE(BoolBits(v), r.parent));
      assert x[r.data + 1] == 1 && y[r.data + 1] == 0;
    }
  }

  lemma {:induction false} SecondByte(v: bool, n: nat)
    requires n >= 2
    ensures LE(BoolBits(v), n)[1] == 0
  {
    assert LE(BoolBits(v), n) == [BoolBits(v) as byte] + ([0 as byte] + LE(0, n - 2));
  }

  /** The vector [true, 300], two bytes an element: after MutateBool(false) its first element can read as true. */
  lemma {:induction false} MutateBoolExample()
    ensures var b: seq<byte> := [2, 0, 1, 0, 44, 1]; var r := Ref(2, 2, 1, FBT_BOOL);
      Reads(b, r, Bool(true)) && Reads(BoolSet(b, 2, 2, false, [7]), r, Bool(true))
  {
    var b: seq<byte> := [2, 0, 1, 0, 44, 1];
    BoolCopied(false, [7], 2);
    var b' := BoolSet(b, 2, 2, false, [7]);
    assert b[2..4] == [1, 0] && b'[2..4] == [0, 7];
    ZeroIff([1, 0]);
    ZeroIff([0, 7]);
    assert !AllZero([1, 0]) by { assert [1 as byte, 0][0] == 1; }
    assert !AllZero([0, 7]) by { assert [0 as byte, 7][1] == 7; }
  }

  lemma {:induction false} MutatedReads(b: seq<byte>, r: Ref, i: int, p: Place, b': seq<byte>)
    requires IsInt64(i) && IsMutable(r.ty) && StoredAt(b, r, p) && MutatedWidth(r.ty, i) <= p.w
    requires b' == Overwritten(b, p.at, LE(Bits64(i), ByteWidth(p.w)))
    ensures Reads(b', r, MutatedTree(r.ty, i))
  {
    hide LE, U, Overwritten;
    var x := LE(Bits64(i), ByteWidth(p.w));
    if r.ty == FBT_INT || r.ty == FBT_INDIRECT_INT {
      IntReads(b, p.at, i, p.w);
    } else {
      UIntReads(b, p.at, Bits64(i), p.w);
    }
    if r.ty == FBT_INDIRECT_INT || r.ty == FBT_INDIRECT_UINT {
      OverwrittenElsewhere(b, p.at, x, r.data, r.parent);
    }
  }

  /** MutateString, of a string of the same length only: its size is left as it is. */
  method MutateString(b: array<byte>, r: Ref, s: seq<byte>, ghost at: int) returns (ok: bool)
    requires r.ty == FBT_STRING ==> Indirect(b[..], r.data, r.parent) == Some(at) && StringAt(b[..], at, r.width).Some?
    modifies b
    ensures ok <==> r.ty == FBT_STRING && |s| == |StringAt(old(b[..]), at, r.width).value|
    ensures if ok then StringAt(b[..], at, r.width) == Some(s) && at + |s| <= b.Length
                       && b[..] == Overwritten(old(b[..]), at, s)
            else b[..] == old(b[..])
  {
    hide U;
    ghost var before := b[..];
    if r.ty != FBT_STRING {
      return false;
    }
    var p, n := Indirect(b[..], r.data, r.parent).value, r.width;
    if SizeAt(b[..], p, n).value != |s| {
      return false;
    }
    forall i | 0 <= i < |s| {
      b[p + i] := s[i];
    }
    assert b[..] == Overwritten(before, p, s);
    OverwrittenElsewhere(before, p, s, p - n, n);
    assert b[..][p..p + |s|] == s;
    assert b[..][p + |s|] == before[p + |s|];
    return true;
  }
}
