/** The FlexBuffers readers. Offsets point backwards; a read outside the buffer yields `None`. */
module FlexReader {
  import opened Bytes
  import opened StringOrder
  import opened FlexWidth

  const FBT_NULL: nat := 0
  const FBT_INT: nat := 1
  const FBT_UINT: nat := 2
  const FBT_FLOAT: nat := 3
  const FBT_KEY: nat := 4
  const FBT_STRING: nat := 5
  const FBT_INDIRECT_INT: nat := 6
  const FBT_INDIRECT_UINT: nat := 7
  const FBT_MAP: nat := 9
  const FBT_VECTOR: nat := 10
  const FBT_VECTOR_INT: nat := 11
  const FBT_VECTOR_KEY: nat := 14
  const FBT_VECTOR_STRING: nat := 15
  const FBT_VECTOR_INT2: nat := 16
  const FBT_VECTOR_FLOAT4: nat := 24
  const FBT_BLOB: nat := 25
  const FBT_BOOL: nat := 26
  const FBT_VECTOR_BOOL: nat := 36

  predicate IsInline(t: nat)
  {
    t <= FBT_FLOAT || t == FBT_BOOL
  }

  predicate IsTypedVectorElementType(t: nat)
  {
    FBT_INT <= t <= FBT_STRING || t == FBT_BOOL
  }

  predicate IsTypedVector(t: nat)
  {
    FBT_VECTOR_INT <= t <= FBT_VECTOR_STRING || t == FBT_VECTOR_BOOL
  }

  predicate IsFixedTypedVector(t: nat)
  {
    FBT_VECTOR_INT2 <= t <= FBT_VECTOR_FLOAT4
  }

  /** The type of a vector whose elements are all of type `t`, of `fixed` elements if that is not 0. */
  function ToTypedVector(t: nat, fixed: nat): nat
    requires IsTypedVectorElementType(t) && (fixed == 0 || 2 <= fixed <= 4)
  {
    if fixed == 0 then t - FBT_INT + FBT_VECTOR_INT
    else t - FBT_INT + FBT_VECTOR_INT2 + 3 * (fixed - 2)
  }

  function ToTypedVectorElementType(t: nat): nat
    requires IsTypedVector(t)
  {
    t - FBT_VECTOR_INT + FBT_INT
  }

  /** The element type of a tuple, and its length. */
  function ToFixedTypedVectorElementType(t: nat): (nat, nat)
    requires IsFixedTypedVector(t)
  {
    ((t - FBT_VECTOR_INT2) % 3 + FBT_INT, (t - FBT_VECTOR_INT2) / 3 + 2)
  }

  lemma {:induction false} TypedVectorTypeRoundTrip(t: nat)
    requires IsTypedVectorElementType(t)
    ensures IsTypedVector(ToTypedVector(t, 0)) && ToTypedVectorElementType(ToTypedVector(t, 0)) == t
    ensures !IsInline(ToTypedVector(t, 0))
  {
  }

  /** The type of a tuple gives back the element type and the length for numbers only: the builder
      accepts tuples of keys, strings and booleans, whose type then is that of something else. */
  lemma {:induction false} FixedTypeRoundTripIffNumbers(t: nat, len: nat)
    requires IsTypedVectorElementType(t) && 2 <= len <= 4
    ensures (IsFixedTypedVector(ToTypedVector(t, len))
             && ToFixedTypedVectorElementType(ToTypedVector(t, len)) == (t, len))
       <==> t <= FBT_FLOAT
  {
    var x := ToTypedVector(t, len) - FBT_VECTOR_INT2;
    assert x == (t - FBT_INT) + 3 * (len - 2);
    if t <= FBT_FLOAT {
      assert x / 3 == len - 2 && x % 3 == t - FBT_INT;
    }
  }

  /** A pair of keys has the type of a triple of integers. */
  lemma {:induction false} PairOfKeysExample()
    ensures ToTypedVector(FBT_KEY, 2) == ToTypedVector(FBT_INT, 3)
    ensures ToFixedTypedVectorElementType(ToTypedVector(FBT_KEY, 2)) == (FBT_INT, 3)
  {
  }

  function PackedType(w: BitWidth, t: nat): nat
  {
    w + 4 * t
  }

  /** A Reference: where the element is stored, the width of its parent's elements, its own width in
      bytes, and its type. */
  datatype Ref = Ref(data: int, parent: nat, width: nat, ty: nat)

  function RefOfPacked(data: int, parent: nat, packed: byte): Ref
  {
    Ref(data, parent, ByteWidth(packed % 4), packed / 4)
  }

  const NULL_REF := Ref(0, 1, 1, FBT_NULL)

  function ReadInt(b: seq<byte>, i: int, n: nat): Option<int>
  {
    var v :- U(b, i, n);
    Some(Signed(v, n))
  }

  /** Indirect: subtract the stored offset from where it is stored. */
  function Indirect(b: seq<byte>, i: int, n: nat): Option<int>
  {
    var v :- U(b, i, n);
    Some(i - v)
  }

  function AsBool(b: seq<byte>, r: Ref): Option<bool>
  {
    var v :- U(b, r.data, r.parent);
    Some(v != 0)
  }

  function AsInt64(b: seq<byte>, r: Ref): Option<int>
  {
    if r.ty == FBT_INT then ReadInt(b, r.data, r.parent)
    else if r.ty == FBT_INDIRECT_INT then
      var p :- Indirect(b, r.data, r.parent);
      ReadInt(b, p, r.width)
    else None
  }

  function AsUInt64(b: seq<byte>, r: Ref): Option<nat>
  {
    if r.ty == FBT_UINT then U(b, r.data, r.parent)
    else if r.ty == FBT_INDIRECT_UINT then
      var p :- Indirect(b, r.data, r.parent);
      U(b, p, r.width)
    else None
  }

  /** The bytes from `i` up to, not including, the next NUL. */
  function CString(b: seq<byte>, i: int): Option<seq<byte>>
    decreases |b| - i
  {
    if i < 0 || i >= |b| then None
    else if b[i] == 0 then Some([])
    else
      var s :- CString(b, i + 1);
      Some([b[i]] + s)
  }

  /** Sized: the size is stored in front of the data. */
  function SizeAt(b: seq<byte>, p: int, n: nat): Option<nat>
  {
    U(b, p - n, n)
  }

  function BlobAt(b: seq<byte>, p: int, n: nat): Option<seq<byte>>
  {
    var size :- SizeAt(b, p, n);
    if 0 <= p && p + size <= |b| then Some(b[p..p + size]) else None
  }

  /** String::str, with the terminator String::c_str relies on. */
  function StringAt(b: seq<byte>, p: int, n: nat): Option<seq<byte>>
  {
    var s :- BlobAt(b, p, n);
    if p + |s| < |b| && b[p + |s|] == 0 then Some(s) else None
  }

  /** Vector::operator[]: elements of `n` bytes, followed by a byte of packed type for each. */
  function VectorAt(b: seq<byte>, p: int, n: nat, i: nat): Option<Ref>
  {
    var size :- SizeAt(b, p, n);
    if i >= size then Some(NULL_REF)
    else
      var packed :- U(b, p + size * n + i, 1);
      Some(RefOfPacked(p + i * n, n, packed % 0x100))
  }

  /** TypedVector::operator[]: the type is that of the vector, the width of what an element points to is
      taken to be 1. */
  function TypedVectorAt(b: seq<byte>, p: int, n: nat, ty: nat, i: nat): Option<Ref>
  {
    var size :- SizeAt(b, p, n);
    if i >= size then Some(NULL_REF) else Some(Ref(p + i * n, n, 1, ty))
  }

  function FixedTypedVectorAt(p: int, n: nat, ty: nat, size: nat, i: nat): Ref
  {
    if i >= size then NULL_REF else Ref(p + i * n, n, 1, ty)
  }

  /** Map::Keys: in front of the size there are an offset to the key vector and its element width. */
  datatype KeyVector = KeyVector(p: int, n: nat)

  function KeysOf(b: seq<byte>, p: int, n: nat): Option<KeyVector>
  {
    var kp :- Indirect(b, p - 3 * n, n);
    var kn :- U(b, p - 2 * n, n);
    Some(KeyVector(kp, kn % 0x100))
  }

  /** Key `i` of a key vector, through its offset. */
  function KeyAt(b: seq<byte>, k: KeyVector, i: nat): Option<seq<byte>>
  {
    var p :- Indirect(b, k.p + i * k.n, k.n);
    CString(b, p)
  }

  /** GetRoot: the buffer ends with the root, its packed type and its byte width. */
  function GetRoot(b: seq<byte>): Option<Ref>
  {
    if |b| < 2 then None
    else Some(RefOfPacked(|b| - 2 - b[|b| - 1], b[|b| - 1], b[|b| - 2]))
  }

  // ---------------------------------------------------------------------------------------------
  // Trees

  datatype Entry = Entry(key: seq<byte>, val: Tree)

  datatype Tree =
    | Null
    | Bool(v: bool)
    | Int(i: int)
    | UInt(u: nat)
    | IndirectInt(i: int)
    | IndirectUInt(u: nat)
    | Key(s: seq<byte>)
    | String(s: seq<byte>)
    | Blob(s: seq<byte>)
    | Vector(ts: seq<Tree>)
    | TypedVector(elem: nat, ts: seq<Tree>)
    | FixedVector(elem: nat, ts: seq<Tree>)
    | Map(es: seq<Entry>)

  /** Navigating from `r` by the accessors yields exactly `t`. */
  ghost predicate Reads(b: seq<byte>, r: Ref, t: Tree)
    decreases t, 1
  {
    match t
    case Null => r.ty == FBT_NULL
    case Bool(v) => r.ty == FBT_BOOL && AsBool(b, r) == Some(v)
    case Int(i) => r.ty == FBT_INT && AsInt64(b, r) == Some(i)
    case UInt(u) => r.ty == FBT_UINT && AsUInt64(b, r) == Some(u)
    case _ => Indirect(b, r.data, r.parent).Some? &&
              ReadsAt(b, Indirect(b, r.data, r.parent).value, r.width, r.ty, t)
  }

  /** What an offset element of type `ty` and width `n` points to, at `p`, reads as `t`. */
  ghost predicate ReadsAt(b: seq<byte>, p: int, n: nat, ty: nat, t: Tree)
    decreases t, 0
  {
    match t
    case IndirectInt(i) => ty == FBT_INDIRECT_INT && ReadInt(b, p, n) == Some(i)
    case IndirectUInt(u) => ty == FBT_INDIRECT_UINT && U(b, p, n) == Some(u)
    case Key(s) => ty == FBT_KEY && CString(b, p) == Some(s)
    case String(s) => ty == FBT_STRING && StringAt(b, p, n) == Some(s)
    case Blob(s) => ty == FBT_BLOB && BlobAt(b, p, n) == Some(s)
    case Vector(ts) =>
      && ty == FBT_VECTOR && SizeAt(b, p, n) == Some(|ts|)
      && forall i :: 0 <= i < |ts| ==>
           VectorAt(b, p, n, i).Some? && Reads(b, VectorAt(b, p, n, i).value, ts[i])
    case TypedVector(elem, ts) =>
      && IsTypedVector(ty) && elem == ToTypedVectorElementType(ty) && SizeAt(b, p, n) == Some(|ts|)
      && forall i :: 0 <= i < |ts| ==>
           TypedVectorAt(b, p, n, elem, i).Some? && Reads(b, TypedVectorAt(b, p, n, elem, i).value, ts[i])
    case FixedVector(elem, ts) =>
      && IsFixedTypedVector(ty) && ToFixedTypedVectorElementType(ty) == (elem, |ts|)
      && forall i :: 0 <= i < |ts| ==> Reads(b, FixedTypedVectorAt(p, n, elem, |ts|, i), ts[i])
    case Map(es) =>
      && ty == FBT_MAP && SizeAt(b, p, n) == Some(|es|)
      && KeysOf(b, p, n).Some?
      && var k := KeysOf(b, p, n).value;
      && SizeAt(b, k.p, k.n) == Some(|es|)
      && KeysSorted(b, k, |es|) && KeysFrom(b, k, es)
      && forall e :: 0 <= e < |es| ==> HasEntry(b, p, n, k, |es|, es[e])
    case _ => false
  }

  /** The map holds this entry, at some position. */
  ghost predicate HasEntry(b: seq<byte>, p: int, n: nat, k: KeyVector, size: nat, e: Entry)
    decreases e, 3
  {
    exists i :: 0 <= i < size && EntryReads(b, p, n, k, i, e)
  }

  /** Position `i` of a map holds this key and this value. */
  ghost predicate EntryReads(b: seq<byte>, p: int, n: nat, k: KeyVector, i: nat, e: Entry)
    decreases e, 2
  {
    && KeyAt(b, k, i) == Some(e.key)
    && VectorAt(b, p, n, i).Some? && Reads(b, VectorAt(b, p, n, i).value, e.val)
  }

  /** Every key of the map belongs to one of these entries. */
  ghost predicate KeysFrom(b: seq<byte>, k: KeyVector, es: seq<Entry>)
  {
    forall i :: 0 <= i < |es| ==> KeyIn(es, KeyAt(b, k, i))
  }

  predicate KeyIn(es: seq<Entry>, key: Option<seq<byte>>)
  {
    exists e :: 0 <= e < |es| && key == Some(es[e].key)
  }

  ghost predicate KeysSorted(b: seq<byte>, k: KeyVector, size: nat)
  {
    && (forall i :: 0 <= i < size ==> KeyAt(b, k, i).Some?)
    && (forall i, j :: 0 <= i < j < size ==> LexLess(KeyAt(b, k, i).value, KeyAt(b, k, j).value))
  }

  // ---------------------------------------------------------------------------------------------
  // The builder only appends, and what was read keeps its meaning.

  predicate IsPrefix(b: seq<byte>, b': seq<byte>)
  {
    |b| <= |b'| && b'[..|b|] == b
  }

  lemma {:induction false} UPrefix(b: seq<byte>, b': seq<byte>, i: int, n: nat)
    requires IsPrefix(b, b') && U(b, i, n).Some?
    ensures U(b', i, n) == U(b, i, n)
  {
    assert b' == b + b'[|b|..];
    UAppend(b, b'[|b|..], i, n);
  }

  lemma {:induction false} IndirectPrefix(b: seq<byte>, b': seq<byte>, i: int, n: nat)
    requires IsPrefix(b, b') && Indirect(b, i, n).Some?
    ensures Indirect(b', i, n) == Indirect(b, i, n)
  {
    hide U, IsPrefix;
    UPrefix(b, b', i, n);
  }

  lemma {:induction false} CStringPrefix(b: seq<byte>, b': seq<byte>, i: int)
    requires IsPrefix(b, b') && CString(b, i).Some?
    ensures CString(b', i) == CString(b, i)
    decreases |b| - i
  {
    assert b'[i] == b'[..|b|][i] == b[i];
    if b[i] != 0 {
      CStringPrefix(b, b', i + 1);
    }
  }

  lemma {:induction false} BlobPrefix(b: seq<byte>, b': seq<byte>, p: int, n: nat)
    requires IsPrefix(b, b') && BlobAt(b, p, n).Some?
    ensures BlobAt(b', p, n) == BlobAt(b, p, n)
    ensures StringAt(b, p, n).Some? ==> StringAt(b', p, n) == StringAt(b, p, n)
  {
    hide U;
    UPrefix(b, b', p - n, n);
    var size := U(b, p - n, n).value;
    assert b' == b + b'[|b|..];
    assert b'[p..p + size] == b[p..p + size];
  }

  lemma {:induction false} VectorAtPrefix(b: seq<byte>, b': seq<byte>, p: int, n: nat, i: nat)
    requires IsPrefix(b, b') && VectorAt(b, p, n, i).Some?
    ensures VectorAt(b', p, n, i) == VectorAt(b, p, n, i)
  {
    hide U, IsPrefix;
    UPrefix(b, b', p - n, n);
    var size := U(b, p - n, n).value;
    if i < size {
      UPrefix(b, b', p + size * n + i, 1);
    }
  }

  lemma {:induction false} KeyAtPrefix(b: seq<byte>, b': seq<byte>, k: KeyVector, i: nat)
    requires IsPrefix(b, b') && KeyAt(b, k, i).Some?
    ensures KeyAt(b', k, i) == KeyAt(b, k, i)
  {
    hide Indirect, IsPrefix, CString;
    IndirectPrefix(b, b', k.p + i * k.n, k.n);
    CStringPrefix(b, b', Indirect(b, k.p + i * k.n, k.n).value);
  }

  lemma {:induction false} ReadsPrefix(b: seq<byte>, b': seq<byte>, r: Ref, t: Tree)
    requires IsPrefix(b, b') && Reads(b, r, t)
    ensures Reads(b', r, t)
    decreases t, 1
  {
    hide U, IsPrefix, ReadsAt, Indirect;
    match t
    case Null =>
    case Bool(v) => UPrefix(b, b', r.data, r.parent);
    case Int(i) => UPrefix(b, b', r.data, r.parent);
    case UInt(u) => UPrefix(b, b', r.data, r.parent);
    case _ =>
      IndirectPrefix(b, b', r.data, r.parent);
      ReadsAtPrefix(b, b', Indirect(b, r.data, r.parent).value, r.width, r.ty, t);
  }

  lemma {:induction false} ReadsAtPrefix(b: seq<byte>, b': seq<byte>, p: int, n: nat, ty: nat, t: Tree)
    requires IsPrefix(b, b') && ReadsAt(b, p, n, ty, t)
    ensures ReadsAt(b', p, n, ty, t)
    decreases t, 0
  {
    hide U, IsPrefix, Reads, BlobAt, StringAt, CString, VectorAt, KeysOf, EntryReads, KeysSorted, KeysFrom;
    match t
    case IndirectInt(i) => UPrefix(b, b', p, n);
    case IndirectUInt(u) => UPrefix(b, b', p, n);
    case Key(s) => CStringPrefix(b, b', p);
    case String(s) =>
      StringHasBlob(b, p, n);
      BlobPrefix(b, b', p, n);
    case Blob(s) => BlobPrefix(b, b', p, n);
    case Vector(ts) =>
      UPrefix(b, b', p - n, n);
      forall i | 0 <= i < |ts|
        ensures VectorAt(b', p, n, i).Some? && Reads(b', VectorAt(b', p, n, i).value, ts[i])
      {
        VectorAtPrefix(b, b', p, n, i);
        ReadsPrefix(b, b', VectorAt(b, p, n, i).value, ts[i]);
      }
    case TypedVector(elem, ts) =>
      UPrefix(b, b', p - n, n);
      forall i | 0 <= i < |ts|
        ensures TypedVectorAt(b', p, n, elem, i) == TypedVectorAt(b, p, n, elem, i)
        ensures Reads(b', TypedVectorAt(b', p, n, elem, i).value, ts[i])
      {
        ReadsPrefix(b, b', TypedVectorAt(b, p, n, elem, i).value, ts[i]);
      }
    case FixedVector(elem, ts) =>
      forall i | 0 <= i < |ts|
        ensures Reads(b', FixedTypedVectorAt(p, n, elem, |ts|, i), ts[i])
      {
        ReadsPrefix(b, b', FixedTypedVectorAt(p, n, elem, |ts|, i), ts[i]);
      }
    case Map(es) =>
      UPrefix(b, b', p - n, n);
      KeysPrefix(b, b', p, n, es);
      var k := KeysOf(b, p, n).value;
      UPrefix(b, b', k.p - k.n, k.n);
      forall e | 0 <= e < |es|
        ensures HasEntry(b', p, n, k, |es|, es[e])
      {
        assert HasEntry(b, p, n, k, |es|, es[e]);
        var i :| 0 <= i < |es| && EntryReads(b, p, n, k, i, es[e]);
        EntryPrefix(b, b', p, n, k, i, es[e]);
      }
  }

  lemma {:induction false} StringHasBlob(b: seq<byte>, p: int, n: nat)
    requires StringAt(b, p, n).Some?
    ensures BlobAt(b, p, n) == StringAt(b, p, n)
  {
  }

  lemma {:induction false} KeysPrefix(b: seq<byte>, b': seq<byte>, p: int, n: nat, es: seq<Entry>)
    requires IsPrefix(b, b') && KeysOf(b, p, n).Some?
    requires KeysSorted(b, KeysOf(b, p, n).value, |es|) && KeysFrom(b, KeysOf(b, p, n).value, es)
    ensures KeysOf(b', p, n) == KeysOf(b, p, n)
    ensures KeysSorted(b', KeysOf(b, p, n).value, |es|) && KeysFrom(b', KeysOf(b, p, n).value, es)
  {
    hide U, IsPrefix, KeyAt, LexLess, KeyIn;
    UPrefix(b, b', p - 3 * n, n);
    UPrefix(b, b', p - 2 * n, n);
    forall i | 0 <= i < |es|
      ensures KeyAt(b', KeysOf(b, p, n).value, i) == KeyAt(b, KeysOf(b, p, n).value, i)
    {
      KeyAtPrefix(b, b', KeysOf(b, p, n).value, i);
    }
    assert KeysFrom(b', KeysOf(b, p, n).value, es);
  }

  lemma {:induction false} EntryPrefix(
      b: seq<byte>, b': seq<byte>, p: int, n: nat, k: KeyVector, i: nat, e: Entry)
    requires IsPrefix(b, b') && EntryReads(b, p, n, k, i, e)
    ensures EntryReads(b', p, n, k, i, e)
    decreases e, 2
  {
    hide IsPrefix, KeyAt, VectorAt, Reads;
    KeyAtPrefix(b, b', k, i);
    VectorAtPrefix(b, b', p, n, i);
    ReadsPrefix(b, b', VectorAt(b, p, n, i).value, e.val);
  }
}
