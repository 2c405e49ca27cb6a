/** The bytes a FlexBuffers Builder appends, as functions on values. */
module FlexLayout {
  import opened Bytes
  import opened FlexWidth
  import opened FlexReader

  type FlexType = t: nat | t < 64

  /** An element on the builder's stack: a scalar, or the position of something in the buffer. Its
      width is that of the scalar, of the size of a string or blob, or of a vector's elements. */
  datatype Value = Value(u: int, ty: FlexType, minWidth: BitWidth)

  /** Its position, if it has one, is inside the buffer. */
  predicate Placed(v: Value, size: nat)
  {
    !IsInline(v.ty) ==> 0 <= v.u <= size
  }

  predicate AllPlaced(vs: seq<Value>, size: nat)
  {
    forall i :: 0 <= i < |vs| ==> Placed(vs[i], size)
  }

  function MaxW(a: BitWidth, b: BitWidth): BitWidth
  {
    if a > b then a else b
  }

  function Align(b: seq<byte>, w: BitWidth): seq<byte>
  {
    b + Zeros(PaddingBytes(|b|, ByteWidth(w)))
  }

  /** The 64 bits of a number; writing takes as many low bytes as the width asks for. */
  function Bits64(x: int): (v: nat)
    requires -0x8000_0000_0000_0000 <= x
  {
    if x >= 0 then x else x + 0x1_0000_0000_0000_0000
  }

  function Write(b: seq<byte>, x: int, n: nat): seq<byte>
    requires -0x8000_0000_0000_0000 <= x
  {
    b + LE(Bits64(x), n)
  }

  function WriteOffset(b: seq<byte>, o: nat, n: nat): seq<byte>
    requires o <= |b|
  {
    b + LE(|b| - o, n)
  }

  predicate Writable(v: Value, size: nat)
  {
    Placed(v, size) && -0x8000_0000_0000_0000 <= v.u
  }

  function WriteAny(b: seq<byte>, v: Value, n: nat): (r: seq<byte>)
    requires Writable(v, |b|)
    ensures |r| == |b| + n
  {
    if IsInline(v.ty) then Write(b, v.u, n) else WriteOffset(b, v.u, n)
  }

  /** Value::ElemWidth. */
  function ElemWidthOf(v: Value, size: nat, index: nat): BitWidth
    requires Placed(v, size) && Addressable(size, index)
  {
    if IsInline(v.ty) then v.minWidth else LeastFit(size, v.u, index, 0)
  }

  /** Value::StoredWidth. */
  function StoredWidth(v: Value, parent: BitWidth): BitWidth
  {
    if IsInline(v.ty) then MaxW(v.minWidth, parent) else v.minWidth
  }

  function StoredPackedType(v: Value, parent: BitWidth): byte
  {
    PackedType(StoredWidth(v, parent), v.ty)
  }

  /** The widest of the elements, the first of which has the index `index`. */
  function MaxWidth(vs: seq<Value>, size: nat, index: nat, step: nat): BitWidth
    requires AllPlaced(vs, size) && Addressable(size, index + step * |vs|)
  {
    if vs == [] then 0
    else
      assert step * |vs| == step + step * (|vs| - 1);
      assert Addressable(size, index);
      assert forall i :: 0 <= i < |vs| - 1 ==> vs[1..][i] == vs[i + 1];
      MaxW(ElemWidthOf(vs[0], size, index), MaxWidth(vs[1..], size, index + step, step))
  }

  predicate AllWritable(vs: seq<Value>, size: nat)
  {
    forall i :: 0 <= i < |vs| ==> Writable(vs[i], size)
  }

  lemma {:induction false} AllWritableTail(vs: seq<Value>, size: nat, size': nat)
    requires AllWritable(vs, size) && vs != [] && size <= size'
    ensures AllWritable(vs[1..], size')
  {
    forall i | 0 <= i < |vs[1..]|
      ensures Writable(vs[1..][i], size')
    {
      assert vs[1..][i] == vs[i + 1] && Writable(vs[i + 1], size);
    }
  }

  function WriteElems(b: seq<byte>, vs: seq<Value>, n: nat): (r: seq<byte>)
    requires AllWritable(vs, |b|)
    ensures |r| == |b| + n * |vs|
    decreases |vs|
  {
    if vs == [] then b
    else
      assert n * |vs| == n + n * (|vs| - 1);
      var b1 := WriteAny(b, vs[0], n);
      AllWritableTail(vs, |b|, |b1|);
      WriteElems(b1, vs[1..], n)
  }

  function Types(vs: seq<Value>, w: BitWidth): (r: seq<byte>)
    ensures |r| == |vs|
  {
    seq(|vs|, i requires 0 <= i < |vs| => StoredPackedType(vs[i], w))
  }

  /** How a vector is written: untyped, with one type for all, or as a tuple without a size. */
  datatype Shape = Untyped | Typed | Fixed

  /** What a vector's elements are and how they are indexed when their widths are measured; a map's
      values bring the vector of its keys along. */
  datatype Elements = Elements(vs: seq<Value>, index: nat, step: nat, keys: Option<Value>)

  predicate ElementsOk(e: Elements, size: nat)
  {
    && AllPlaced(e.vs, size) && Addressable(size, e.index + e.step * |e.vs|)
    && AllWritable(e.vs, size)
    && (e.keys.Some? ==> Placed(e.keys.value, size) && !IsInline(e.keys.value.ty))
  }

  function VectorWidth(e: Elements, size: nat, force: BitWidth): BitWidth
    requires ElementsOk(e, size)
  {
    var w := MaxW(MaxW(force, WidthU(|e.vs|)), MaxWidth(e.vs, size, e.index, e.step));
    if e.keys.None? then w
    else
      assert Addressable(size, 0) by { assert e.step * |e.vs| >= 0; }
      MaxW(w, ElemWidthOf(e.keys.value, size, 0))
  }

  /** The type of the elements of a typed vector; one without elements counts as a vector of keys. */
  function ElementType(vs: seq<Value>): FlexType
  {
    if vs == [] then FBT_KEY else vs[0].ty
  }

  /** Everything in front of the first element. */
  function VectorHead(b: seq<byte>, e: Elements, shape: Shape, w: BitWidth): (r: seq<byte>)
    requires ElementsOk(e, |b|)
    ensures |b| <= |r|
  {
    var n := ByteWidth(w);
    var b1 := Align(b, w);
    var b2 := if e.keys.None? then b1
              else Write(WriteOffset(b1, e.keys.value.u, n), ByteWidth(e.keys.value.minWidth), n);
    if shape == Fixed then b2 else Write(b2, |e.vs|, n)
  }

  /** CreateVector. */
  function CreateVector(b: seq<byte>, e: Elements, shape: Shape, force: BitWidth)
    : (r: (seq<byte>, Value))
    requires ElementsOk(e, |b|)
    requires shape != Untyped ==> IsTypedVectorElementType(ElementType(e.vs))
    requires shape == Fixed ==> 2 <= |e.vs| <= 4
  {
    var w := VectorWidth(e, |b|, force);
    var head := VectorHead(b, e, shape, w);
    var elems := WriteElems(head, e.vs, ByteWidth(w));
    var all := if shape == Untyped then elems + Types(e.vs, w) else elems;
    var ty := if e.keys.Some? then FBT_MAP
              else if shape == Untyped then FBT_VECTOR
              else ToTypedVector(ElementType(e.vs), if shape == Fixed then |e.vs| else 0);
    (all, Value(|head|, ty, w))
  }

  /** CreateBlob: the size, then the bytes, then a terminator for a string. */
  function CreateBlob(b: seq<byte>, s: seq<byte>, trailing: seq<byte>, ty: FlexType)
    : (r: (seq<byte>, Value))
    ensures 0 <= r.1.u <= |r.0| && r.1.ty == ty
  {
    var w := WidthU(|s|);
    var b1 := Write(Align(b, w), |s|, ByteWidth(w));
    (b1 + s + trailing, Value(|b1|, ty, w))
  }

  /** PushIndirect. */
  function PushIndirect(b: seq<byte>, x: int, ty: FlexType, w: BitWidth): (r: (seq<byte>, Value))
    requires -0x8000_0000_0000_0000 <= x
  {
    var b1 := Align(b, w);
    (Write(b1, x, ByteWidth(w)), Value(|b1|, ty, w))
  }

  /** Finish: the root, its packed type and its byte width. */
  function Finish(b: seq<byte>, v: Value): seq<byte>
    requires Writable(v, |b|) && Addressable(|b|, 0)
  {
    var w := ElemWidthOf(v, |b|, 0);
    WriteAny(Align(b, w), v, ByteWidth(w)) + [StoredPackedType(v, 0)] + [ByteWidth(w)]
  }
}
