/** The type codes of the format as numbers, and where they are in a finished buffer. */
module FlexCodes {
  import opened Bytes
  import opened FlexWidth
  import opened FlexReader
  import opened FlexLayout
  import opened FlexDenote
  import opened FlexVector
  import opened FlexMachine
  import opened FlexRun
  import opened FlexRoundTrip
  import opened FlexTrees

  /** The code of the elements of a typed vector; one without elements counts as a vector of keys. */
  function ElementCode(ts: seq<Tree>): nat
  {
    if ts == [] then 4
    else match ts[0]
      case Int(_) => 1
      case UInt(_) => 2
      case Key(_) => 4
      case String(_) => 5
      case Bool(_) => 26
      case _ => 0
  }

  /** The code of a tree. */
  function Code(t: Tree): nat
  {
    match t
    case Null => 0
    case Int(_) => 1
    case UInt(_) => 2
    case Key(_) => 4
    case String(_) => 5
    case IndirectInt(_) => 6
    case IndirectUInt(_) => 7
    case Map(_) => 9
    case Vector(_) => 10
    case TypedVector(_, ts) =>
      (match ElementCode(ts)
       case 1 => 11
       case 2 => 12
       case 4 => 14
       case 5 => 15
       case _ => 36)
    case FixedVector(_, ts) =>
      (match |ts|
       case 2 => if ElementCode(ts) == 1 then 16 else 17
       case 3 => if ElementCode(ts) == 1 then 19 else 20
       case _ => if ElementCode(ts) == 1 then 22 else 23)
    case Blob(_) => 25
    case Bool(_) => 26
  }

  /** A typed vector has one of five element types, a tuple one of two and two to four elements. */
  predicate Shaped(t: Tree)
  {
    match t
    case TypedVector(elem, ts) => elem == ElementCode(ts) && elem in {1, 2, 4, 5, 26}
    case FixedVector(elem, ts) => elem == ElementCode(ts) && elem in {1, 2} && 2 <= |ts| <= 4
    case _ => true
  }

  predicate AllShaped(ts: seq<Tree>)
  {
    forall i :: 0 <= i < |ts| ==> Shaped(ts[i])
  }

  lemma {:induction false} VectorShaped(ts: seq<Tree>, shape: FlexLayout.Shape)
    requires LegalVector(ts, shape)
    ensures Shaped(ContainerOf(shape, ts))
  {
    hide ToTypedVector;
    assert TreesType(ts) == ElementCode(ts);
  }

  lemma {:induction false} RunShaped(a: Abs, flags: Flags, calls: seq<Call>)
    requires LegalRun(a, flags, calls) && AllShaped(a.trees)
    ensures AllShaped(AbsRun(a, flags, calls).trees)
    decreases |calls|
  {
    hide Legal, AbsStep, AllShaped;
    if calls != [] {
      StepShaped(a, flags, calls[0]);
      RunShaped(AbsStep(a, flags, calls[0]), flags, calls[1..]);
    }
  }

  lemma {:induction false} StepShaped(a: Abs, flags: Flags, call: Call)
    requires Legal(a, flags, call) && AllShaped(a.trees)
    ensures AllShaped(AbsStep(a, flags, call).trees)
  {
    hide LegalMap, LegalVector, Entries;
    match call
    case CallEndVector(start, shape) =>
      hide Shaped;
      VectorShaped(a.trees[start..], shape);
    case CallEndMap(start) =>
    case _ =>
  }

  lemma {:induction false} DenotedCode(b: seq<byte>, v: Value, t: Tree)
    requires Denotes(b, v, t) && Shaped(t)
    ensures v.ty == Code(t)
  {
    hide U, CString, BlobAt, StringAt, ReadInt, VectorAt, TypedVectorAt, FixedTypedVectorAt, SizeAt, KeysOf,
         KeysSorted, KeysFrom, HasEntry;
    match t
    case FixedVector(elem, ts) => TupleCode(v.ty, elem, |ts|);
    case _ =>
  }

  lemma {:induction false} TupleCode(ty: nat, elem: nat, len: nat)
    requires IsFixedTypedVector(ty) && ToFixedTypedVectorElementType(ty) == (elem, len)
    ensures ty == 15 + elem + 3 * (len - 2)
  {
    var x := ty - 16;
    assert x == 3 * (x / 3) + x % 3;
  }

  /** For every run: the byte before the last one of the finished buffer holds the code of the tree that
      was built, above two bits for a width. */
  lemma {:induction false} RootCode(flags: Flags, calls: seq<Call>, c: Conf, fin: seq<byte>)
    requires LegalRun(ABS_FRESH, flags, calls) && Run(Fresh(flags), calls) == Some(c)
    requires |c.stack| == 1 && Addressable(|c.buf|, 0) && Writable(c.stack[0], |c.buf|)
    requires fin == Finish(c.buf, c.stack[0])
    ensures |AbsRun(ABS_FRESH, flags, calls).trees| == 1 && |fin| >= 3
    ensures fin[|fin| - 2] / 4 == Code(AbsRun(ABS_FRESH, flags, calls).trees[0])
    ensures ScalarTree(AbsRun(ABS_FRESH, flags, calls).trees[0])
        ==> fin[|fin| - 1] == ByteWidth(fin[|fin| - 2] % 4)
    ensures RootAligned(fin)
  {
    hide Denotes, KeyPoolOk, StrPoolOk, AbsRun, Run, Exec, Code, Shaped;
    FreshInv(flags);
    RunInv(Fresh(flags), ABS_FRESH, calls, c);
    RunShaped(ABS_FRESH, flags, calls);
    var a := AbsRun(ABS_FRESH, flags, calls);
    assert Denotes(c.buf, c.stack[0], a.trees[0]);
    DenotedCode(c.buf, c.stack[0], a.trees[0]);
    DenotesAt(c.buf, c.stack[0], a.trees[0]);
    FinishCode(c.buf, c.stack[0], fin);
  }

  /** The last byte is 1, 2, 4 or 8; that many bytes before the type, on a multiple of it, is the root. */
  predicate RootAligned(fin: seq<byte>)
  {
    && |fin| >= 3 && fin[|fin| - 1] in {1, 2, 4, 8}
    && |fin| - 2 >= fin[|fin| - 1] && (|fin| - 2 - fin[|fin| - 1]) % fin[|fin| - 1] == 0
  }

  lemma {:induction false} FinishCode(b: seq<byte>, v: Value, fin: seq<byte>)
    requires Writable(v, |b|) && Addressable(|b|, 0) && fin == Finish(b, v)
    ensures |fin| >= 3 && fin[|fin| - 2] / 4 == v.ty
    ensures IsInline(v.ty) ==> fin[|fin| - 1] == ByteWidth(fin[|fin| - 2] % 4)
    ensures RootAligned(fin)
  {
    hide PaddingBytes, LeastFit, LE, Bits64;
    var w := ElemWidthOf(v, |b|, 0);
    var a := Align(b, w);
    assert Multiple(|a|, ByteWidth(w));
    assert |WriteAny(a, v, ByteWidth(w))| == |a| + ByteWidth(w);
  }

  /** The types behind the elements of a vector: a code each, with the width of the vector for what is
      stored in it, and its own width for what is stored elsewhere. */
  lemma {:induction false} TypeBytes(e: Elements, size: nat, force: BitWidth, w: BitWidth, i: nat)
    requires ElementsOk(e, size) && w == VectorWidth(e, size, force) && i < |e.vs|
    ensures Types(e.vs, w)[i] / 4 == e.vs[i].ty
    ensures Types(e.vs, w)[i] % 4 == if IsInline(e.vs[i].ty) then w else e.vs[i].minWidth
  {
    hide MaxWidth, ElementsOk, VectorWidth;
    VectorWidthCovers(e, size, force, w);
    AllPlacedOf(e, size);
    MaxWidthCovers(e.vs, size, e.index, e.step, i);
  }

  lemma {:induction false} AllPlacedOf(e: Elements, size: nat)
    requires ElementsOk(e, size)
    ensures AllPlaced(e.vs, size) && Addressable(size, e.index + e.step * |e.vs|)
  {
  }

  /** For every tree that can be built. */
  lemma {:induction false} TreeCode(flags: Flags, t: Tree, c: Conf)
    requires Buildable(t, flags) && Run(Fresh(flags), Build(t, 0)) == Some(c) && Addressable(|c.buf|, 0)
    ensures |c.stack| == 1 && Writable(c.stack[0], |c.buf|)
    ensures var fin := Finish(c.buf, c.stack[0]); |fin| >= 3 && fin[|fin| - 2] / 4 == Code(t)
  {
    hide Buildable, Build, Run, Reads, Finish, Writable, GetRoot, Inv, Code, LegalRun;
    var a := BuildLeads(ABS_FRESH, flags, t);
    TreeRoundTrip(flags, t, c);
    RootCode(flags, Build(t, 0), c, Finish(c.buf, c.stack[0]));
  }

  /** An indirect number takes the least width that holds it. */
  lemma {:induction false} IndirectWidth(c: Conf, call: Call, c': Conf, w: BitWidth)
    requires Exec(c, call) == Some(c') && (call.CallIndirectInt? || call.CallIndirectUInt?)
    ensures |c'.stack| == |c.stack| + 1
    ensures call.CallIndirectInt? ==>
      (FitsSigned(call.i, ByteWidth(w)) <==> c'.stack[|c.stack|].minWidth <= w)
    ensures call.CallIndirectUInt? && call.u < 0x1_0000_0000_0000_0000 ==>
      (call.u < Pow256(ByteWidth(w)) <==> c'.stack[|c.stack|].minWidth <= w)
  {
    hide WidthI, WidthU, LE, PaddingBytes, Bits64, FitsSigned;
    match call
    case CallIndirectInt(i) =>
      FitsEight(i);
      WidthIIsLeast(i, w);
    case CallIndirectUInt(u) =>
      if u < 0x1_0000_0000_0000_0000 {
        WidthUIsLeast(u, w);
      }
  }
}
