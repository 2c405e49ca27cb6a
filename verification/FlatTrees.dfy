/** The tree a root object stands for, and the proof that traversing the buffer yields that tree.

    Objects refer to each other by the order of their creation, so an object describes a tree as soon as a
    schema says which of its fields are followed. What a run has created is a graph without cycles; the
    same object may be a part of several trees. */
module FlatTrees {
  import opened Bytes
  import opened FlatReader
  import opened FlatSchema
  import opened FlatObjects

  /** The objects reachable from `h` are of the shape the schema prescribes. */
  predicate FitsTarget(sch: Schema, objs: seq<Obj>, ty: FieldType, h: nat)
    decreases h, 1
  {
    && h < |objs|
    && match ty
       case Scalar(n, def) => false
       case Str => objs[h].OStr?
       case ScalarVec(n) => objs[h].OScalars? && objs[h].n == n
       case StrVec =>
         objs[h].ORefs? && forall k :: 0 <= k < |objs[h].hs| ==>
           objs[h].hs[k] < h && objs[objs[h].hs[k]].OStr?
       case Table(ti) =>
         objs[h].OTable? && forall k :: 0 <= k < |FieldsOf(sch, ti)| ==>
           FitsField(sch, objs, FieldsOf(sch, ti)[k], h)
       case TableVec(ti) =>
         objs[h].ORefs? && forall k :: 0 <= k < |objs[h].hs| ==>
           objs[h].hs[k] < h && FitsTarget(sch, objs, Table(ti), objs[h].hs[k])
  }

  predicate FitsField(sch: Schema, objs: seq<Obj>, f: Field, h: nat)
    decreases h, 0
  {
    && h < |objs| && objs[h].OTable?
    && if f.id !in objs[h].fields then !f.required
       else
         match objs[h].fields[f.id]
         case Sc(n, v, def) => f.ty == Scalar(n, def)
         case Ref(g) => g < h && FitsTarget(sch, objs, f.ty, g)
  }

  function TreeOf(sch: Schema, objs: seq<Obj>, ty: FieldType, h: nat): (t: Tree)
    requires FitsTarget(sch, objs, ty, h)
    decreases h, 2, 0
  {
    match ty
    case Str => StrV(objs[h].s)
    case ScalarVec(n) => ScalarVecV(objs[h].xs)
    case StrVec => StrVecV(StringTrees(sch, objs, h, 0))
    case Table(ti) => TableV(FieldTrees(sch, objs, ti, h, 0))
    case TableVec(ti) => TableVecV(TableTrees(sch, objs, ti, h, 0))
  }

  function StringTrees(sch: Schema, objs: seq<Obj>, h: nat, i: nat): (r: seq<seq<byte>>)
    requires FitsTarget(sch, objs, StrVec, h) && i <= |objs[h].hs|
    decreases |objs[h].hs| - i
  {
    if i == |objs[h].hs| then []
    else [objs[objs[h].hs[i]].s] + StringTrees(sch, objs, h, i + 1)
  }

  function FieldTrees(sch: Schema, objs: seq<Obj>, ti: nat, h: nat, k: nat): (r: seq<Tree>)
    requires FitsTarget(sch, objs, Table(ti), h) && k <= |FieldsOf(sch, ti)|
    ensures |r| == |FieldsOf(sch, ti)| - k
    decreases h, 1, |FieldsOf(sch, ti)| - k
  {
    if k == |FieldsOf(sch, ti)| then []
    else [FieldTree(sch, objs, FieldsOf(sch, ti)[k], h)] + FieldTrees(sch, objs, ti, h, k + 1)
  }

  /** A field that was elided or never added has its default value, or is absent. */
  function FieldTree(sch: Schema, objs: seq<Obj>, f: Field, h: nat): Tree
    requires FitsField(sch, objs, f, h)
    decreases h, 0, 0
  {
    if f.id !in objs[h].fields then (if f.ty.Scalar? then ScalarV(f.ty.def) else Absent)
    else
      match objs[h].fields[f.id]
      case Sc(n, v, def) => ScalarV(v)
      case Ref(g) => TreeOf(sch, objs, f.ty, g)
  }

  function TableTrees(sch: Schema, objs: seq<Obj>, ti: nat, h: nat, i: nat): (r: seq<Tree>)
    requires FitsTarget(sch, objs, TableVec(ti), h) && i <= |objs[h].hs|
    ensures |r| == |objs[h].hs| - i
    decreases h, 1, |objs[h].hs| - i
  {
    if i == |objs[h].hs| then []
    else [TreeOf(sch, objs, Table(ti), objs[h].hs[i])] + TableTrees(sch, objs, ti, h, i + 1)
  }

  /** All objects read back, wherever they were put. */
  ghost predicate AllRead(b: seq<byte>, offs: seq<nat>, objs: seq<Obj>)
  {
    && |offs| == |objs|
    && forall h :: 0 <= h < |objs| ==> ObjReads(b, offs, offs[h], objs[h])
  }

  lemma {:induction false} TargetDecodes(
      sch: Schema, b: seq<byte>, offs: seq<nat>, objs: seq<Obj>, ty: FieldType, h: nat)
    requires AllRead(b, offs, objs) && FitsTarget(sch, objs, ty, h)
    ensures DecodeTarget(sch, b, ty, |b| - offs[h]) == Some(TreeOf(sch, objs, ty, h))
    decreases h, 2, 0
  {
    hide GetString, U, VecFrom, VecGetRef, VTableOf, FieldReads, FieldOffset;
    var p := |b| - offs[h];
    assert ObjReads(b, offs, offs[h], objs[h]);
    match ty
    case Str =>
    case ScalarVec(n) =>
    case StrVec => StringsDecode(sch, b, offs, objs, h, 0);
    case Table(ti) => FieldsDecode(sch, b, offs, objs, ti, h, 0);
    case TableVec(ti) => TablesDecode(sch, b, offs, objs, ti, h, 0);
  }

  lemma {:induction false} StringsDecode(
      sch: Schema, b: seq<byte>, offs: seq<nat>, objs: seq<Obj>, h: nat, i: nat)
    requires AllRead(b, offs, objs) && FitsTarget(sch, objs, StrVec, h) && i <= |objs[h].hs|
    ensures StringsFrom(b, |b| - offs[h], i, |objs[h].hs|) == Some(StringTrees(sch, objs, h, i))
    decreases |objs[h].hs| - i
  {
    hide GetString, U, VecGetRef, VTableOf, FieldReads, FieldOffset;
    if i < |objs[h].hs| {
      StringsDecode(sch, b, offs, objs, h, i + 1);
      assert ObjReads(b, offs, offs[h], objs[h]);
      var g := objs[h].hs[i];
      assert ObjReads(b, offs, offs[g], objs[g]);
      assert VecGetRef(b, |b| - offs[h], i) == Some(|b| - offs[g]);
    }
  }

  lemma {:induction false} FieldsDecode(
      sch: Schema, b: seq<byte>, offs: seq<nat>, objs: seq<Obj>, ti: nat, h: nat, k: nat)
    requires AllRead(b, offs, objs) && FitsTarget(sch, objs, Table(ti), h) && k <= |FieldsOf(sch, ti)|
    ensures VTableOf(b, |b| - offs[h]).Some?
    ensures DecodeFields(sch, b, ti, |b| - offs[h], k) == Some(FieldTrees(sch, objs, ti, h, k))
    decreases h, 1, |FieldsOf(sch, ti)| - k
  {
    hide GetString, U, VecGetRef, VTableOf, FieldReads, FieldOffset;
    assert ObjReads(b, offs, offs[h], objs[h]);
    if k < |FieldsOf(sch, ti)| {
      FieldDecodes(sch, b, offs, objs, FieldsOf(sch, ti)[k], h);
      FieldsDecode(sch, b, offs, objs, ti, h, k + 1);
    }
  }

  lemma {:induction false} FieldDecodes(
      sch: Schema, b: seq<byte>, offs: seq<nat>, objs: seq<Obj>, f: Field, h: nat)
    requires AllRead(b, offs, objs) && FitsField(sch, objs, f, h)
    requires VTableOf(b, |b| - offs[h]).Some?
    ensures DecodeField(sch, b, f, |b| - offs[h]) == Some(FieldTree(sch, objs, f, h))
    decreases h, 0, 0
  {
    hide GetString, U, VecGetRef, VTableOf, FieldOffset, DecodeTarget, TreeOf;
    var t := |b| - offs[h];
    assert ObjReads(b, offs, offs[h], objs[h]);
    if f.id in objs[h].fields {
      assert FieldReads(b, offs, t, f.id, objs[h].fields[f.id]);
      if objs[h].fields[f.id].Ref? {
        TargetDecodes(sch, b, offs, objs, f.ty, objs[h].fields[f.id].h);
      }
    } else {
      AbsentFieldReads(b, t, f);
    }
  }

  lemma {:induction false} AbsentFieldReads(b: seq<byte>, t: int, f: Field)
    requires FieldOffset(b, t, f.id) == Some(0)
    ensures GetPointer(b, t, f.id) == Some(Null)
    ensures f.ty.Scalar? ==> GetField(b, t, f.id, f.ty.size, f.ty.def) == Some(f.ty.def)
  {
  }

  lemma {:induction false} TablesDecode(
      sch: Schema, b: seq<byte>, offs: seq<nat>, objs: seq<Obj>, ti: nat, h: nat, i: nat)
    requires AllRead(b, offs, objs) && FitsTarget(sch, objs, TableVec(ti), h) && i <= |objs[h].hs|
    ensures DecodeTables(sch, b, ti, |b| - offs[h], i, |objs[h].hs|)
         == Some(TableTrees(sch, objs, ti, h, i))
    decreases h, 1, |objs[h].hs| - i
  {
    hide GetString, U, VecGetRef, VTableOf, FieldReads, FieldOffset, DecodeTable;
    if i < |objs[h].hs| {
      TablesDecode(sch, b, offs, objs, ti, h, i + 1);
      assert ObjReads(b, offs, offs[h], objs[h]);
      var g := objs[h].hs[i];
      assert VecGetRef(b, |b| - offs[h], i) == Some(|b| - offs[g]);
      TargetDecodes(sch, b, offs, objs, Table(ti), g);
      TableTarget(sch, b, ti, |b| - offs[g]);
    }
  }

  lemma {:induction false} TableTarget(sch: Schema, b: seq<byte>, ti: nat, p: int)
    ensures DecodeTarget(sch, b, Table(ti), p) == DecodeTable(sch, b, ti, p)
  {
  }
}
