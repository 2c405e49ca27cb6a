/** Completeness of the verifier: what the builder finishes, the verifier accepts. */
module FlatComplete {
  import opened Bytes
  import opened FlatReader
  import opened FlatSchema
  import opened FlatVerifier
  import opened FlatSoundness
  import opened FlatRoom
  import opened FlatLayout
  import opened FlatObjects
  import opened FlatCreate
  import opened FlatTrees
  import opened FlatRun
  import opened FlatFinish

  /** A finished buffer: `b0` is what was built, `b` has at least the root offset in front of it. */
  ghost predicate Finished(b: seq<byte>, b0: seq<byte>, offs: seq<nat>, objs: seq<Obj>, m: nat)
  {
    && Extends(b, b0) && |b0| + 4 <= |b| < MAX_BUFFER_SIZE
    && ObjsInPlace(b0, offs, objs, m)
    && IsAlign(m) && 4 <= m && Multiple(|b|, m)
  }

  /** The reads of an object all lie behind the root offset, so the strict bound of `Verify` holds. */
  lemma {:induction false} ReadInRange(b: seq<byte>, b0: seq<byte>, i: int, n: nat, j: int)
    requires Extends(b, b0) && |b0| + 4 <= |b| && U(b0, i, n).Some? && j == |b| - |b0| + i
    ensures 0 <= j && InRange(b, j, n) && U(b, j, n) == U(b0, i, n)
  {
    UShift(Prefix(b, b0), b0, i, n);
  }

  lemma {:induction false} AlignedAt(b: seq<byte>, m: nat, o: nat, n: nat, index: int)
    requires IsAlign(m) && IsAlign(n) && n <= m && Multiple(|b|, m) && Multiple(o, n)
    requires index == |b| - o && 0 <= index
    ensures VerifyAlignment(index, n, true)
  {
    hide Multiple;
    IndexAligned(|b|, m, o, n, index);
    MultipleIsAlignment(index, n);
  }

  lemma {:induction false} MultipleIsAlignment(x: nat, n: nat)
    requires n > 0 && Multiple(x, n)
    ensures VerifyAlignment(x, n, true)
  {
  }

  // ---------------------------------------------------------------------------------------------
  // Strings and vectors

  lemma {:induction false} StringAccepted(b: seq<byte>, b0: seq<byte>, offs: seq<nat>, objs: seq<Obj>, m: nat, h: nat)
    requires Finished(b, b0, offs, objs, m) && h < |objs| && objs[h].OStr?
    ensures offs[h] <= |b| && VerifyString(b, |b| - offs[h])
  {
    hide Extends, Multiple, U;
    assert ObjAt(b0, offs, offs[h], objs[h], m);
    var p := |b| - offs[h];
    ReadInRange(b, b0, |b0| - offs[h], 4, p);
    AlignedAt(b, m, offs[h], 4, p);
    GetStringShift(Prefix(b, b0), b0, |b0| - offs[h]);
    assert GetString(b, p).Some?;
    var n := U(b, p, 4).value;
    assert n < MAX_BUFFER_SIZE / 1;
  }

  lemma {:induction false} VecFromBound(b: seq<byte>, v: nat, n: nat, i: nat, size: nat)
    requires i <= size && VecFrom(b, v, n, i, size).Some?
    ensures i < size ==> v + 4 + n * size <= |b|
    decreases size - i
  {
    if i < size {
      VecFromBound(b, v, n, i + 1, size);
      assert i + 1 == size ==> n * i + n == n * size;
    }
  }

  lemma {:induction false} MaxElems(n: ScalarSize, size: nat, total: nat)
    requires 4 + n * size + 4 <= total < MAX_BUFFER_SIZE
    ensures size < MAX_BUFFER_SIZE / n
  {
  }

  /** A vector of `size` elements of `n` bytes that lies in what was built passes its check. */
  lemma {:induction false} VectorAccepted(b: seq<byte>, b0: seq<byte>, m: nat, o: nat, n: ScalarSize, size: nat)
    requires Extends(b, b0) && |b0| + 4 <= |b| < MAX_BUFFER_SIZE
    requires IsAlign(m) && 4 <= m && Multiple(|b|, m)
    requires 0 < o <= |b0| && Multiple(o, 4) && U(b0, |b0| - o, 4) == Some(size)
    requires size > 0 ==> |b0| - o + 4 + n * size <= |b0|
    ensures VerifyVectorOrString(b, |b| - o, n) && U(b, |b| - o, 4) == Some(size)
  {
    hide Extends, Multiple, U;
    ReadInRange(b, b0, |b0| - o, 4, |b| - o);
    AlignedAt(b, m, o, 4, |b| - o);
    if size == 0 {
      assert n * size == 0;
      UBound(b0, |b0| - o, 4);
    }
    MaxElems(n, size, |b|);
  }

  lemma {:induction false} UBound(b: seq<byte>, i: int, n: nat)
    requires U(b, i, n).Some?
    ensures 0 <= i && i + n <= |b|
  {
  }

  lemma {:induction false} ScalarsAccepted(b: seq<byte>, b0: seq<byte>, offs: seq<nat>, objs: seq<Obj>, m: nat, h: nat)
    requires Finished(b, b0, offs, objs, m) && h < |objs| && objs[h].OScalars?
    ensures offs[h] <= |b| && VerifyVectorOrString(b, |b| - offs[h], objs[h].n)
  {
    hide Extends, Multiple, U, VecFrom;
    assert ObjAt(b0, offs, offs[h], objs[h], m);
    var i, n := |b0| - offs[h], objs[h].n;
    var size := U(b0, i, 4).value;
    VecFromBound(b0, i, n, 0, size);
    VectorAccepted(b, b0, m, offs[h], n, size);
  }

  lemma {:induction false} RefsAccepted(b: seq<byte>, b0: seq<byte>, offs: seq<nat>, objs: seq<Obj>, m: nat, h: nat)
    requires Finished(b, b0, offs, objs, m) && h < |objs| && objs[h].ORefs?
    ensures offs[h] <= |b| && VerifyVectorOrString(b, |b| - offs[h], 4)
    ensures U(b, |b| - offs[h], 4) == Some(|objs[h].hs|)
    ensures |b| - offs[h] + 4 + 4 * |objs[h].hs| <= |b|
    ensures forall k :: 0 <= k < |objs[h].hs| ==>
      objs[h].hs[k] < |offs| && VecGetRef(b, |b| - offs[h], k) == Some(|b| - offs[objs[h].hs[k]])
  {
    hide Extends, Multiple, U;
    assert ObjAt(b0, offs, offs[h], objs[h], m);
    ObjAtGrows(Prefix(b, b0), b0, offs, [], offs[h], objs[h], m, m);
    assert offs + [] == offs && Prefix(b, b0) + b0 == b;
    var i, size := |b0| - offs[h], |objs[h].hs|;
    if size > 0 {
      assert VecGetRef(b0, i, size - 1).Some?;
      UBound(b0, i + 4 + 4 * (size - 1), 4);
    }
    UBound(b0, i, 4);
    VectorAccepted(b, b0, m, offs[h], 4, size);
  }

  lemma {:induction false} StringsAccepted(
      b: seq<byte>, b0: seq<byte>, offs: seq<nat>, objs: seq<Obj>, m: nat, h: nat, i: nat)
    requires Finished(b, b0, offs, objs, m) && h < |objs| && objs[h].ORefs? && i <= |objs[h].hs|
    requires forall k :: 0 <= k < |objs[h].hs| ==> objs[h].hs[k] < |objs| && objs[objs[h].hs[k]].OStr?
    ensures offs[h] <= |b| && |b| - offs[h] + 4 + 4 * |objs[h].hs| <= |b|
    ensures VerifyStrings(b, |b| - offs[h], i, |objs[h].hs|)
    decreases |objs[h].hs| - i
  {
    hide Finished, VerifyVectorOrString, VecGetRef, VerifyString, U;
    RefsAccepted(b, b0, offs, objs, m, h);
    if i < |objs[h].hs| {
      StringAccepted(b, b0, offs, objs, m, objs[h].hs[i]);
      StringsAccepted(b, b0, offs, objs, m, h, i + 1);
    }
  }

  // ---------------------------------------------------------------------------------------------
  // Tables

  lemma {:induction false} TableStartAccepted(b: seq<byte>, b0: seq<byte>, offs: seq<nat>, objs: seq<Obj>, m: nat, h: nat)
    requires Finished(b, b0, offs, objs, m) && h < |objs| && objs[h].OTable?
    ensures offs[h] <= |b| && VTableOk(b, |b| - offs[h], true)
  {
    hide Extends, Multiple, U, VTableOf, FieldOffset;
    assert ObjAt(b0, offs, offs[h], objs[h], m);
    var o := offs[h];
    var i, t := |b0| - o, |b| - o;
    var vt0 := VTableOf(b0, i).value;
    VTableOfShift(Prefix(b, b0), b0, i);
    var vt := |b| - |b0| + vt0;
    assert VTableOf(b, t) == Some(vt);
    TableLinkInside(b0, i);
    ReadInRange(b, b0, i, 4, t);
    AlignedAt(b, m, o, 4, t);
    ReadInRange(b, b0, vt0, 2, vt);
    AlignedAt(b, m, |b0| - vt0, 2, vt);
    IndexOfVTable(b, t, vt);
    MultipleIsAlignment(U(b, vt, 2).value, 2);
  }

  lemma {:induction false} TableLinkInside(b: seq<byte>, t: int)
    requires VTableOf(b, t).Some?
    ensures U(b, t, 4).Some?
  {
  }

  lemma {:induction false} IndexOfVTable(b: seq<byte>, t: nat, vt: nat)
    requires t + 4 <= |b| < MAX_BUFFER_SIZE && VTableOf(b, t) == Some(vt) && vt <= |b|
    ensures VTableIndex(b, t) == vt
  {
  }

  lemma {:induction false} FinishedAllRead(b: seq<byte>, b0: seq<byte>, offs: seq<nat>, objs: seq<Obj>, m: nat)
    requires Finished(b, b0, offs, objs, m)
    ensures AllRead(b, offs, objs)
  {
    hide ObjReads, ObjAligned, Extends;
    ObjsGrow(b, b0, offs, objs, m, m);
    forall h | 0 <= h < |objs|
      ensures ObjReads(b, offs, offs[h], objs[h])
    {
      assert ObjAt(b, offs, offs[h], objs[h], m);
    }
  }

  lemma {:induction false} RoomCons(lim: Limits, st: Counters, x: Tree, rest: seq<Tree>)
    requires Room(lim, st, DepthAll([x] + rest), VisitsAll([x] + rest))
    ensures Room(lim, st, Depth(x), Visits(x))
    ensures Room(lim, Visited(st, Visits(x)), DepthAll(rest), VisitsAll(rest))
  {
    assert ([x] + rest)[1..] == rest;
  }

  lemma {:induction false} TargetAccepted(
      sch: Schema, lim: Limits, b: seq<byte>, b0: seq<byte>, offs: seq<nat>, objs: seq<Obj>, m: nat,
      ty: FieldType, h: nat, st: Counters)
    requires Finished(b, b0, offs, objs, m) && AllRead(b, offs, objs)
    requires FitsTarget(sch, objs, ty, h)
    requires Room(lim, st, Depth(TreeOf(sch, objs, ty, h)), Visits(TreeOf(sch, objs, ty, h)))
    ensures offs[h] <= |b| && VerifyTarget(sch, lim, b, ty, |b| - offs[h], st).0
    decreases h, 3, 0
  {
    hide Finished, AllRead, VerifyVectorOrString, VerifyString, U, VTableOk, VerifyAt;
    match ty
    case Str => StringAccepted(b, b0, offs, objs, m, h);
    case ScalarVec(n) => ScalarsAccepted(b, b0, offs, objs, m, h);
    case StrVec =>
      RefsAccepted(b, b0, offs, objs, m, h);
      RefsBelowAll(b, b0, offs, objs, m, h);
      StringsAccepted(b, b0, offs, objs, m, h, 0);
    case Table(ti) => TableAccepted(sch, lim, b, b0, offs, objs, m, ti, h, st);
    case TableVec(ti) =>
      RefsAccepted(b, b0, offs, objs, m, h);
      TablesAccepted(sch, lim, b, b0, offs, objs, m, ti, h, 0, st);
  }

  lemma {:induction false} RefsBelowAll(b: seq<byte>, b0: seq<byte>, offs: seq<nat>, objs: seq<Obj>, m: nat, h: nat)
    requires Finished(b, b0, offs, objs, m) && h < |objs| && objs[h].ORefs?
    ensures forall k :: 0 <= k < |objs[h].hs| ==> objs[h].hs[k] < |objs|
  {
    assert RefsBelow(objs[h], h);
  }

  lemma {:induction false} TableAccepted(
      sch: Schema, lim: Limits, b: seq<byte>, b0: seq<byte>, offs: seq<nat>, objs: seq<Obj>, m: nat,
      ti: nat, h: nat, st: Counters)
    requires Finished(b, b0, offs, objs, m) && AllRead(b, offs, objs)
    requires FitsTarget(sch, objs, Table(ti), h)
    requires Room(lim, st, Depth(TreeOf(sch, objs, Table(ti), h)), Visits(TreeOf(sch, objs, Table(ti), h)))
    ensures offs[h] <= |b| < MAX_BUFFER_SIZE && VerifyTable(sch, lim, b, ti, |b| - offs[h], st).0
    decreases h, 2, 0
  {
    TableStartAccepted(b, b0, offs, objs, m, h);
    StartIsAligned(b, |b| - offs[h]);
    hide AllRead, VTableOk, VerifyAt;
    FieldsAccepted(sch, lim, b, b0, offs, objs, m, ti, h, 0, Enter(st), FieldTrees(sch, objs, ti, h, 0));
  }

  lemma {:induction false} StartIsAligned(b: seq<byte>, t: nat)
    requires |b| < MAX_BUFFER_SIZE && VTableOk(b, t, true)
    ensures VerifyAt(b, t, 4, true)
  {
  }

  lemma {:induction false} FieldsAccepted(
      sch: Schema, lim: Limits, b: seq<byte>, b0: seq<byte>, offs: seq<nat>, objs: seq<Obj>, m: nat,
      ti: nat, h: nat, k: nat, st: Counters, trees: seq<Tree>)
    requires Finished(b, b0, offs, objs, m) && AllRead(b, offs, objs)
    requires FitsTarget(sch, objs, Table(ti), h) && k <= |FieldsOf(sch, ti)|
    requires offs[h] <= |b| < MAX_BUFFER_SIZE && VTableOk(b, |b| - offs[h], true)
    requires trees == FieldTrees(sch, objs, ti, h, k) && Room(lim, st, DepthAll(trees), VisitsAll(trees))
    ensures VerifyFields(sch, lim, b, ti, |b| - offs[h], k, st).0
    decreases h, 1, |FieldsOf(sch, ti)| - k
  {
    hide Finished, AllRead, VTableOk, VerifyField, Room, VTableOf, DepthAll, VisitsAll, Depth, Visits,
         FitsField, FieldTree, DecodeField;
    SizeBelowMax(b, b0, offs, objs, m);
    if k < |FieldsOf(sch, ti)| {
      var f, t := FieldsOf(sch, ti)[k], |b| - offs[h];
      var rest := FieldTrees(sch, objs, ti, h, k + 1);
      RoomCons(lim, st, FieldTree(sch, objs, f, h), rest);
      FieldOffsetInBounds(b, t, 4);
      FieldDecodes(sch, b, offs, objs, f, h);
      FieldAccepted(sch, lim, b, b0, offs, objs, m, f, h, st);
      FieldSound(sch, lim, b, f, t, st);
      FieldsAccepted(sch, lim, b, b0, offs, objs, m, ti, h, k + 1, VerifyField(sch, lim, b, f, t, st).1, rest);
    }
  }

  lemma {:induction false} FieldAccepted(
      sch: Schema, lim: Limits, b: seq<byte>, b0: seq<byte>, offs: seq<nat>, objs: seq<Obj>, m: nat,
      f: Field, h: nat, st: Counters)
    requires Finished(b, b0, offs, objs, m) && AllRead(b, offs, objs)
    requires FitsField(sch, objs, f, h)
    requires offs[h] <= |b| < MAX_BUFFER_SIZE && VTableOk(b, |b| - offs[h], true)
    requires Room(lim, st, Depth(FieldTree(sch, objs, f, h)), Visits(FieldTree(sch, objs, f, h)))
    ensures VerifyField(sch, lim, b, f, |b| - offs[h], st).0
    decreases h, 0, 0
  {
    hide Finished, AllRead, VTableOk, U, FieldOffset, VerifyOffset, VTableOf, DepthAll, VisitsAll, Depth,
         Visits, FitsTarget, TreeOf, VerifyTarget, Room;
    SizeBelowMax(b, b0, offs, objs, m);
    var t := |b| - offs[h];
    FieldOffsetInBounds(b, t, f.id);
    var fo := FieldOffset(b, t, f.id).value;
    if f.id in objs[h].fields {
      match objs[h].fields[f.id]
      case Sc(n, v, def) =>
        ScalarInRange(b, b0, offs, objs, m, h, f.id);
      case Ref(g) =>
        OffsetAccepted(b, b0, offs, objs, m, h, f.id);
        FitsInside(sch, objs, f.ty, g);
        TargetAccepted(sch, lim, b, b0, offs, objs, m, f.ty, g, st);
    } else {
      AbsentOffset(b, b0, offs, objs, m, h, f.id);
    }
  }

  lemma {:induction false} AbsentOffset(b: seq<byte>, b0: seq<byte>, offs: seq<nat>, objs: seq<Obj>, m: nat, h: nat, f: FieldId)
    requires Finished(b, b0, offs, objs, m) && h < |objs| && objs[h].OTable? && f !in objs[h].fields
    ensures FieldOffset(b, |b| - offs[h], f) == Some(0)
  {
    hide U, VTableOf, FieldOffset, FieldReads;
    assert ObjAt(b0, offs, offs[h], objs[h], m);
    FieldOffsetShift(Prefix(b, b0), b0, |b0| - offs[h], f);
  }

  lemma {:induction false} ScalarInRange(b: seq<byte>, b0: seq<byte>, offs: seq<nat>, objs: seq<Obj>, m: nat, h: nat, f: FieldId)
    requires Finished(b, b0, offs, objs, m) && h < |objs| && objs[h].OTable?
    requires f in objs[h].fields && objs[h].fields[f].Sc?
    ensures var fo := FieldOffset(b, |b| - offs[h], f);
      fo.Some? && 0 <= |b| - offs[h] &&
      (fo.value == 0 || InRange(b, |b| - offs[h] + fo.value, objs[h].fields[f].n))
  {
    hide U, VTableOf, FieldOffset;
    assert ObjAt(b0, offs, offs[h], objs[h], m);
    var i, x := |b0| - offs[h], objs[h].fields[f];
    assert FieldReads(b0, offs, i, f, x);
    FieldOffsetShift(Prefix(b, b0), b0, i, f);
    var fo := FieldOffset(b0, i, f).value;
    if fo != 0 {
      ReadInRange(b, b0, i + fo, x.n, |b| - offs[h] + fo);
    }
  }

  lemma {:induction false} OffsetAccepted(b: seq<byte>, b0: seq<byte>, offs: seq<nat>, objs: seq<Obj>, m: nat, h: nat, f: FieldId)
    requires Finished(b, b0, offs, objs, m) && h < |objs| && objs[h].OTable?
    requires f in objs[h].fields && objs[h].fields[f].Ref?
    ensures var t, fo := |b| - offs[h], FieldOffset(b, |b| - offs[h], f);
      && fo.Some? && fo.value != 0 && 0 <= t
      && VerifyOffset(b, t + fo.value) != 0
      && objs[h].fields[f].h < |offs|
      && t + fo.value + VerifyOffset(b, t + fo.value) == |b| - offs[objs[h].fields[f].h]
  {
    hide U, VTableOf, FieldOffset, Extends, Multiple;
    assert ObjAt(b0, offs, offs[h], objs[h], m);
    var o, x := offs[h], objs[h].fields[f];
    var i, t := |b0| - o, |b| - o;
    assert RefsBelow(objs[h], h);
    assert FieldReads(b0, offs, i, f, x);
    assert 0 < offs[x.h] by { assert ObjAt(b0, offs, offs[x.h], objs[x.h], m); }
    FieldOffsetShift(Prefix(b, b0), b0, i, f);
    var fo := FieldOffset(b0, i, f).value;
    ReadInRange(b, b0, i + fo, 4, t + fo);
    AlignedAt(b, m, o - fo, 4, t + fo);
    var v := U(b, t + fo, 4).value;
    assert i + fo + v == |b0| - offs[x.h];
    assert Pow256(4) == 0x1_0000_0000;
  }

  lemma {:induction false} TablesAccepted(
      sch: Schema, lim: Limits, b: seq<byte>, b0: seq<byte>, offs: seq<nat>, objs: seq<Obj>, m: nat,
      ti: nat, h: nat, i: nat, st: Counters)
    requires Finished(b, b0, offs, objs, m) && AllRead(b, offs, objs)
    requires FitsTarget(sch, objs, TableVec(ti), h) && i <= |objs[h].hs|
    requires Room(lim, st, DepthAll(TableTrees(sch, objs, ti, h, i)), VisitsAll(TableTrees(sch, objs, ti, h, i)))
    ensures offs[h] <= |b| < MAX_BUFFER_SIZE && |b| - offs[h] + 4 + 4 * |objs[h].hs| <= |b|
    ensures VerifyTables(sch, lim, b, ti, |b| - offs[h], i, |objs[h].hs|, st).0
    decreases h, 1, |objs[h].hs| - i
  {
    hide Finished, AllRead, VerifyVectorOrString, VecGetRef, U, Room, VerifyTable, DecodeTable,
         DecodeTarget, DepthAll, VisitsAll, Depth, Visits, TreeOf, FitsField;
    SizeBelowMax(b, b0, offs, objs, m);
    RefsAccepted(b, b0, offs, objs, m, h);
    if i < |objs[h].hs| {
      var g := objs[h].hs[i];
      var p := |b| - offs[g];
      RoomCons(lim, st, TreeOf(sch, objs, Table(ti), g), TableTrees(sch, objs, ti, h, i + 1));
      TargetDecodes(sch, b, offs, objs, Table(ti), g);
      TableTarget(sch, b, ti, p);
      TableAccepted(sch, lim, b, b0, offs, objs, m, ti, g, st);
      TableSound(sch, lim, b, ti, p, st);
      TablesAccepted(sch, lim, b, b0, offs, objs, m, ti, h, i + 1, VerifyTable(sch, lim, b, ti, p, st).1);
    }
  }

  lemma {:induction false} SizeBelowMax(b: seq<byte>, b0: seq<byte>, offs: seq<nat>, objs: seq<Obj>, m: nat)
    requires Finished(b, b0, offs, objs, m)
    ensures |b| < MAX_BUFFER_SIZE && |offs| == |objs|
  {
  }

  // ---------------------------------------------------------------------------------------------
  // Whole buffers

  lemma {:induction false} RootAccepted(
      sch: Schema, lim: Limits, b: seq<byte>, b0: seq<byte>, offs: seq<nat>, objs: seq<Obj>, m: nat,
      ti: nat, h: nat, start: nat, st: Counters)
    requires Finished(b, b0, offs, objs, m) && FitsTarget(sch, objs, Table(ti), h)
    requires Room(lim, st, Depth(TreeOf(sch, objs, Table(ti), h)), Visits(TreeOf(sch, objs, Table(ti), h)))
    requires |offs| == |objs| && GetRoot(b, start) == Some(|b| - offs[h])
    requires start == 0 || (start == 4 && U(b, 0, 4) == Some(|b| - 4) && |b0| + 8 <= |b|)
    ensures |b| < MAX_BUFFER_SIZE && 0 <= |b| - offs[h]
    ensures VerifyBufferFromStart(sch, lim, b, ti, start, st)
         == (true, Visited(st, Visits(TreeOf(sch, objs, Table(ti), h))))
    ensures DecodeTable(sch, b, ti, |b| - offs[h]) == Some(TreeOf(sch, objs, Table(ti), h))
  {
    hide Finished, AllRead, Room, VerifyOffset, GetRoot, U, VTableOk, FitsTarget, TreeOf, Visits, Depth,
         VerifyTable, DecodeTable, DecodeTarget;
    FitsInside(sch, objs, Table(ti), h);
    RootOffsetAccepted(b, b0, offs, objs, m, h, start);
    FinishedAllRead(b, b0, offs, objs, m);
    TableAccepted(sch, lim, b, b0, offs, objs, m, ti, h, st);
    TableSound(sch, lim, b, ti, |b| - offs[h], st);
    TargetDecodes(sch, b, offs, objs, Table(ti), h);
    TableTarget(sch, b, ti, |b| - offs[h]);
  }

  lemma {:induction false} FitsInside(sch: Schema, objs: seq<Obj>, ty: FieldType, h: nat)
    requires FitsTarget(sch, objs, ty, h)
    ensures h < |objs| && !ty.Scalar?
  {
  }

  lemma {:induction false} RootOffsetAccepted(
      b: seq<byte>, b0: seq<byte>, offs: seq<nat>, objs: seq<Obj>, m: nat, h: nat, start: nat)
    requires Finished(b, b0, offs, objs, m) && h < |objs|
    requires GetRoot(b, start) == Some(|b| - offs[h])
    requires start == 0 || (start == 4 && |b0| + 8 <= |b|)
    ensures 0 <= |b| - offs[h] && VerifyOffset(b, start) != 0
    ensures start + VerifyOffset(b, start) == |b| - offs[h]
  {
    hide U, Extends, Multiple, ObjReads, ObjAligned;
    assert ObjAt(b0, offs, offs[h], objs[h], m);
    assert Pow256(4) == 0x1_0000_0000;
    var o := U(b, start, 4).value;
    assert start + o == |b| - offs[h];
  }

  /** Every buffer the builder finishes for a schema is accepted within the limits, plain or size
      prefixed, and decodes to the tree that was built; the counters say how many tables that took. */
  lemma {:induction false} FinishedBufferVerifies(
      forceDefaults: bool, dedup: bool, steps: seq<Step>, c: Conf, a: Abs, sch: Schema, lim: Limits,
      ti: nat, h: nat, id: Option<seq<byte>>, sizePrefix: bool, b: seq<byte>, tree: Tree, st: Counters)
    requires LegalRun(ABS_INITIAL, steps) && a == AbsRun(ABS_INITIAL, steps) && !a.open
    requires Run(Fresh(forceDefaults, dedup), steps) == Some(c)
    requires FitsTarget(sch, a.objs, Table(ti), h) && tree == TreeOf(sch, a.objs, Table(ti), h)
    requires IsIdentifier(id) && h < |c.offs| && IsAlign(c.st.minalign) && c.offs[h] <= |c.st.bytes|
    requires b == Finish(c.st, c.offs[h], id, sizePrefix).bytes && |b| < MAX_BUFFER_SIZE
    requires Room(lim, st, Depth(tree), Visits(tree))
    ensures var start := if sizePrefix then 4 else 0;
      && GetRoot(b, start) == Some(|b| - c.offs[h])
      && DecodeTable(sch, b, ti, |b| - c.offs[h]) == Some(tree)
      && VerifyBufferFromStart(sch, lim, b, ti, start, st) == (true, Visited(st, Visits(tree)))
    ensures sizePrefix ==>
      VerifySizePrefixedBuffer(sch, lim, b, ti, st) == (true, Visited(st, Visits(tree)))
  {
    hide Inv, ObjsInPlace, Finish, Run, LegalRun, AbsRun, Extends, Multiple, U, GetRoot, Room, Fresh,
         FitsTarget, TreeOf, Depth, Visits, VerifyBufferFromStart, DecodeTable;
    FreshInv(forceDefaults, dedup);
    RunInv(Fresh(forceDefaults, dedup), ABS_INITIAL, steps, c);
    FitsInside(sch, a.objs, Table(ti), h);
    MinalignAtLeast4(c, a, h);
    FinishedObjects(c, a, c.offs[h], id, sizePrefix, b);
    FinishIsLonger(c.st, c.offs[h], id, sizePrefix, b);
    InPlaceBefore(c, a);
    assert Finished(b, c.st.bytes, c.offs, a.objs, c.st.minalign);
    RootAccepted(sch, lim, b, c.st.bytes, c.offs, a.objs, c.st.minalign, ti, h, 4 * Words(sizePrefix), st);
    if sizePrefix {
      ZeroMultiple();
      MultipleIsAlignment(0, 4);
    }
  }

  /** And only then: the limits have to leave room, and an identifier that is asked for has to be the one the
      buffer was finished with. */
  lemma {:induction false} FinishedBufferVerifiesIff(
      forceDefaults: bool, dedup: bool, steps: seq<Step>, c: Conf, a: Abs, sch: Schema, lim: Limits,
      ti: nat, h: nat, id: Option<seq<byte>>, sizePrefix: bool, b: seq<byte>, tree: Tree, st: Counters,
      asked: Option<seq<byte>>)
    requires LegalRun(ABS_INITIAL, steps) && a == AbsRun(ABS_INITIAL, steps) && !a.open
    requires Run(Fresh(forceDefaults, dedup), steps) == Some(c)
    requires FitsTarget(sch, a.objs, Table(ti), h) && tree == TreeOf(sch, a.objs, Table(ti), h)
    requires IsIdentifier(id) && h < |c.offs| && IsAlign(c.st.minalign) && c.offs[h] <= |c.st.bytes|
    requires b == Finish(c.st, c.offs[h], id, sizePrefix).bytes && |b| < MAX_BUFFER_SIZE
    requires asked.None? || (IsIdentifier(asked) && id.Some?)
    ensures 12 <= |b| || asked.None? || (8 <= |b| && !sizePrefix)
    ensures VerifyIdentified(sch, lim, b, asked, ti, if sizePrefix then 4 else 0, st).0
       <==> Room(lim, st, Depth(tree), Visits(tree)) && (asked.None? || asked == id)
    ensures sizePrefix ==>
      (VerifyPrefixedIdentified(sch, lim, b, asked, ti, st).0
       <==> Room(lim, st, Depth(tree), Visits(tree)) && (asked.None? || asked == id))
  {
    hide Inv, ObjsInPlace, Finish, Run, LegalRun, AbsRun, Multiple, U, GetRoot, Room, Fresh, IsIdentifier,
         FitsTarget, TreeOf, Depth, Visits, VerifyBufferFromStart, DecodeTable, HasIdentifier, VerifyAt;
    var start := if sizePrefix then 4 else 0;
    FreshInv(forceDefaults, dedup);
    RunInv(Fresh(forceDefaults, dedup), ABS_INITIAL, steps, c);
    FitsInside(sch, a.objs, Table(ti), h);
    MinalignAtLeast4(c, a, h);
    FinishedObjects(c, a, c.offs[h], id, sizePrefix, b);
    FinishIsLonger(c.st, c.offs[h], id, sizePrefix, b);
    IdentifierInPlace(c.st, c.offs[h], id, sizePrefix, b, asked);
    var ample := AmpleRoom(st, Depth(tree), Visits(tree));
    FinishedBufferVerifies(forceDefaults, dedup, steps, c, a, sch, ample, ti, h, id, sizePrefix, b, tree, st);
    if Room(lim, st, Depth(tree), Visits(tree)) {
      FinishedBufferVerifies(forceDefaults, dedup, steps, c, a, sch, lim, ti, h, id, sizePrefix, b, tree, st);
    }
    if VerifyBufferFromStart(sch, lim, b, ti, start, st).0 {
      AcceptedHasRoom(sch, lim, b, ti, start, st);
    }
    if sizePrefix {
      PrefixChecked(sch, ample, b, ti, st);
    }
  }

  lemma {:induction false} AmpleRoom(st: Counters, depth: nat, visits: nat) returns (lim: Limits)
    ensures Room(lim, st, depth, visits)
  {
    var d, t := st.depth + depth, st.tables + visits;
    lim := Limits(if d < 0 then 0 else d, if t < 0 then 0 else t);
  }

  lemma {:induction false} PrefixChecked(sch: Schema, lim: Limits, b: seq<byte>, ti: nat, st: Counters)
    requires |b| < MAX_BUFFER_SIZE && VerifySizePrefixedBuffer(sch, lim, b, ti, st).0
    ensures VerifyAt(b, 0, 4, true) && U(b, 0, 4) == Some(|b| - 4)
  {
    hide U, VerifyBufferFromStart;
  }

  /** The identifier is where it is looked for. */
  lemma {:induction false} IdentifierInPlace(
      st: State, root: nat, id: Option<seq<byte>>, sizePrefix: bool, b: seq<byte>, asked: Option<seq<byte>>)
    requires IsAlign(st.minalign) && 4 <= st.minalign && root <= |st.bytes| && IsIdentifier(id)
    requires b == Finish(st, root, id, sizePrefix).bytes && (asked.None? || (IsIdentifier(asked) && id.Some?))
    ensures asked.Some? ==> 4 * Words(sizePrefix) + 8 <= |b|
    ensures asked.Some? ==> (HasIdentifier(b, 4 * Words(sizePrefix), asked.value) <==> asked == id)
  {
    hide Finish, Multiple, PaddingBytes, LE;
    var pad := PaddingBytes(|st.bytes| + 4 * (Words(sizePrefix) + 1 + Words(id.Some?)), st.minalign);
    FinishLayout(st, root, id, sizePrefix, Finish(st, root, id, sizePrefix), pad, |b|);
    if asked.Some? {
      var body := id.value + (Zeros(pad) + st.bytes);
      var rooted := LE(|body| + 4 - root, 4) + body;
      assert rooted[4..8] == id.value;
      assert b[4 * Words(sizePrefix) + 4..4 * Words(sizePrefix) + 8] == rooted[4..8];
      assert asked.value[..4] == asked.value;
    }
  }

  lemma {:induction false} ZeroMultiple()
    ensures Multiple(0, 4)
  {
  }

  lemma {:induction false} InPlaceBefore(c: Conf, a: Abs)
    requires Inv(c, a)
    ensures ObjsInPlace(c.st.bytes, c.offs, a.objs, c.st.minalign)
    ensures |c.offs| == |a.objs|
  {
  }

  lemma {:induction false} FinishIsLonger(st: State, root: nat, id: Option<seq<byte>>, sizePrefix: bool, b: seq<byte>)
    requires IsAlign(st.minalign) && 4 <= st.minalign && root <= |st.bytes| && IsIdentifier(id)
    requires b == Finish(st, root, id, sizePrefix).bytes
    ensures |b| >= |st.bytes| + 4 * (Words(sizePrefix) + 1)
  {
    hide Finish, Multiple, PaddingBytes;
    var pad := PaddingBytes(|st.bytes| + 4 * (Words(sizePrefix) + 1 + Words(id.Some?)), st.minalign);
    FinishLayout(st, root, id, sizePrefix, Finish(st, root, id, sizePrefix), pad, |b|);
    FinishedExtends(st.bytes, root, id, sizePrefix, pad);
  }

  /** Sharing vtables and forcing defaults change the bytes but not what they mean: the same calls give
      buffers that decode to the same tree, for every schema the objects fit. */
  lemma {:induction false} SwitchesPreserveMeaning(
      force1: bool, dedup1: bool, c1: Conf, b1: seq<byte>, force2: bool, dedup2: bool, c2: Conf, b2: seq<byte>,
      steps: seq<Step>, a: Abs, sch: Schema, ti: nat, h: nat)
    requires LegalRun(ABS_INITIAL, steps) && a == AbsRun(ABS_INITIAL, steps) && !a.open
    requires Run(Fresh(force1, dedup1), steps) == Some(c1)
    requires Run(Fresh(force2, dedup2), steps) == Some(c2)
    requires FitsTarget(sch, a.objs, Table(ti), h)
    requires h < |c1.offs| && IsAlign(c1.st.minalign) && c1.offs[h] <= |c1.st.bytes|
    requires h < |c2.offs| && IsAlign(c2.st.minalign) && c2.offs[h] <= |c2.st.bytes|
    requires b1 == Finish(c1.st, c1.offs[h], None, false).bytes && |b1| < MAX_BUFFER_SIZE
    requires b2 == Finish(c2.st, c2.offs[h], None, false).bytes && |b2| < MAX_BUFFER_SIZE
    ensures GetRoot(b1, 0).Some? && GetRoot(b2, 0).Some?
    ensures DecodeTable(sch, b1, ti, GetRoot(b1, 0).value).Some?
    ensures DecodeTable(sch, b1, ti, GetRoot(b1, 0).value) == DecodeTable(sch, b2, ti, GetRoot(b2, 0).value)
  {
    hide *;
    var tree := TreeOf(sch, a.objs, Table(ti), h);
    var lim, st := Limits(Depth(tree), Visits(tree)), Counters(0, 0);
    assert Room(lim, st, Depth(tree), Visits(tree)) by { RoomExactly(lim, st, Depth(tree), Visits(tree)); }
    NoIdentifier();
    FinishedBufferVerifies(force1, dedup1, steps, c1, a, sch, lim, ti, h, None, false, b1, tree, st);
    FinishedBufferVerifies(force2, dedup2, steps, c2, a, sch, lim, ti, h, None, false, b2, tree, st);
  }

  lemma {:induction false} RoomExactly(lim: Limits, st: Counters, depth: nat, visits: nat)
    requires lim == Limits(depth, visits) && st == Counters(0, 0)
    ensures Room(lim, st, depth, visits)
  {
  }

  lemma {:induction false} NoIdentifier()
    ensures IsIdentifier(None)
  {
  }
}
