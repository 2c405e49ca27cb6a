/** What an acceptable buffer is, said of the readers alone: the verifier accepts exactly that. */
module FlatWellFormed {
  import opened Bytes
  import opened FlatReader
  import opened FlatSchema
  import opened FlatVerifier
  import opened FlatSoundness
  import opened FlatRoom

  /** `n` bytes at index `i` are inside the buffer, and are not all of it. */
  predicate Inside(b: seq<byte>, i: int, n: nat)
  {
    0 <= i && i + n <= |b| && n < |b|
  }

  /** A length, an offset or a table start: four bytes on a multiple of 4. */
  predicate WordInside(b: seq<byte>, i: int)
  {
    i % 4 == 0 && Inside(b, i, 4)
  }

  /** A table starts on a multiple of 4; its vtable lies on a multiple of 2, has an even size and is
      inside from end to end. */
  predicate StartsWell(b: seq<byte>, t: int)
  {
    && WordInside(b, t)
    && VTableOf(b, t).Some?
    && var vt := VTableOf(b, t).value;
    && vt % 2 == 0 && Inside(b, vt, 2)
    && U(b, vt, 2).value % 2 == 0 && Inside(b, vt, U(b, vt, 2).value)
  }

  /** A vector of elements of `n` bytes: an aligned length, and all elements inside. */
  predicate WellFormedVector(b: seq<byte>, v: int, n: nat)
    requires n > 0
  {
    && WordInside(b, v)
    && VecSize(b, v).Some?
    && VecSize(b, v).value < 0x7FFF_FFFF / n
    && Inside(b, v, 4 + n * VecSize(b, v).value)
  }

  /** A string is a vector of characters that is terminated. */
  predicate WellFormedString(b: seq<byte>, s: int)
  {
    WellFormedVector(b, s, 1) && GetString(b, s).Some?
  }

  predicate WellFormedTable(sch: Schema, b: seq<byte>, ti: nat, t: int)
    decreases |b| - t, 2
  {
    && StartsWell(b, t)
    && forall k :: 0 <= k < |FieldsOf(sch, ti)| ==> WellFormedField(sch, b, FieldsOf(sch, ti)[k], t)
  }

  /** A field that is there is inside; one that is an offset is aligned and leads forward to something
      well formed; one that is required is there. */
  predicate WellFormedField(sch: Schema, b: seq<byte>, f: Field, t: int)
    decreases |b| - t, 1
  {
    var fo := FieldOffset(b, t, f.id);
    && fo.Some?
    && if fo.value == 0 then f.ty.Scalar? || !f.required
       else if f.ty.Scalar? then Inside(b, t + fo.value, f.ty.size)
       else
         && WordInside(b, t + fo.value)
         && var p := GetPointer(b, t, f.id);
         && p.Some? && p.value.At?
         && LeadsTo(b, t + fo.value, p.value.pos)
         && WellFormedTarget(sch, b, f.ty, p.value.pos)
  }

  /** Offsets are positive as signed numbers, and end inside. */
  predicate LeadsTo(b: seq<byte>, from: int, to: int)
  {
    from < to < from + 0x8000_0000 && Inside(b, to, 1)
  }

  predicate WellFormedTarget(sch: Schema, b: seq<byte>, ty: FieldType, p: int)
    requires !ty.Scalar?
    decreases |b| - p, 3
  {
    match ty
    case Str => WellFormedString(b, p)
    case ScalarVec(n) => WellFormedVector(b, p, n)
    case StrVec =>
      && WellFormedVector(b, p, 4)
      && forall i :: 0 <= i < VecSize(b, p).value ==>
           VecGetRef(b, p, i).Some? && WellFormedString(b, VecGetRef(b, p, i).value)
    case Table(ti) => WellFormedTable(sch, b, ti, p)
    case TableVec(ti) =>
      && WellFormedVector(b, p, 4)
      && forall i :: 0 <= i < VecSize(b, p).value ==>
           VecGetRef(b, p, i).Some? && WellFormedTable(sch, b, ti, VecGetRef(b, p, i).value)
  }

  /** A buffer whose root offset at `start` leads to a well-formed table of type `ti`. */
  predicate WellFormed(sch: Schema, b: seq<byte>, ti: nat, start: nat)
  {
    && WordInside(b, start)
    && GetRoot(b, start).Some?
    && LeadsTo(b, start, GetRoot(b, start).value)
    && WellFormedTable(sch, b, ti, GetRoot(b, start).value)
  }

  // ---------------------------------------------------------------------------------------------
  // The verifier accepts exactly that

  lemma {:induction false} StartIff(b: seq<byte>, t: nat)
    requires |b| < MAX_BUFFER_SIZE
    ensures VTableOk(b, t, true) <==> StartsWell(b, t)
  {
    hide FromLE;
    if WordInside(b, t) {
      assert Pow256(4) == 0x1_0000_0000;
      if VTableIndex(b, t) <= |b| {
        VTableIndexIsVTableOf(b, t);
      } else {
        assert VTableOf(b, t).value == t - Signed(U(b, t, 4).value, 4);
      }
    }
  }

  lemma {:induction false} VectorIff(b: seq<byte>, v: nat, n: nat)
    requires n > 0
    ensures VerifyVectorOrString(b, v, n) <==> WellFormedVector(b, v, n)
  {
    hide FromLE;
  }

  lemma {:induction false} StringIff(b: seq<byte>, s: nat)
    ensures VerifyString(b, s) <==> WellFormedString(b, s)
  {
    hide FromLE, VerifyVectorOrString, WellFormedVector;
    VectorIff(b, s, 1);
    if VerifyString(b, s) {
      StringSound(b, s);
    } else if WellFormedString(b, s) {
      StringEnds(b, s);
    }
  }

  lemma {:induction false} StringEnds(b: seq<byte>, s: nat)
    requires VerifyVectorOrString(b, s, 1) && GetString(b, s).Some?
    ensures VerifyString(b, s)
  {
    hide FromLE;
  }

  lemma {:induction false} StringsIff(b: seq<byte>, v: nat, i: nat, size: nat)
    requires i <= size && v + 4 + 4 * size <= |b|
    ensures forall j :: i <= j < size ==> VecGetRef(b, v, j).Some?
    ensures VerifyStrings(b, v, i, size)
       <==> forall j :: i <= j < size ==> WellFormedString(b, VecGetRef(b, v, j).value)
    decreases size - i
  {
    hide FromLE, VerifyString, WellFormedString;
    if i < size {
      StringIff(b, VecGetRef(b, v, i).value);
      StringsIff(b, v, i + 1, size);
    }
  }

  /** The tree read at the root of a table fits within the limits. */
  predicate Fits(lim: Limits, st: Counters, tree: Option<Tree>)
  {
    tree.Some? && Room(lim, st, Depth(tree.value), Visits(tree.value))
  }

  predicate AllFit(lim: Limits, st: Counters, trees: Option<seq<Tree>>)
  {
    trees.Some? && Room(lim, st, DepthAll(trees.value), VisitsAll(trees.value))
  }

  lemma {:induction false} RoomSplits(lim: Limits, st: Counters, x: Tree, rest: seq<Tree>)
    ensures Room(lim, st, DepthAll([x] + rest), VisitsAll([x] + rest))
       <==> (Room(lim, st, Depth(x), Visits(x))
             && Room(lim, Visited(st, Visits(x)), DepthAll(rest), VisitsAll(rest)))
  {
    assert ([x] + rest)[1..] == rest;
  }

  lemma {:induction false} RoomOfTable(lim: Limits, st: Counters, fields: seq<Tree>)
    ensures Room(lim, st, Depth(TableV(fields)), Visits(TableV(fields)))
       <==> Room(lim, Enter(st), DepthAll(fields), VisitsAll(fields))
    ensures Room(lim, st, Depth(TableV(fields)), Visits(TableV(fields))) ==> WithinLimits(lim, Enter(st))
  {
  }

  lemma {:induction false} TableIff(sch: Schema, lim: Limits, b: seq<byte>, ti: nat, t: nat, st: Counters)
    requires |b| < MAX_BUFFER_SIZE
    ensures VerifyTable(sch, lim, b, ti, t, st).0
       <==> WellFormedTable(sch, b, ti, t) && Fits(lim, st, DecodeTable(sch, b, ti, t))
    decreases |b| - t, 2, 0
  {
    hide VerifyFields, DecodeFields, VTableOk, StartsWell, VerifyAt, FieldOffset, VTableOf, Room,
         Depth, Visits, WellFormedField, WithinLimits;
    StartIff(b, t);
    if VTableOk(b, t, true) {
      FieldOffsetInBounds(b, t, 4);
      StartReadable(b, t);
      if DecodeFields(sch, b, ti, t, 0).Some? {
        RoomOfTable(lim, st, DecodeFields(sch, b, ti, t, 0).value);
      }
      if WithinLimits(lim, Enter(st)) {
        FieldsIff(sch, lim, b, ti, t, 0, Enter(st));
      }
    }
  }

  lemma {:induction false} StartReadable(b: seq<byte>, t: nat)
    requires |b| < MAX_BUFFER_SIZE && VTableOk(b, t, true)
    ensures VerifyAt(b, t, 4, true)
  {
  }

  lemma {:induction false} FieldsIff(
      sch: Schema, lim: Limits, b: seq<byte>, ti: nat, t: nat, k: nat, st: Counters)
    requires k <= |FieldsOf(sch, ti)| && |b| < MAX_BUFFER_SIZE
    requires VTableOk(b, t, true) && VTableOf(b, t).Some? && WithinLimits(lim, st)
    ensures VerifyFields(sch, lim, b, ti, t, k, st).0
       <==> ((forall j :: k <= j < |FieldsOf(sch, ti)| ==> WellFormedField(sch, b, FieldsOf(sch, ti)[j], t))
             && AllFit(lim, st, DecodeFields(sch, b, ti, t, k)))
    decreases |b| - t, 1, |FieldsOf(sch, ti)| - k
  {
    hide Room, VTableOk, VTableOf, VerifyField, DecodeField, Depth, Visits, DepthAll, VisitsAll, WellFormedField,
         WithinLimits;
    if k < |FieldsOf(sch, ti)| {
      var f := FieldsOf(sch, ti)[k];
      FieldIff(sch, lim, b, f, t, st);
      var x, rest := DecodeField(sch, b, f, t), DecodeFields(sch, b, ti, t, k + 1);
      if x.Some? && rest.Some? {
        RoomSplits(lim, st, x.value, rest.value);
      }
      if VerifyField(sch, lim, b, f, t, st).0 {
        FieldSound(sch, lim, b, f, t, st);
        RoomNow(lim, st, x.value);
        FieldsIff(sch, lim, b, ti, t, k + 1, VerifyField(sch, lim, b, f, t, st).1);
      }
    } else {
      EmptyRoom(lim, st);
    }
  }

  lemma {:induction false} FieldIff(sch: Schema, lim: Limits, b: seq<byte>, f: Field, t: nat, st: Counters)
    requires |b| < MAX_BUFFER_SIZE && VTableOk(b, t, true) && VTableOf(b, t).Some? && WithinLimits(lim, st)
    ensures VerifyField(sch, lim, b, f, t, st).0
       <==> WellFormedField(sch, b, f, t) && Fits(lim, st, DecodeField(sch, b, f, t))
    decreases |b| - t, 0, 0
  {
    hide *;
    FieldOffsetInBounds(b, t, f.id);
    var fo := FieldOffset(b, t, f.id).value;
    if f.ty.Scalar? || fo == 0 {
      InlineIff(sch, lim, b, f, t, st);
    } else {
      var o := VerifyOffset(b, t + fo);
      ReferenceIff(sch, lim, b, f, t, st, fo, o);
      if o != 0 {
        TargetIff(sch, lim, b, f.ty, t + fo + o, st);
      }
    }
  }

  lemma {:induction false} InlineIff(sch: Schema, lim: Limits, b: seq<byte>, f: Field, t: nat, st: Counters)
    requires |b| < MAX_BUFFER_SIZE && VTableOk(b, t, true) && VTableOf(b, t).Some? && WithinLimits(lim, st)
    requires f.ty.Scalar? || FieldOffset(b, t, f.id) == Some(0)
    ensures VerifyField(sch, lim, b, f, t, st).0
       <==> WellFormedField(sch, b, f, t) && Fits(lim, st, DecodeField(sch, b, f, t))
  {
    FieldOffsetInBounds(b, t, f.id);
    hide FieldOffset, VTableOk, FromLE;
  }

  /** An offset field is well formed if the offset is accepted and what it leads to is well formed. */
  lemma {:induction false} ReferenceIff(
      sch: Schema, lim: Limits, b: seq<byte>, f: Field, t: nat, st: Counters, fo: nat, o: nat)
    requires |b| < MAX_BUFFER_SIZE && VTableOk(b, t, true) && VTableOf(b, t).Some?
    requires !f.ty.Scalar? && FieldOffset(b, t, f.id) == Some(fo) && fo != 0
    requires VerifyOffset(b, t + fo) == o
    ensures o == 0 ==> !VerifyField(sch, lim, b, f, t, st).0 && !WellFormedField(sch, b, f, t)
    ensures o != 0 ==> VerifyField(sch, lim, b, f, t, st) == VerifyTarget(sch, lim, b, f.ty, t + fo + o, st)
    ensures o != 0 ==> DecodeField(sch, b, f, t) == DecodeTarget(sch, b, f.ty, t + fo + o)
    ensures o != 0 ==> (WellFormedField(sch, b, f, t) <==> WellFormedTarget(sch, b, f.ty, t + fo + o))
  {
    hide FieldOffset, VTableOk, VerifyTarget, DecodeTarget, WellFormedTarget, VerifyOffset, LeadsTo, WordInside, FromLE;
    OffsetIff(b, t + fo);
    if o != 0 {
      assert GetPointer(b, t, f.id) == Some(At(t + fo + o));
    }
  }

  lemma {:induction false} OffsetIff(b: seq<byte>, i: nat)
    ensures WordInside(b, i) ==> U(b, i, 4).Some?
    ensures VerifyOffset(b, i) != 0 <==> WordInside(b, i) && LeadsTo(b, i, i + U(b, i, 4).value)
    ensures VerifyOffset(b, i) != 0 ==> U(b, i, 4) == Some(VerifyOffset(b, i))
  {
    hide FromLE;
    assert Pow256(4) == 0x1_0000_0000;
  }

  lemma {:induction false} TargetIff(
      sch: Schema, lim: Limits, b: seq<byte>, ty: FieldType, p: nat, st: Counters)
    requires |b| < MAX_BUFFER_SIZE && !ty.Scalar? && WithinLimits(lim, st)
    ensures VerifyTarget(sch, lim, b, ty, p, st).0
       <==> WellFormedTarget(sch, b, ty, p) && Fits(lim, st, DecodeTarget(sch, b, ty, p))
    decreases |b| - p, 3, 0
  {
    hide VerifyTable, VerifyTables, VerifyString, VerifyStrings, VerifyVectorOrString, DecodeTable, DecodeTables,
         GetString, VecFrom, StringsFrom, WellFormedString, WellFormedVector, WellFormedTable;
    match ty
    case Table(ti) => TableIff(sch, lim, b, ti, p, st);
    case TableVec(ti) => TableVectorIff(sch, lim, b, ti, p, st);
    case Str =>
      StringIff(b, p);
      LeafIff(sch, lim, b, ty, p, st);
    case ScalarVec(n) =>
      VectorIff(b, p, n);
      LeafIff(sch, lim, b, ty, p, st);
    case StrVec =>
      VectorIff(b, p, 4);
      if VerifyVectorOrString(b, p, 4) {
        VectorInside(b, p, 4);
        StringsIff(b, p, 0, U(b, p, 4).value);
      }
      LeafIff(sch, lim, b, ty, p, st);
  }

  lemma {:induction false} VectorInside(b: seq<byte>, p: nat, n: nat)
    requires n > 0 && VerifyVectorOrString(b, p, n)
    ensures U(b, p, 4).Some? && p + 4 + n * U(b, p, 4).value <= |b|
  {
    hide FromLE;
  }

  /** What holds no tables needs no room. */
  lemma {:induction false} LeafIff(
      sch: Schema, lim: Limits, b: seq<byte>, ty: FieldType, p: nat, st: Counters)
    requires |b| < MAX_BUFFER_SIZE && WithinLimits(lim, st)
    requires !ty.Scalar? && !ty.Table? && !ty.TableVec?
    ensures VerifyTarget(sch, lim, b, ty, p, st).0 ==> Fits(lim, st, DecodeTarget(sch, b, ty, p))
  {
    hide GetString, VecFrom, StringsFrom, VerifyString, VerifyStrings, VerifyVectorOrString;
    if VerifyTarget(sch, lim, b, ty, p, st).0 {
      TargetSound(sch, lim, b, ty, p, st);
      NoRoom(lim, st, DecodeTarget(sch, b, ty, p).value);
    }
  }

  lemma {:induction false} TableVectorIff(
      sch: Schema, lim: Limits, b: seq<byte>, ti: nat, v: nat, st: Counters)
    requires |b| < MAX_BUFFER_SIZE && WithinLimits(lim, st)
    ensures VerifyTarget(sch, lim, b, TableVec(ti), v, st).0
       <==> WellFormedTarget(sch, b, TableVec(ti), v) && Fits(lim, st, DecodeTarget(sch, b, TableVec(ti), v))
    decreases |b| - v, 2, MAX_BUFFER_SIZE
  {
    hide VerifyTable, VerifyTables, VerifyVectorOrString, DecodeTable, DecodeTables, WellFormedVector, WellFormedTable,
         Room, DepthAll, VisitsAll;
    VectorIff(b, v, 4);
    if VerifyVectorOrString(b, v, 4) {
      VectorInside(b, v, 4);
      TablesIff(sch, lim, b, ti, v, 0, U(b, v, 4).value, st);
    }
  }

  lemma {:induction false} TablesIff(
      sch: Schema, lim: Limits, b: seq<byte>, ti: nat, v: nat, i: nat, size: nat, st: Counters)
    requires |b| < MAX_BUFFER_SIZE && i <= size && v + 4 + 4 * size <= |b| && WithinLimits(lim, st)
    ensures forall j :: i <= j < size ==> VecGetRef(b, v, j).Some?
    ensures VerifyTables(sch, lim, b, ti, v, i, size, st).0
       <==> ((forall j :: i <= j < size ==> WellFormedTable(sch, b, ti, VecGetRef(b, v, j).value))
             && AllFit(lim, st, DecodeTables(sch, b, ti, v, i, size)))
    decreases |b| - v, 2, size - i
  {
    hide Room, VerifyTable, DecodeTable, Depth, Visits, DepthAll, VisitsAll, WellFormedTable, WithinLimits, FromLE;
    if i < size {
      var p := VecGetRef(b, v, i).value;
      TableIff(sch, lim, b, ti, p, st);
      var x, rest := DecodeTable(sch, b, ti, p), DecodeTables(sch, b, ti, v, i + 1, size);
      if x.Some? && rest.Some? {
        RoomSplits(lim, st, x.value, rest.value);
      }
      var r := VerifyTable(sch, lim, b, ti, p, st);
      if r.0 {
        TableSound(sch, lim, b, ti, p, st);
        RoomNow(lim, st, x.value);
        TablesIff(sch, lim, b, ti, v, i + 1, size, r.1);
      }
    } else {
      EmptyRoom(lim, st);
    }
  }

  // ---------------------------------------------------------------------------------------------
  // What is well formed can be read

  lemma {:induction false} TableDecodes(sch: Schema, b: seq<byte>, ti: nat, t: nat)
    requires WellFormedTable(sch, b, ti, t)
    ensures DecodeTable(sch, b, ti, t).Some?
    decreases |b| - t, 2, 0
  {
    hide WellFormedField, DecodeFields, FromLE;
    FieldsDecode(sch, b, ti, t, 0);
  }

  lemma {:induction false} FieldsDecode(sch: Schema, b: seq<byte>, ti: nat, t: nat, k: nat)
    requires k <= |FieldsOf(sch, ti)| && VTableOf(b, t).Some?
    requires forall j :: k <= j < |FieldsOf(sch, ti)| ==> WellFormedField(sch, b, FieldsOf(sch, ti)[j], t)
    ensures DecodeFields(sch, b, ti, t, k).Some?
    decreases |b| - t, 1, |FieldsOf(sch, ti)| - k
  {
    hide WellFormedField, VTableOf, DecodeField;
    if k < |FieldsOf(sch, ti)| {
      FieldDecodes(sch, b, FieldsOf(sch, ti)[k], t);
      FieldsDecode(sch, b, ti, t, k + 1);
    }
  }

  lemma {:induction false} FieldDecodes(sch: Schema, b: seq<byte>, f: Field, t: nat)
    requires WellFormedField(sch, b, f, t) && VTableOf(b, t).Some?
    ensures DecodeField(sch, b, f, t).Some?
    decreases |b| - t, 0, 0
  {
    hide FromLE, VTableOf, FieldOffset, DecodeTarget, WellFormedTarget;
    if !f.ty.Scalar? && FieldOffset(b, t, f.id) != Some(0) {
      TargetDecodes(sch, b, f.ty, GetPointer(b, t, f.id).value.pos);
    }
  }

  lemma {:induction false} TargetDecodes(sch: Schema, b: seq<byte>, ty: FieldType, p: nat)
    requires !ty.Scalar? && WellFormedTarget(sch, b, ty, p)
    ensures DecodeTarget(sch, b, ty, p).Some?
    decreases |b| - p, 3, 0
  {
    hide GetString, VecFrom, StringsFrom, DecodeTable, DecodeTables, WellFormedTable, FromLE;
    match ty
    case Str =>
    case ScalarVec(n) => VecFromInRange(b, p, n, 0, U(b, p, 4).value);
    case StrVec => StringsDecode(b, p, 0, U(b, p, 4).value);
    case Table(ti) => TableDecodes(sch, b, ti, p);
    case TableVec(ti) => TablesDecode(sch, b, ti, p, 0, U(b, p, 4).value);
  }

  lemma {:induction false} StringsDecode(b: seq<byte>, v: nat, i: nat, size: nat)
    requires i <= size
    requires forall j :: i <= j < size ==>
      VecGetRef(b, v, j).Some? && WellFormedString(b, VecGetRef(b, v, j).value)
    ensures StringsFrom(b, v, i, size).Some?
    decreases size - i
  {
    hide GetString, WellFormedVector, VecGetRef;
    if i < size {
      StringsDecode(b, v, i + 1, size);
    }
  }

  lemma {:induction false} TablesDecode(sch: Schema, b: seq<byte>, ti: nat, v: nat, i: nat, size: nat)
    requires i <= size
    requires forall j :: i <= j < size ==>
      VecGetRef(b, v, j).Some? && WellFormedTable(sch, b, ti, VecGetRef(b, v, j).value)
    ensures DecodeTables(sch, b, ti, v, i, size).Some?
    decreases |b| - v, 2, size - i
  {
    hide WellFormedTable, DecodeTable, FromLE;
    if i < size {
      TableDecodes(sch, b, ti, VecGetRef(b, v, i).value);
      TablesDecode(sch, b, ti, v, i + 1, size);
    }
  }

  /** Well formed, and with room for its tables within the limits: for as many as there are, and for
      as deeply as they nest. */
  predicate Acceptable(sch: Schema, lim: Limits, b: seq<byte>, ti: nat, start: nat, st: Counters)
  {
    && WellFormed(sch, b, ti, start)
    && var tree := DecodeTable(sch, b, ti, GetRoot(b, start).value);
    && tree.Some?
    && st.depth + Depth(tree.value) <= lim.maxDepth && st.tables + Visits(tree.value) <= lim.maxTables
  }

  /** For every schema and every byte sequence: a buffer is accepted if and only if it is well formed
      and the limits leave room for the tables below its root. */
  lemma {:induction false} AcceptsIff(sch: Schema, lim: Limits, b: seq<byte>, ti: nat, start: nat, st: Counters)
    requires |b| < MAX_BUFFER_SIZE
    ensures WellFormed(sch, b, ti, start) ==> DecodeTable(sch, b, ti, GetRoot(b, start).value).Some?
    ensures VerifyBufferFromStart(sch, lim, b, ti, start, st).0
       <==> Acceptable(sch, lim, b, ti, start, st)
  {
    hide VerifyTable, DecodeTable, WellFormedTable, Depth, Visits, FromLE, LeadsTo, VerifyOffset;
    OffsetIff(b, start);
    if VerifyOffset(b, start) != 0 {
      TableIff(sch, lim, b, ti, start + VerifyOffset(b, start), st);
    }
    if WellFormed(sch, b, ti, start) {
      TableDecodes(sch, b, ti, GetRoot(b, start).value);
    }
  }

  /** The identifier, if one is asked for, is the four characters behind the root offset. */
  predicate Identified(b: seq<byte>, start: nat, id: Option<seq<byte>>)
    requires id.Some? && |b| >= 8 ==> start + 8 <= |b|
  {
    id.Some? ==> |b| >= 8 && b[start + 4..start + 8] == id.value
  }

  /** With an identifier of four characters, and behind a size prefix. */
  lemma {:induction false} IdentifiedIff(
      sch: Schema, lim: Limits, b: seq<byte>, id: Option<seq<byte>>, ti: nat, start: nat, st: Counters)
    requires |b| < MAX_BUFFER_SIZE && (id.Some? ==> |id.value| == 4 && (|b| >= 8 ==> start + 8 <= |b|))
    ensures VerifyIdentified(sch, lim, b, id, ti, start, st).0
       <==> Identified(b, start, id) && VerifyBufferFromStart(sch, lim, b, ti, start, st).0
  {
    hide VerifyBufferFromStart;
    if id.Some? {
      assert id.value[..4] == id.value;
    }
  }

  lemma {:induction false} SizePrefixedIff(
      sch: Schema, lim: Limits, b: seq<byte>, id: Option<seq<byte>>, ti: nat, st: Counters)
    requires |b| < MAX_BUFFER_SIZE && (id.Some? ==> |id.value| == 4 && (|b| >= 8 ==> 12 <= |b|))
    ensures VerifyPrefixedIdentified(sch, lim, b, id, ti, st).0
       <==> (|b| > 4 && U(b, 0, 4) == Some(|b| - 4) && Identified(b, 4, id)
             && VerifyBufferFromStart(sch, lim, b, ti, 4, st).0)
  {
    hide VerifyBufferFromStart, FromLE, Identified;
    IdentifiedIff(sch, lim, b, id, ti, 4, st);
  }
}
