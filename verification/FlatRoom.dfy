/** The limits of the verifier: what it accepts had room within them. */
module FlatRoom {
  import opened Bytes
  import opened FlatReader
  import opened FlatSchema
  import opened FlatVerifier
  import opened FlatSoundness

  /** There is room for a tree within the limits, starting from these counters. */
  predicate Room(lim: Limits, st: Counters, depth: nat, visits: nat)
  {
    st.depth + depth <= lim.maxDepth && st.tables + visits <= lim.maxTables
  }

  lemma {:induction false} RoomAppend(lim: Limits, st: Counters, x: Tree, rest: seq<Tree>)
    requires Room(lim, st, Depth(x), Visits(x))
    requires Room(lim, Visited(st, Visits(x)), DepthAll(rest), VisitsAll(rest))
    ensures Room(lim, st, DepthAll([x] + rest), VisitsAll([x] + rest))
  {
    assert ([x] + rest)[1..] == rest;
  }

  lemma {:induction false} RoomNow(lim: Limits, st: Counters, x: Tree)
    requires Room(lim, st, Depth(x), Visits(x))
    ensures WithinLimits(lim, Visited(st, Visits(x)))
  {
  }

  /** No table, no room needed. */
  lemma {:induction false} NoRoom(lim: Limits, st: Counters, x: Tree)
    requires WithinLimits(lim, st) && !x.TableV? && !x.TableVecV?
    ensures Room(lim, st, Depth(x), Visits(x))
  {
  }

  lemma {:induction false} TableHasRoom(
      sch: Schema, lim: Limits, b: seq<byte>, ti: nat, t: nat, st: Counters)
    requires |b| < MAX_BUFFER_SIZE && VerifyTable(sch, lim, b, ti, t, st).0
    ensures DecodeTable(sch, b, ti, t).Some?
    ensures Room(lim, st, Depth(DecodeTable(sch, b, ti, t).value), Visits(DecodeTable(sch, b, ti, t).value))
    decreases |b| - t, 2, 0
  {
    hide VerifyFields, DecodeFields, VTableOk, VerifyAt, FieldOffset, VTableOf;
    FieldOffsetInBounds(b, t, 4);
    FieldsSound(sch, lim, b, ti, t, 0, Enter(st));
    FieldsHaveRoom(sch, lim, b, ti, t, 0, Enter(st));
    assert DecodeTable(sch, b, ti, t) == Some(TableV(DecodeFields(sch, b, ti, t, 0).value));
  }

  lemma {:induction false} FieldsHaveRoom(
      sch: Schema, lim: Limits, b: seq<byte>, ti: nat, t: nat, k: nat, st: Counters)
    requires k <= |FieldsOf(sch, ti)| && |b| < MAX_BUFFER_SIZE
    requires VTableOk(b, t, true) && VTableOf(b, t).Some? && WithinLimits(lim, st)
    requires VerifyFields(sch, lim, b, ti, t, k, st).0
    ensures DecodeFields(sch, b, ti, t, k).Some?
    ensures Room(lim, st, DepthAll(DecodeFields(sch, b, ti, t, k).value), VisitsAll(DecodeFields(sch, b, ti, t, k).value))
    decreases |b| - t, 1, |FieldsOf(sch, ti)| - k
  {
    hide Room, VTableOk, VTableOf, VerifyField, DecodeField, Depth, Visits;
    FieldsSound(sch, lim, b, ti, t, k, st);
    if k < |FieldsOf(sch, ti)| {
      var f := FieldsOf(sch, ti)[k];
      var st1 := VerifyField(sch, lim, b, f, t, st).1;
      FieldSound(sch, lim, b, f, t, st);
      FieldHasRoom(sch, lim, b, f, t, st);
      RoomNow(lim, st, DecodeField(sch, b, f, t).value);
      FieldsHaveRoom(sch, lim, b, ti, t, k + 1, st1);
      RoomAppend(lim, st, DecodeField(sch, b, f, t).value, DecodeFields(sch, b, ti, t, k + 1).value);
    } else {
      EmptyRoom(lim, st);
    }
  }

  lemma {:induction false} EmptyRoom(lim: Limits, st: Counters)
    requires WithinLimits(lim, st)
    ensures Room(lim, st, DepthAll([]), VisitsAll([]))
  {
  }

  lemma {:induction false} FieldHasRoom(
      sch: Schema, lim: Limits, b: seq<byte>, f: Field, t: nat, st: Counters)
    requires |b| < MAX_BUFFER_SIZE && VTableOk(b, t, true) && VTableOf(b, t).Some? && WithinLimits(lim, st)
    requires VerifyField(sch, lim, b, f, t, st).0
    ensures DecodeField(sch, b, f, t).Some?
    ensures Room(lim, st, Depth(DecodeField(sch, b, f, t).value), Visits(DecodeField(sch, b, f, t).value))
    decreases |b| - t, 0, 0
  {
    hide *;
    FieldOffsetInBounds(b, t, f.id);
    FieldSound(sch, lim, b, f, t, st);
    var fo := FieldOffset(b, t, f.id).value;
    if f.ty.Scalar? || fo == 0 {
      InlineIsLeaf(sch, b, f, t);
      NoRoom(lim, st, DecodeField(sch, b, f, t).value);
    } else {
      var o := VerifyOffset(b, t + fo);
      FollowOffset(sch, lim, b, f, t, st, fo, o);
      TargetHasRoom(sch, lim, b, f.ty, t + fo + o, st);
    }
  }

  lemma {:induction false} InlineIsLeaf(sch: Schema, b: seq<byte>, f: Field, t: nat)
    requires VTableOf(b, t).Some? && (f.ty.Scalar? || FieldOffset(b, t, f.id) == Some(0))
    requires DecodeField(sch, b, f, t).Some?
    ensures !DecodeField(sch, b, f, t).value.TableV? && !DecodeField(sch, b, f, t).value.TableVecV?
  {
    hide FieldOffset;
  }

  lemma {:induction false} TargetHasRoom(
      sch: Schema, lim: Limits, b: seq<byte>, ty: FieldType, p: nat, st: Counters)
    requires |b| < MAX_BUFFER_SIZE && !ty.Scalar? && WithinLimits(lim, st)
    requires VerifyTarget(sch, lim, b, ty, p, st).0
    ensures DecodeTarget(sch, b, ty, p).Some?
    ensures Room(lim, st, Depth(DecodeTarget(sch, b, ty, p).value), Visits(DecodeTarget(sch, b, ty, p).value))
    decreases |b| - p, 3, 0
  {
    hide VerifyTable, VerifyTables, DecodeTable, DecodeTables, GetString, VecFrom, StringsFrom;
    TargetSound(sch, lim, b, ty, p, st);
    match ty
    case Table(ti) => TableHasRoom(sch, lim, b, ti, p, st);
    case TableVec(ti) => TablesHaveRoom(sch, lim, b, ti, p, 0, U(b, p, 4).value, st);
    case Str => NoRoom(lim, st, DecodeTarget(sch, b, ty, p).value);
    case ScalarVec(n) => NoRoom(lim, st, DecodeTarget(sch, b, ty, p).value);
    case StrVec => NoRoom(lim, st, DecodeTarget(sch, b, ty, p).value);
  }

  lemma {:induction false} TablesHaveRoom(
      sch: Schema, lim: Limits, b: seq<byte>, ti: nat, v: nat, i: nat, size: nat, st: Counters)
    requires |b| < MAX_BUFFER_SIZE && i <= size && v + 4 + 4 * size <= |b| && WithinLimits(lim, st)
    requires VerifyTables(sch, lim, b, ti, v, i, size, st).0
    ensures DecodeTables(sch, b, ti, v, i, size).Some?
    ensures Room(lim, st, DepthAll(DecodeTables(sch, b, ti, v, i, size).value),
                 VisitsAll(DecodeTables(sch, b, ti, v, i, size).value))
    decreases |b| - v, 2, size - i
  {
    hide Room, VerifyTable, DecodeTable, Depth, Visits;
    TablesSound(sch, lim, b, ti, v, i, size, st);
    if i < size {
      var p := VecGetRef(b, v, i).value;
      var st1 := VerifyTable(sch, lim, b, ti, p, st).1;
      TableSound(sch, lim, b, ti, p, st);
      TableHasRoom(sch, lim, b, ti, p, st);
      RoomNow(lim, st, DecodeTable(sch, b, ti, p).value);
      TablesHaveRoom(sch, lim, b, ti, v, i + 1, size, st1);
      RoomAppend(lim, st, DecodeTable(sch, b, ti, p).value, DecodeTables(sch, b, ti, v, i + 1, size).value);
    } else {
      EmptyRoom(lim, st);
    }
  }

  /** Any buffer that is accepted: its depth and its number of tables are within the limits. */
  lemma {:induction false} AcceptedHasRoom(
      sch: Schema, lim: Limits, b: seq<byte>, ti: nat, start: nat, st: Counters)
    requires |b| < MAX_BUFFER_SIZE && VerifyBufferFromStart(sch, lim, b, ti, start, st).0
    ensures GetRoot(b, start).Some?
    ensures var root := GetRoot(b, start).value;
      && DecodeTable(sch, b, ti, root).Some?
      && var tree := DecodeTable(sch, b, ti, root).value;
      && Room(lim, st, Depth(tree), Visits(tree))
  {
    hide VerifyTable, DecodeTable;
    TableHasRoom(sch, lim, b, ti, start + VerifyOffset(b, start), st);
  }
}
