/** TestInfo tables, from the generated calls to the generated accessors. */
module TestInfo {
  import opened Bytes
  import opened FlatReader
  import opened FlatSchema
  import opened FlatVerifier
  import opened FlatLayout
  import opened FlatObjects
  import opened FlatTable
  import opened FlatRun
  import opened FlatTrees
  import opened FlatRoom
  import opened FlatComplete

  const VT_NAME: FieldId := 4
  const VT_LEVEL: FieldId := 6

  const SCHEMA: Schema := [[Field(VT_NAME, Str, false), Field(VT_LEVEL, Scalar(4, 0), false)]]

  predicate IsInt32(i: int)
  {
    -0x8000_0000 <= i < 0x8000_0000
  }

  function Bits32(i: int): (v: nat)
    requires IsInt32(i)
    ensures v < Pow256(4) && Signed(v, 4) == i
  {
    assert Pow256(4) == 0x1_0000_0000;
    TwosComplement(i, 4)
  }

  /** CreateTestInfoDirect: the string, if there is one, then the table, the level before the name. */
  function Calls(name: Option<seq<byte>>, level: int): seq<Step>
    requires IsInt32(level)
  {
    var add := CallAddElement(VT_LEVEL, 4, Bits32(level), 0);
    match name
    case Some(s) => [CallString(s), CallStartTable, add, CallAddOffset(VT_NAME, 0), CallEndTable]
    case None => [CallStartTable, add, CallEndTable]
  }

  function Root(name: Option<seq<byte>>): nat
  {
    if name.Some? then 1 else 0
  }

  /** The accessors of the root. */
  function Name(b: seq<byte>): Option<Option<seq<byte>>>
  {
    var t :- GetRoot(b, 0);
    var p :- GetPointer(b, t, VT_NAME);
    if p.Null? then Some(None)
    else
      var s :- GetString(b, p.pos);
      Some(Some(s))
  }

  function Level(b: seq<byte>): Option<int>
  {
    var t :- GetRoot(b, 0);
    var v :- GetField(b, t, VT_LEVEL, 4, 0);
    Some(Signed(v, 4))
  }

  function Objects(name: Option<seq<byte>>, level: int): seq<Obj>
    requires IsInt32(level)
  {
    var sc := Sc(4, Bits32(level), 0);
    match name
    case Some(s) => [OStr(s), OTable(map[VT_LEVEL := sc][VT_NAME := Ref(0)])]
    case None => [OTable(map[VT_LEVEL := sc])]
  }

  lemma {:induction false} CallsAreLegal(name: Option<seq<byte>>, level: int)
    requires IsInt32(level)
    ensures LegalRun(ABS_INITIAL, Calls(name, level))
    ensures AbsRun(ABS_INITIAL, Calls(name, level)) == Abs(Objects(name, level), {}, false, map[])
  {
    var add := CallAddElement(VT_LEVEL, 4, Bits32(level), 0);
    var a0 := ABS_INITIAL;
    match name
    case Some(s) =>
      var c1, c2 := [CallStartTable, add, CallAddOffset(VT_NAME, 0), CallEndTable],
                    [add, CallAddOffset(VT_NAME, 0), CallEndTable];
      var c3, c4: seq<Step> := [CallAddOffset(VT_NAME, 0), CallEndTable], [CallEndTable];
      assert Calls(name, level)[1..] == c1 && c1[1..] == c2 && c2[1..] == c3 && c3[1..] == c4;
      var a1 := AbsStep(a0, CallString(s));
      var a2 := AbsStep(a1, CallStartTable);
      var a3 := AbsStep(a2, add);
      var a4 := AbsStep(a3, CallAddOffset(VT_NAME, 0));
      LastCall(a4);
      assert AbsRun(a3, c3) == AbsRun(a4, c4) && LegalRun(a3, c3);
      assert AbsRun(a2, c2) == AbsRun(a3, c3) && LegalRun(a2, c2);
      assert AbsRun(a1, c1) == AbsRun(a2, c2) && LegalRun(a1, c1);
    case None =>
      var c2, c3: seq<Step> := [add, CallEndTable], [CallEndTable];
      assert Calls(name, level)[1..] == c2 && c2[1..] == c3;
      var a2 := AbsStep(a0, CallStartTable);
      var a3 := AbsStep(a2, add);
      LastCall(a3);
      assert AbsRun(a2, c2) == AbsRun(a3, c3) && LegalRun(a2, c2);
  }

  lemma {:induction false} LastCall(a: Abs)
    requires a.open
    ensures LegalRun(a, [CallEndTable]) && AbsRun(a, [CallEndTable]) == AbsStep(a, CallEndTable)
  {
    assert [CallEndTable][1..] == [];
  }

  function TreeOfInfo(name: Option<seq<byte>>, level: int): Tree
    requires IsInt32(level)
  {
    TableV([if name.Some? then StrV(name.value) else Absent, ScalarV(Bits32(level))])
  }

  /** Level 0 counts as absent in the table only; it reads as 0 all the same. */
  lemma {:induction false} ObjectsFit(name: Option<seq<byte>>, level: int)
    requires IsInt32(level)
    ensures FitsTarget(SCHEMA, Objects(name, level), Table(0), Root(name))
    ensures TreeOf(SCHEMA, Objects(name, level), Table(0), Root(name)) == TreeOfInfo(name, level)
    ensures Depth(TreeOfInfo(name, level)) == 1 && Visits(TreeOfInfo(name, level)) == 1
  {
    var objs, h := Objects(name, level), Root(name);
    var fs := FieldsOf(SCHEMA, 0);
    assert fs == [Field(VT_NAME, Str, false), Field(VT_LEVEL, Scalar(4, 0), false)];
    if name.Some? {
      assert FitsTarget(SCHEMA, objs, Str, 0);
    }
    assert FitsField(SCHEMA, objs, fs[0], h) && FitsField(SCHEMA, objs, fs[1], h);
    assert FitsTarget(SCHEMA, objs, Table(0), h);
    assert FieldTrees(SCHEMA, objs, 0, h, 2) == [];
    assert FieldTree(SCHEMA, objs, fs[1], h) == ScalarV(Bits32(level));
    assert FieldTrees(SCHEMA, objs, 0, h, 1) == [ScalarV(Bits32(level))];
    var first := if name.Some? then StrV(name.value) else Absent;
    assert FieldTree(SCHEMA, objs, fs[0], h) == first;
    assert FieldTrees(SCHEMA, objs, 0, h, 0) == [first] + [ScalarV(Bits32(level))];
    NoTablesBelow(first, ScalarV(Bits32(level)));
  }

  /** A table without tables below it. */
  lemma {:induction false} NoTablesBelow(x: Tree, y: Tree)
    requires (x.StrV? || x.Absent?) && y.ScalarV?
    ensures Depth(TableV([x, y])) == 1 && Visits(TableV([x, y])) == 1
  {
    var ts := [x, y];
    assert ts[1..] == [y] && [y][1..] == [];
    assert VisitsAll([y]) == 0 && DepthAll([y]) == 0;
    assert VisitsAll(ts) == 0 && DepthAll(ts) == 0;
  }

  /** What a decoded tree says about the accessors. */
  lemma {:induction false} DecodedAccessors(b: seq<byte>, name: Option<seq<byte>>, level: int)
    requires IsInt32(level) && GetRoot(b, 0).Some?
    requires DecodeTable(SCHEMA, b, 0, GetRoot(b, 0).value) == Some(TreeOfInfo(name, level))
    ensures Name(b) == Some(name) && Level(b) == Some(level)
    ensures HoldsInfo(b, GetRoot(b, 0).value, name, level)
  {
    hide GetField, GetPointer, GetString, U;
    var t := GetRoot(b, 0).value;
    var fs := FieldsOf(SCHEMA, 0);
    assert fs == [Field(VT_NAME, Str, false), Field(VT_LEVEL, Scalar(4, 0), false)];
    var all := DecodeFields(SCHEMA, b, 0, t, 0).value;
    assert DecodeField(SCHEMA, b, fs[0], t) == Some(all[0]);
    var rest := DecodeFields(SCHEMA, b, 0, t, 1).value;
    assert all == [all[0]] + rest;
    assert DecodeField(SCHEMA, b, fs[1], t) == Some(rest[0]) && rest[0] == all[1];
    assert all == TreeOfInfo(name, level).fields;
    NameField(b, t, name);
  }

  lemma {:induction false} NameField(b: seq<byte>, t: nat, name: Option<seq<byte>>)
    requires VTableOf(b, t).Some?
    requires DecodeField(SCHEMA, b, Field(VT_NAME, Str, false), t)
          == Some(if name.Some? then StrV(name.value) else Absent)
    ensures GetPointer(b, t, VT_NAME).Some?
    ensures match GetPointer(b, t, VT_NAME).value
      case Null => name.None?
      case At(i) => name.Some? && GetString(b, i) == name
  {
    hide GetPointer, GetString, VTableOf;
    match GetPointer(b, t, VT_NAME)
    case Some(Null) =>
    case Some(At(i)) =>
      assert DecodeTarget(SCHEMA, b, Str, i) == Some(if name.Some? then StrV(name.value) else Absent);
  }

  /** The name is in slot 4 and the level, with default 0, in slot 6 of the table at `t`. */
  ghost predicate HoldsInfo(b: seq<byte>, t: nat, name: Option<seq<byte>>, level: int)
  {
    && (match GetPointer(b, t, 4)
        case None => false
        case Some(Null) => name.None?
        case Some(At(p)) => name.Some? && GetString(b, p) == name)
    && (match GetField(b, t, 6, 4, 0)
        case None => false
        case Some(v) => Signed(v, 4) == level)
  }

  /** Every name and level: the finished buffer is accepted by the verifier, and the accessors return
      them, whether or not vtables are shared and defaults forced. */
  lemma {:induction false} TestInfoRoundTrip(
      force: bool, dedup: bool, name: Option<seq<byte>>, level: int, c: Conf, b: seq<byte>)
    requires IsInt32(level) && Run(Fresh(force, dedup), Calls(name, level)) == Some(c)
    requires Root(name) < |c.offs| && IsAlign(c.st.minalign) && c.offs[Root(name)] <= |c.st.bytes|
    requires b == Finish(c.st, c.offs[Root(name)], None, false).bytes && |b| < MAX_BUFFER_SIZE
    ensures Name(b) == Some(name) && Level(b) == Some(level)
    ensures GetRoot(b, 0).Some? && HoldsInfo(b, GetRoot(b, 0).value, name, level)
    ensures VerifyBufferFromStart(SCHEMA, Limits(64, 1000000), b, 0, 0, Counters(0, 0)) == (true, Counters(0, 1))
  {
    hide Run, Finish, Name, Level, VerifyBufferFromStart, GetRoot, DecodeTable, FitsTarget, TreeOf, Calls, Objects,
         LegalRun, AbsRun, Depth, Visits, TreeOfInfo, HoldsInfo;
    CallsAreLegal(name, level);
    ObjectsFit(name, level);
    NoIdentifier();
    var a := AbsRun(ABS_INITIAL, Calls(name, level));
    var tree := TreeOfInfo(name, level);
    OneTable(tree);
    FinishedBufferVerifies(force, dedup, Calls(name, level), c, a, SCHEMA, Limits(64, 1000000), 0, Root(name),
                           None, false, b, tree, Counters(0, 0));
    DecodedAccessors(b, name, level);
  }

  lemma {:induction false} OneTable(t: Tree)
    requires Depth(t) == 1 && Visits(t) == 1
    ensures Room(Limits(64, 1000000), Counters(0, 0), Depth(t), Visits(t))
  {
    hide Depth, Visits;
  }

  // ---------------------------------------------------------------------------------------------
  // Such a buffer can always be built, and is little longer than the name

  lemma {:induction false} PreAlignSize(st: State, len: nat, n: nat)
    requires IsAlign(n) && IsAlign(st.minalign)
    ensures |st.bytes| <= |PreAlign(st, len, n).bytes| < |st.bytes| + n && IsAlign(PreAlign(st, len, n).minalign)
    ensures PreAlign(st, len, n) == st.(bytes := PreAlign(st, len, n).bytes, minalign := PreAlign(st, len, n).minalign)
  {
    hide PaddingBytes;
  }

  lemma {:induction false} PushScalarSize4(st: State, v: nat, st': State)
    requires IsAlign(st.minalign) && st' == PushScalar(st, v, 4)
    ensures |st.bytes| + 4 <= |st'.bytes| < |st.bytes| + 8 && IsAlign(st'.minalign)
    ensures st' == st.(bytes := st'.bytes, minalign := st'.minalign)
  {
    hide PreAlign, LE;
    PreAlignSize(st, 0, 4);
  }

  lemma {:induction false} PushRefSize(st: State, off: nat, st': State)
    requires IsAlign(st.minalign) && off <= |st.bytes| && st' == PushRef(st, off)
    ensures |st.bytes| + 4 <= |st'.bytes| < |st.bytes| + 8 && IsAlign(st'.minalign)
    ensures st' == st.(bytes := st'.bytes, minalign := st'.minalign)
  {
    hide PreAlign, LE;
    PreAlignSize(st, 0, 4);
  }

  lemma {:induction false} CreateStringSize(st: State, s: seq<byte>, st': State, o: nat)
    requires IsAlign(st.minalign) && (st', o) == CreateString(st, s)
    ensures |st.bytes| + |s| + 5 <= |st'.bytes| < |st.bytes| + |s| + 12 && o == |st'.bytes| && IsAlign(st'.minalign)
    ensures st' == st.(bytes := st'.bytes, minalign := st'.minalign)
  {
    hide PreAlign, LE, PushScalar;
    PreAlignSize(st, |s| + 1, 4);
    var st1 := Push(PreAlign(st, |s| + 1, 4), s + [0]);
    PushScalarSize4(st1, |s|, st');
  }

  lemma {:induction false} EndTableSize(st: State, start: nat, st': State, t: nat)
    requires IsAlign(st.minalign) && CanEnd(st, start) && st.vtables == [] && (st', t) == EndTable(st, start)
    ensures |st.bytes| < t <= |st'.bytes| <= |st.bytes| + 8 + VTableSize(st) && IsAlign(st'.minalign)
    ensures !st'.nested && st'.fields == []
  {
    hide PreAlign, LE, NewVTable;
    PreAlignSize(st, 0, 4);
    assert SharedVTable(st, start).None?;
  }

  /** The state of a run, as far as sizes go: nothing is open, and all but the first `limit` bytes are free. */
  predicate Clean(c: Conf, limit: nat)
  {
    && !c.st.nested && c.st.fields == [] && c.st.vtables == [] && c.st.maxVoffset == 0
    && IsAlign(c.st.minalign) && |c.st.bytes| <= limit
  }

  function TableCalls(name: bool, level: int): seq<Step>
    requires IsInt32(level)
  {
    [CallStartTable, CallAddElement(VT_LEVEL, 4, Bits32(level), 0)]
    + (if name then [CallAddOffset(VT_NAME, 0)] else []) + [CallEndTable]
  }

  /** Before EndTable: at most two fields were added. */
  predicate Filled(c: Conf, c0: Conf, more: nat)
  {
    && c.st.nested && c.st.vtables == [] && c.start == |c0.st.bytes| && c.offs == c0.offs
    && IsAlign(c.st.minalign) && |c0.st.bytes| <= |c.st.bytes| <= |c0.st.bytes| + more
    && (c.st.maxVoffset == 0 || c.st.maxVoffset == 4 || c.st.maxVoffset == 6)
  }

  lemma {:induction false} LevelAdded(c: Conf, level: int) returns (c2: Conf)
    requires IsInt32(level) && Clean(c, MAX_BUFFER_SIZE - 64)
    ensures var c1 := Exec(c, CallStartTable);
      c1.Some? && Exec(c1.value, CallAddElement(VT_LEVEL, 4, Bits32(level), 0)) == Some(c2)
    ensures Filled(c2, c, 7) && DistinctIds(c2.st.fields)
    ensures forall k :: 0 <= k < |c2.st.fields| ==> c2.st.fields[k].id == VT_LEVEL
  {
    hide PushScalar;
    var c1 := Exec(c, CallStartTable).value;
    PushScalarSize4(c1.st, Bits32(level), PushScalar(c1.st, Bits32(level), 4));
    c2 := Exec(c1, CallAddElement(VT_LEVEL, 4, Bits32(level), 0)).value;
  }

  lemma {:induction false} NameAdded(c0: Conf, c: Conf) returns (c': Conf)
    requires Filled(c, c0, 7) && |c0.st.bytes| <= MAX_BUFFER_SIZE - 64 && ValidHandle(c0, 0)
    requires DistinctIds(c.st.fields) && forall k :: 0 <= k < |c.st.fields| ==> c.st.fields[k].id == VT_LEVEL
    ensures Exec(c, CallAddOffset(VT_NAME, 0)) == Some(c')
    ensures Filled(c', c0, 14) && DistinctIds(c'.st.fields)
  {
    hide PushRef;
    PushRefSize(c.st, c.offs[0], PushRef(c.st, c.offs[0]));
    c' := Exec(c, CallAddOffset(VT_NAME, 0)).value;
  }

  lemma {:induction false} TableEnded(c0: Conf, c: Conf) returns (c': Conf)
    requires Filled(c, c0, 14) && |c0.st.bytes| <= MAX_BUFFER_SIZE - 64 && DistinctIds(c.st.fields)
    ensures Exec(c, CallEndTable) == Some(c')
    ensures |c'.offs| == |c0.offs| + 1 && 0 < c'.offs[|c0.offs|] <= |c'.st.bytes| <= |c0.st.bytes| + 30
    ensures IsAlign(c'.st.minalign)
  {
    hide EndTable, PreAlign;
    PreAlignSize(c.st, 0, 4);
    assert CanEnd(c.st, c.start);
    var (st', t) := EndTable(c.st, c.start);
    EndTableSize(c.st, c.start, st', t);
    c' := Exec(c, CallEndTable).value;
  }

  lemma {:induction false} RunStep(c: Conf, step: Step, rest: seq<Step>, c': Conf)
    requires Exec(c, step) == Some(c')
    ensures Run(c, [step] + rest) == Run(c', rest)
  {
    hide Exec;
    assert ([step] + rest)[1..] == rest;
  }

  lemma {:induction false} RunNothing(c: Conf)
    ensures Run(c, []) == Some(c)
  {
  }

  lemma {:induction false} TableCallsSucceed(c: Conf, name: bool, level: int) returns (c': Conf)
    requires IsInt32(level) && Clean(c, MAX_BUFFER_SIZE - 64) && (name ==> ValidHandle(c, 0))
    ensures Run(c, TableCalls(name, level)) == Some(c')
    ensures |c'.offs| == |c.offs| + 1 && 0 < c'.offs[|c.offs|] <= |c'.st.bytes| <= |c.st.bytes| + 30
    ensures IsAlign(c'.st.minalign)
  {
    hide Exec, Run, Clean, Filled, DistinctIds, ValidHandle;
    var add := CallAddElement(VT_LEVEL, 4, Bits32(level), 0);
    var more: seq<Step> := if name then [CallAddOffset(VT_NAME, 0)] else [];
    CleanSize(c);
    var c2 := LevelAdded(c, level);
    var c1 := Exec(c, CallStartTable).value;
    var c3 := c2;
    if name {
      c3 := NameAdded(c, c2);
    } else {
      FilledMore(c2, c);
    }
    c' := TableEnded(c, c3);
    RunNothing(c');
    RunStep(c3, CallEndTable, [], c');
    assert [CallEndTable] + [] == [CallEndTable];
    if name {
      RunStep(c2, CallAddOffset(VT_NAME, 0), [CallEndTable], c3);
    }
    assert more + [CallEndTable] == (if name then [CallAddOffset(VT_NAME, 0)] + [CallEndTable] else [CallEndTable]);
    RunStep(c1, add, more + [CallEndTable], c2);
    RunStep(c, CallStartTable, [add] + (more + [CallEndTable]), c1);
    assert [CallStartTable] + ([add] + (more + [CallEndTable])) == TableCalls(name, level);
  }

  lemma {:induction false} CleanSize(c: Conf)
    requires Clean(c, MAX_BUFFER_SIZE - 64)
    ensures |c.st.bytes| <= MAX_BUFFER_SIZE - 64
  {
  }

  lemma {:induction false} FilledMore(c: Conf, c0: Conf)
    requires Filled(c, c0, 7)
    ensures Filled(c, c0, 14)
  {
  }

  lemma {:induction false} FinishSize(st: State, root: nat, st': State)
    requires IsAlign(st.minalign) && root <= |st.bytes| && st' == Finish(st, root, None, false)
    ensures |st'.bytes| <= |st.bytes| + 32
  {
    hide PreAlign, PushRef, LE;
    PreAlignSize(st, 4, st.minalign);
    PushRefSize(PreAlign(st, 4, st.minalign), root, PushRef(PreAlign(st, 4, st.minalign), root));
  }

  /** A name of any length that leaves the buffer below 2 GB can be built; the buffer is at most 80 bytes
      longer than the name. */
  lemma {:induction false} TestInfoBuilds(force: bool, dedup: bool, name: Option<seq<byte>>, level: int)
      returns (c: Conf)
    requires IsInt32(level) && (name.Some? ==> |name.value| < MAX_BUFFER_SIZE - 80)
    ensures Run(Fresh(force, dedup), Calls(name, level)) == Some(c)
    ensures Root(name) < |c.offs| && IsAlign(c.st.minalign) && 0 < c.offs[Root(name)] <= |c.st.bytes|
    ensures |Finish(c.st, c.offs[Root(name)], None, false).bytes|
         <= (if name.Some? then |name.value| else 0) + 80
    ensures |c.st.bytes| <= (if name.Some? then |name.value| else 0) + 42
  {
    hide Run, Finish, CreateString;
    var c0 := Fresh(force, dedup);
    match name {
      case None =>
        c := TableCallsSucceed(c0, false, level);
        assert Calls(name, level) == TableCalls(false, level);
      case Some(s) =>
        var (st1, o) := CreateString(c0.st, s);
        CreateStringSize(c0.st, s, st1, o);
        var c1 := Exec(c0, CallString(s)).value;
        c := TableCallsSucceed(c1, true, level);
        RunStep(c0, CallString(s), TableCalls(true, level), c1);
        assert Calls(name, level) == [CallString(s)] + TableCalls(true, level);
    }
    FinishSize(c.st, c.offs[Root(name)], Finish(c.st, c.offs[Root(name)], None, false));
  }
}
