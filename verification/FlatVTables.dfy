/** The vtables the builder remembers, over whole runs. */
module FlatVTables {
  import opened Bytes
  import opened FlatReader
  import opened FlatSchema
  import opened FlatLayout
  import opened FlatObjects
  import opened FlatCreate
  import opened FlatTable
  import opened FlatEndTable
  import opened FlatRun

  /** Nothing that was serialized is ever touched again: every step only adds bytes in front. */
  lemma {:induction false} StepExtends(c: Conf, a: Abs, step: Step, c': Conf)
    requires Inv(c, a) && Legal(a, step) && Exec(c, step) == Some(c')
    ensures Extends(c'.st.bytes, c.st.bytes)
  {
    hide Inv, Extends, CreateString, CreateScalars, CreateOffsets, CreateSharedString, EndTable, AddScalar,
         AddOffset, PreAlign, Elems, CanEnd, SharedVTable, NewVTable, Pending, VTableOf;
    ExtendsItself(c.st.bytes);
    match step
    case CallString(s) =>
      CreateStringLayout(c.st, s, PreAlign(c.st, |s| + 1, 4), c'.st, CreateString(c.st, s).1);
    case CallSharedString(s) => SharedStringExtends(c.st, s);
    case CallScalars(n, xs) =>
      var e := Elems(xs, n);
      CreateScalarsLayout(c.st, n, xs, e, PreAlign(PreAlign(c.st, |e|, 4), |e|, n), c'.st,
                          CreateScalars(c.st, n, xs).1);
    case CallOffsets(hs) =>
      CreateOffsetsLayout(c.st, Targets(c.offs, hs), c'.st, CreateOffsets(c.st, Targets(c.offs, hs)).1);
    case CallStartTable =>
    case CallAddElement(id, n, v, def) => AddScalarExtends(c.st, id, n, v, def);
    case CallAddOffset(id, h) => AddOffsetExtends(c.st, id, c.offs[h], c'.st);
    case CallEndTable =>
      match SharedVTable(c.st, c.start) {
        case Some(o) => EndTableShared(c.st, c.start, c'.st, EndTable(c.st, c.start).1, o);
        case None => EndTableNew(c.st, c.start, c'.st, EndTable(c.st, c.start).1);
      }
    case CallForceDefaults(on) =>
    case CallDedupVtables(on) =>
  }

  lemma {:induction false} SharedStringExtends(st: State, s: seq<byte>)
    ensures Extends(CreateSharedString(st, s).0.bytes, st.bytes)
  {
    hide Extends, CreateString, PreAlign, FindString;
    ExtendsItself(st.bytes);
    var (st1, o) := CreateString(st, s);
    CreateStringLayout(st, s, PreAlign(st, |s| + 1, 4), st1, o);
  }

  lemma {:induction false} AddScalarExtends(st: State, id: FieldId, n: ScalarSize, v: nat, def: nat)
    ensures Extends(AddScalar(st, id, n, v, def).bytes, st.bytes)
  {
    hide Extends, PreAlign;
    ExtendsItself(st.bytes);
    var st0 := PreAlign(st, 0, n);
    PreAlignFacts(st, 0, n, st0, |st0.bytes|);
    PushExtends(LE(v, n), st0.bytes, st.bytes);
  }

  lemma {:induction false} AddOffsetExtends(st: State, id: FieldId, off: nat, st': State)
    requires off <= |st.bytes| && st' == AddOffset(st, id, off) && |st'.bytes| < MAX_BUFFER_SIZE
    ensures Extends(st'.bytes, st.bytes)
  {
    hide PushRef, Extends;
    PushRefHolds(st, PushRef(st, off), off);
  }

  /** The vtable at distance `o` from the end. */
  function VTableAt(b: seq<byte>, o: nat): seq<byte>
  {
    if o <= |b| && U(b, |b| - o, 2).Some? && U(b, |b| - o, 2).value <= o
    then b[|b| - o..|b| - o + U(b, |b| - o, 2).value] else []
  }

  /** Remembered vtables are strictly ordered by age, inside the buffer, and no two are the same. */
  ghost predicate VTablesDistinct(b: seq<byte>, vtables: seq<nat>)
  {
    && (forall i, j :: 0 <= i < j < |vtables| ==> vtables[i] < vtables[j])
    && (forall i :: 0 <= i < |vtables| ==> vtables[i] <= |b| && VTableAt(b, vtables[i]) != [])
    && (forall i, j :: 0 <= i < j < |vtables| ==> VTableAt(b, vtables[i]) != VTableAt(b, vtables[j]))
  }

  lemma {:induction false} VTableAtGrows(b': seq<byte>, b: seq<byte>, o: nat)
    requires Extends(b', b) && o <= |b|
    ensures VTableAt(b', o) == VTableAt(b, o)
  {
    hide U;
    ExtendsU(b', b, o, 2);
    if U(b, |b| - o, 2).Some? && U(b, |b| - o, 2).value <= o {
      SliceOfAppend(Prefix(b', b), b, |b| - o, U(b, |b| - o, 2).value);
    }
  }

  lemma {:induction false} DistinctGrows(b': seq<byte>, b: seq<byte>, vtables: seq<nat>)
    requires Extends(b', b) && VTablesDistinct(b, vtables)
    ensures VTablesDistinct(b', vtables)
  {
    hide VTableAt, Extends;
    ExtendsLength(b', b);
    forall i | 0 <= i < |vtables|
      ensures VTableAt(b', vtables[i]) == VTableAt(b, vtables[i])
    {
      VTableAtGrows(b', b, vtables[i]);
    }
  }

  lemma {:induction false} NotSameIsDifferent(b: seq<byte>, o: nat, vt: seq<byte>)
    requires vt != [] && !SameVTable(b, o, vt)
    ensures VTableAt(b, o) != vt
  {
  }

  lemma {:induction false} DistinctAppend(b: seq<byte>, vtables: seq<nat>, o: nat, vt: seq<byte>)
    requires VTablesDistinct(b, vtables) && o <= |b| && vt != [] && VTableAt(b, o) == vt
    requires forall i :: 0 <= i < |vtables| ==> vtables[i] < o && VTableAt(b, vtables[i]) != vt
    ensures VTablesDistinct(b, vtables + [o])
  {
    hide VTableAt;
  }

  lemma {:induction false} NewVTableAt(st: State, offs: seq<nat>, start: nat, pend: map<FieldId, FieldVal>, b: seq<byte>)
    requires Pending(st, offs, start, pend) && CanEnd(st, start)
    requires VTableSize(st) <= |b| && b[..VTableSize(st)] == NewVTable(st, start)
    ensures VTableAt(b, |b|) == NewVTable(st, start) != []
  {
    hide U, Slots, LocHolds, PreAlign;
    VTableSizeEven(st);
    TableLocAligned(st, TableLoc(st));
    var vt, size := NewVTable(st, start), VTableSize(st);
    UAt([], size, 2, LE(TableLoc(st) - start, 2) + Slots(st.fields, TableLoc(st), 4, size));
    assert vt == [] + LE(size, 2) + (LE(TableLoc(st) - start, 2) + Slots(st.fields, TableLoc(st), 4, size));
    assert Pow256(2) == 0x1_0000;
    UInSlice(b, 0, vt, 0, 2);
  }

  /** EndTable with deduplication on. A shared vtable is older than the table that uses it, so it is
      not recorded again; a new one differs from everything recorded before. */
  lemma {:induction false} EndTableVTables(c: Conf, a: Abs, c': Conf)
    requires Inv(c, a) && a.open && Exec(c, CallEndTable) == Some(c') && c.st.dedup
    requires VTablesDistinct(c.st.bytes, c.st.vtables)
    ensures VTablesDistinct(c'.st.bytes, c'.st.vtables)
    ensures c'.offs == c.offs + [TableLoc(c.st)]
    ensures forall o :: o in c.st.vtables ==> o < TableLoc(c.st)
  {
    hide Extends, CanEnd, EndTable, NewVTable, SharedVTable, PreAlign, TableLoc, VTableOf, VTableAt, Pending,
         ObjsInPlace, PoolExact, SameVTable;
    var (st', t) := EndTable(c.st, c.start);
    TableLocAligned(c.st, TableLoc(c.st));
    match SharedVTable(c.st, c.start)
    case Some(o) =>
      EndTableShared(c.st, c.start, st', t, o);
      DistinctGrows(st'.bytes, c.st.bytes, c.st.vtables);
    case None =>
      EndTableNew(c.st, c.start, st', t);
      DistinctGrows(st'.bytes, c.st.bytes, c.st.vtables);
      NewVTableAt(c.st, c.offs, c.start, a.pend, st'.bytes);
      NoneIsNew(c.st, c.start, st'.bytes);
      DistinctAppend(st'.bytes, c.st.vtables, |st'.bytes|, NewVTable(c.st, c.start));
  }

  lemma {:induction false} NoneIsNew(st: State, start: nat, b: seq<byte>)
    requires CanEnd(st, start) && st.dedup && SharedVTable(st, start) == None && Extends(b, st.bytes)
    requires forall o :: o in st.vtables ==> o <= |st.bytes|
    ensures forall o :: o in st.vtables ==> VTableAt(b, o) != NewVTable(st, start)
  {
    hide VTableAt, Extends, PreAlign, CanEnd, SameVTable;
    var st1, vt := PreAlign(st, 0, 4), NewVTable(st, start);
    PreAlignFacts(st, 0, 4, st1, |st1.bytes|);
    forall o | o in st.vtables
      ensures VTableAt(b, o) != vt
    {
      NotSameIsDifferent(st1.bytes, o, vt);
      VTableAtGrows(st1.bytes, st.bytes, o);
      VTableAtGrows(b, st.bytes, o);
    }
  }

  lemma {:induction false} OtherStepsKeepVTables(c: Conf, step: Step, c': Conf)
    requires Exec(c, step) == Some(c') && !step.CallEndTable?
    ensures c'.st.vtables == c.st.vtables
    ensures c.st.dedup && step != CallDedupVtables(false) ==> c'.st.dedup
    ensures !c.st.dedup && step != CallDedupVtables(true) ==> !c'.st.dedup
  {
    match step
    case CallOffsets(hs) =>
      PushRefsFrame(PreAlign(c.st, 4 * |hs|, 4), Targets(c.offs, hs));
    case _ =>
  }

  lemma {:induction false} PushRefsFrame(st: State, offs: seq<nat>)
    requires forall k :: 0 <= k < |offs| ==> offs[k] <= |st.bytes|
    ensures PushRefs(st, offs).vtables == st.vtables && PushRefs(st, offs).dedup == st.dedup
  {
    if offs != [] {
      PushRefsFrame(st, offs[1..]);
    }
  }

  lemma {:induction false} EndTableKeepsDedup(c: Conf, c': Conf)
    requires Exec(c, CallEndTable) == Some(c')
    ensures c'.st.dedup == c.st.dedup
  {
    hide SharedVTable, NewVTable, PreAlign;
    PreAlignFacts(c.st, 0, 4, PreAlign(c.st, 0, 4), |PreAlign(c.st, 0, 4).bytes|);
  }

  /** Over every run that never switches deduplication off, no vtable is ever recorded twice. */
  lemma {:induction false} RunVTablesDistinct(c: Conf, a: Abs, steps: seq<Step>, c': Conf)
    requires Inv(c, a) && LegalRun(a, steps) && Run(c, steps) == Some(c')
    requires c.st.dedup && VTablesDistinct(c.st.bytes, c.st.vtables)
    requires CallDedupVtables(false) !in steps
    ensures VTablesDistinct(c'.st.bytes, c'.st.vtables)
    decreases |steps|
  {
    if steps != [] {
      hide Inv, VTablesDistinct, Exec, Legal;
      var c1 := Exec(c, steps[0]).value;
      StepInv(c, a, steps[0], c1);
      if steps[0] == CallEndTable {
        LegalEndIsOpen(a);
        EndTableVTables(c, a, c1);
        EndTableKeepsDedup(c, c1);
      } else {
        StepExtends(c, a, steps[0], c1);
        OtherStepsKeepVTables(c, steps[0], c1);
        DistinctGrows(c1.st.bytes, c.st.bytes, c.st.vtables);
      }
      RunVTablesDistinct(c1, AbsStep(a, steps[0]), steps[1..], c');
    }
  }

  lemma {:induction false} LegalEndIsOpen(a: Abs)
    requires Legal(a, CallEndTable)
    ensures a.open
  {
  }

  /** With deduplication off every table gets a vtable of its own, right in front of it. */
  lemma {:induction false} OwnVTable(c: Conf, c': Conf)
    requires Exec(c, CallEndTable) == Some(c') && !c.st.dedup
    ensures c'.st.vtables == c.st.vtables + [|c'.st.bytes|] && !c'.st.dedup
    ensures VTableOf(c'.st.bytes, |c'.st.bytes| - TableLoc(c.st)) == Some(0)
    ensures |c'.st.bytes| == TableLoc(c.st) + VTableSize(c.st)
    ensures c'.offs == c.offs + [TableLoc(c.st)]
  {
    hide EndTable, NewVTable, PreAlign, TableLoc, VTableOf, Extends, VTableSize, DistinctIds;
    EndTableNew(c.st, c.start, EndTable(c.st, c.start).0, EndTable(c.st, c.start).1);
  }

  /** Whether deduplication is on after these calls: what DedupVtables was last called with. */
  predicate Deduplicates(initially: bool, steps: seq<Step>)
    decreases |steps|
  {
    if steps == [] then initially
    else Deduplicates(if steps[0].CallDedupVtables? then steps[0].on else initially, steps[1..])
  }

  /** Over every run the switch is what it was last set to. */
  lemma {:induction false} RunDeduplicates(c: Conf, steps: seq<Step>, c': Conf)
    requires Run(c, steps) == Some(c')
    ensures c'.st.dedup == Deduplicates(c.st.dedup, steps)
    decreases |steps|
  {
    if steps != [] {
      hide Exec;
      var c1 := Exec(c, steps[0]).value;
      if steps[0] == CallEndTable {
        EndTableKeepsDedup(c, c1);
      } else if steps[0].CallDedupVtables? {
        SwitchSet(c, steps[0].on, c1);
      } else {
        OtherStepsKeepVTables(c, steps[0], c1);
      }
      RunDeduplicates(c1, steps[1..], c');
    }
  }

  lemma {:induction false} SwitchSet(c: Conf, on: bool, c': Conf)
    requires Exec(c, CallDedupVtables(on)) == Some(c')
    ensures c'.st.dedup == on
  {
  }

  /** The number of tables that were finished. */
  function Tables(steps: seq<Step>): nat
  {
    if steps == [] then 0 else (if steps[0].CallEndTable? then 1 else 0) + Tables(steps[1..])
  }

  /** Over every run that never switches it on, there are as many vtables as tables. */
  lemma {:induction false} RunOwnVTables(c: Conf, steps: seq<Step>, c': Conf)
    requires Run(c, steps) == Some(c') && !c.st.dedup && CallDedupVtables(true) !in steps
    ensures |c'.st.vtables| == |c.st.vtables| + Tables(steps)
    decreases |steps|
  {
    if steps != [] {
      hide Exec;
      var c1 := Exec(c, steps[0]).value;
      if steps[0] == CallEndTable {
        OwnVTable(c, c1);
      } else {
        OtherStepsKeepVTables(c, steps[0], c1);
      }
      RunOwnVTables(c1, steps[1..], c');
    }
  }
}
