/** Which fields a table stores, which it elides, and how large its vtable is. */
module FlatElision {
  import opened Bytes
  import opened FlatReader
  import opened FlatSchema
  import opened FlatLayout
  import opened FlatObjects
  import opened FlatCreate
  import opened FlatTable
  import opened FlatEndTable
  import opened FlatRun
  import opened FlatVTables
  import opened FlatFinish

  /** What the calls so far amount to: whether defaults are forced now, the fields stored in the open
      table, and the fields stored in each object (none in an object that is no table). */
  datatype Log = Log(force: bool, open: set<FieldId>, done: seq<set<FieldId>>)

  function LogStep(l: Log, step: Step): Log
  {
    match step
    case CallStartTable => l.(open := {})
    case CallAddElement(id, n, v, def) => if v == def && !l.force then l else l.(open := l.open + {id})
    case CallAddOffset(id, h) => l.(open := l.open + {id})
    case CallEndTable => l.(open := {}, done := l.done + [l.open])
    case CallForceDefaults(on) => l.(force := on)
    case CallDedupVtables(on) => l
    case _ => l.(done := l.done + [{}])
  }

  function LogRun(l: Log, steps: seq<Step>): Log
    decreases |steps|
  {
    if steps == [] then l else LogRun(LogStep(l, steps[0]), steps[1..])
  }

  /** A vtable of `size` bytes has room for the highest of these fields and no more. */
  predicate Compact(size: nat, stored: set<FieldId>)
  {
    if stored == {} then size == 4
    else size - 2 in stored && forall f :: f in stored ==> f + 2 <= size
  }

  /** The accessors find field `f` of the table at index `t` if it is one of these, and only then. */
  predicate Finds(b: seq<byte>, t: int, f: FieldId, stored: set<FieldId>)
  {
    FieldOffset(b, t, f).Some? && (FieldOffset(b, t, f) == Some(0) <==> f !in stored)
  }

  /** Among all fields, the table at distance `o` stores exactly these. */
  ghost predicate Stores(b: seq<byte>, o: nat, stored: set<FieldId>)
  {
    var t := |b| - o;
    && VTableOf(b, t).Some?
    && U(b, VTableOf(b, t).value, 2).Some?
    && Compact(U(b, VTableOf(b, t).value, 2).value, stored)
    && forall f: FieldId :: Finds(b, t, f, stored)
  }

  ghost predicate TablesStore(b: seq<byte>, offs: seq<nat>, objs: seq<Obj>, done: seq<set<FieldId>>)
  {
    && |done| == |objs| == |offs|
    && forall h :: 0 <= h < |objs| && objs[h].OTable? ==> Stores(b, offs[h], done[h])
  }

  predicate OpenStores(st: State, stored: set<FieldId>)
  {
    && (forall f: FieldId :: HasLoc(st.fields, f) <==> f in stored)
    && Compact(VTableSize(st), stored)
  }

  ghost predicate Logged(c: Conf, a: Abs, l: Log)
  {
    && c.st.forceDefaults == l.force
    && TablesStore(c.st.bytes, c.offs, a.objs, l.done)
    && (a.open ==> OpenStores(c.st, l.open))
  }

  lemma {:induction false} StoresGrows(b': seq<byte>, b: seq<byte>, o: nat, stored: set<FieldId>)
    requires Extends(b', b) && Stores(b, o, stored)
    ensures Stores(b', o, stored)
  {
    hide U, FieldOffset, VTableOf, Compact;
    var p, t, t' := Prefix(b', b), |b| - o, |b'| - o;
    VTableOfShift(p, b, t);
    VTableInside(b, t, o);
    UShift(p, b, VTableOf(b, t).value, 2);
    forall f: FieldId
      ensures Finds(b', t', f, stored)
    {
      assert Finds(b, t, f, stored);
      FieldOffsetShift(p, b, t, f);
    }
  }

  lemma {:induction false} VTableInside(b: seq<byte>, t: int, o: nat)
    requires VTableOf(b, t).Some? && U(b, VTableOf(b, t).value, 2).Some?
    ensures 0 <= VTableOf(b, t).value
  {
  }

  lemma {:induction false} TablesStoreGrow(b': seq<byte>, b: seq<byte>, offs: seq<nat>, objs: seq<Obj>, done: seq<set<FieldId>>)
    requires Extends(b', b) && TablesStore(b, offs, objs, done)
    ensures TablesStore(b', offs, objs, done)
  {
    hide Stores, Extends;
    forall h | 0 <= h < |objs| && objs[h].OTable?
      ensures Stores(b', offs[h], done[h])
    {
      StoresGrows(b', b, offs[h], done[h]);
    }
  }

  /** One more object. */
  lemma {:induction false} TablesStoreAppend(
      b': seq<byte>, b: seq<byte>, offs: seq<nat>, objs: seq<Obj>, done: seq<set<FieldId>>,
      o: nat, obj: Obj, stored: set<FieldId>)
    requires Extends(b', b) && TablesStore(b, offs, objs, done)
    requires obj.OTable? ==> Stores(b', o, stored)
    ensures TablesStore(b', offs + [o], objs + [obj], done + [stored])
  {
    hide Stores, Extends;
    TablesStoreGrow(b', b, offs, objs, done);
  }

  lemma {:induction false} TrackStores(st: State, st1: State, id: FieldId, stored: set<FieldId>)
    requires OpenStores(st, stored)
    requires st1.fields == st.fields && st1.maxVoffset == st.maxVoffset
    ensures OpenStores(TrackField(st1, id), stored + {id})
  {
    hide HasLoc;
    var st2 := TrackField(st1, id);
    forall f: FieldId
      ensures HasLoc(st2.fields, f) <==> f in stored + {id}
    {
      HasLocAppend(st.fields, FieldLoc(|st1.bytes|, id), f);
    }
    if stored == {} {
      assert st.maxVoffset <= 2;
    }
  }

  lemma {:induction false} NothingStored(st: State)
    requires st.fields == [] && st.maxVoffset == 0
    ensures OpenStores(st, {})
  {
  }

  /** EndTable: the slots of the finished table are the fields that were pending. */
  lemma {:induction false} LinkedStores(
      st: State, offs: seq<nat>, start: nat, pend: map<FieldId, FieldVal>,
      b: seq<byte>, t: nat, at: int, m: nat, stored: set<FieldId>)
    requires Pending(st, offs, start, pend) && CanEnd(st, start) && Linked(st, start, b, t, at, m)
    requires OpenStores(st, stored)
    ensures Stores(b, t, stored)
  {
    hide LocHolds, Slot, VTableOf, U, FieldOffset, PreAlign, Pending, CanEnd, HasLoc, Compact, NewVTable;
    var i := |b| - t;
    FieldOffsetOfLinked(st, offs, start, pend, b, t, at, m, 4);
    forall f: FieldId
      ensures Finds(b, i, f, stored)
    {
      FieldOffsetOfLinked(st, offs, start, pend, b, t, at, m, f);
      SlotFits(st, offs, start, pend, t, f);
    }
  }

  lemma {:induction false} EndTableStores(
      st: State, offs: seq<nat>, start: nat, pend: map<FieldId, FieldVal>, stored: set<FieldId>,
      st': State, t: nat)
    requires Pending(st, offs, start, pend) && CanEnd(st, start) && OpenStores(st, stored)
    requires (st', t) == EndTable(st, start)
    ensures Stores(st'.bytes, t, stored)
    ensures st'.forceDefaults == st.forceDefaults
  {
    hide Slot, VTableOf, U, FieldOffset, PreAlign, NewVTable, Extends, CanEnd, Multiple, Pending,
         Stores, OpenStores, SharedVTable, EndTable, VTableSize;
    TableLocAligned(st, TableLoc(st));
    match SharedVTable(st, start)
    case Some(o) =>
      EndTableShared(st, start, st', t, o);
      LinkedStores(st, offs, start, pend, st'.bytes, t, |st'.bytes| - o, st'.minalign, stored);
    case None =>
      EndTableNew(st, start, st', t);
      LinkedStores(st, offs, start, pend, st'.bytes, t, 0, st'.minalign, stored);
  }

  /** What the other steps do to the switch and to the open table: nothing. */
  lemma {:induction false} OtherStepsFrame(c: Conf, step: Step, c': Conf)
    requires Exec(c, step) == Some(c')
    requires !step.CallEndTable? && !step.CallAddElement? && !step.CallAddOffset?
    ensures c'.st.fields == c.st.fields && c'.st.maxVoffset == c.st.maxVoffset
    ensures c'.st.forceDefaults == if step.CallForceDefaults? then step.on else c.st.forceDefaults
  {
    match step
    case CallOffsets(hs) => PushRefsFields(PreAlign(c.st, 4 * |hs|, 4), Targets(c.offs, hs));
    case _ =>
  }

  lemma {:induction false} PushRefsFields(st: State, offs: seq<nat>)
    requires forall k :: 0 <= k < |offs| ==> offs[k] <= |st.bytes|
    ensures var st' := PushRefs(st, offs);
      st'.fields == st.fields && st'.maxVoffset == st.maxVoffset && st'.forceDefaults == st.forceDefaults
  {
    if offs != [] {
      PushRefsFields(st, offs[1..]);
    }
  }

  lemma {:induction false} AddElementLogged(st: State, id: FieldId, n: ScalarSize, v: nat, def: nat, l: Log)
    requires OpenStores(st, l.open) && st.forceDefaults == l.force
    ensures var st', l' := AddScalar(st, id, n, v, def), LogStep(l, CallAddElement(id, n, v, def));
      OpenStores(st', l'.open) && st'.forceDefaults == l.force
  {
    hide OpenStores;
    if v != def || st.forceDefaults {
      TrackStores(st, PushScalar(st, v, n), id, l.open);
    }
  }

  lemma {:induction false} AddOffsetLogged(st: State, id: FieldId, off: nat, stored: set<FieldId>)
    requires OpenStores(st, stored) && off <= |st.bytes|
    ensures OpenStores(AddOffset(st, id, off), stored + {id})
    ensures AddOffset(st, id, off).forceDefaults == st.forceDefaults
  {
    hide OpenStores;
    TrackStores(st, PushRef(st, off), id, stored);
  }

  lemma {:induction false} EndTableLogged(c: Conf, a: Abs, l: Log, c': Conf)
    requires Inv(c, a) && a.open && Exec(c, CallEndTable) == Some(c') && Logged(c, a, l)
    requires Extends(c'.st.bytes, c.st.bytes)
    ensures Logged(c', AbsStep(a, CallEndTable), LogStep(l, CallEndTable))
  {
    hide ObjsInPlace, PoolExact, VTablesInPlace, Pending, CanEnd, EndTable, OpenStores, Stores, TablesStore, Extends;
    var (st', t) := EndTable(c.st, c.start);
    EndTableStores(c.st, c.offs, c.start, a.pend, l.open, st', t);
    TablesStoreAppend(st'.bytes, c.st.bytes, c.offs, a.objs, l.done, t, OTable(a.pend), l.open);
  }

  lemma {:induction false} StepLogged(c: Conf, a: Abs, l: Log, step: Step, c': Conf)
    requires Inv(c, a) && Legal(a, step) && Exec(c, step) == Some(c') && Logged(c, a, l)
    ensures Logged(c', AbsStep(a, step), LogStep(l, step))
  {
    StepExtends(c, a, step, c');
    match step
    case CallEndTable => EndTableLogged(c, a, l, c');
    case CallAddElement(id, n, v, def) => FieldLogged(c, a, l, step, c');
    case CallAddOffset(id, h) => FieldLogged(c, a, l, step, c');
    case _ =>
      OtherStepsFrame(c, step, c');
      OtherLogged(c, a, l, step, c');
  }

  lemma {:induction false} FieldLogged(c: Conf, a: Abs, l: Log, step: Step, c': Conf)
    requires a.open && Exec(c, step) == Some(c') && Logged(c, a, l)
    requires step.CallAddElement? || step.CallAddOffset?
    requires Extends(c'.st.bytes, c.st.bytes)
    ensures Logged(c', AbsStep(a, step), LogStep(l, step))
  {
    hide OpenStores, Stores, TablesStore, Extends, AddScalar, AddOffset;
    TablesStoreGrow(c'.st.bytes, c.st.bytes, c.offs, a.objs, l.done);
    match step
    case CallAddElement(id, n, v, def) => AddElementLogged(c.st, id, n, v, def, l);
    case CallAddOffset(id, h) => AddOffsetLogged(c.st, id, c.offs[h], l.open);
  }

  lemma {:induction false} OtherLogged(c: Conf, a: Abs, l: Log, step: Step, c': Conf)
    requires Inv(c, a) && Legal(a, step) && Exec(c, step) == Some(c') && Logged(c, a, l)
    requires !step.CallEndTable? && !step.CallAddElement? && !step.CallAddOffset?
    requires Extends(c'.st.bytes, c.st.bytes)
    requires c'.st.fields == c.st.fields && c'.st.maxVoffset == c.st.maxVoffset
    requires c'.st.forceDefaults == if step.CallForceDefaults? then step.on else c.st.forceDefaults
    ensures Logged(c', AbsStep(a, step), LogStep(l, step))
  {
    hide ObjsInPlace, PoolExact, VTablesInPlace, Pending, Stores, TablesStore, Extends, CreateString,
         CreateSharedString, CreateScalars, CreateOffsets, Targets, ValidHandle;
    TablesStoreGrow(c'.st.bytes, c.st.bytes, c.offs, a.objs, l.done);
    var a', l' := AbsStep(a, step), LogStep(l, step);
    if |a'.objs| > |a.objs| {
      var o, obj := c'.offs[|c.offs|], a'.objs[|a.objs|];
      TablesStoreAppend(c'.st.bytes, c.st.bytes, c.offs, a.objs, l.done, o, obj, {});
    } else if step.CallStartTable? {
      NothingStored(c.st);
    }
  }

  lemma {:induction false} RunLogged(c: Conf, a: Abs, l: Log, steps: seq<Step>, c': Conf)
    requires Inv(c, a) && LegalRun(a, steps) && Run(c, steps) == Some(c') && Logged(c, a, l)
    ensures Logged(c', AbsRun(a, steps), LogRun(l, steps))
    decreases |steps|
  {
    if steps != [] {
      hide Inv, Logged, Exec, Legal, AbsStep, LogStep;
      var c1 := Exec(c, steps[0]).value;
      StepInv(c, a, steps[0], c1);
      StepLogged(c, a, l, steps[0], c1);
      RunLogged(c1, AbsStep(a, steps[0]), LogStep(l, steps[0]), steps[1..], c');
    }
  }

  // ---------------------------------------------------------------------------------------------
  // One call of AddElement or AddOffset, and the table it belongs to

  /** Whether defaults are forced after these calls: what ForceDefaults was last called with. */
  predicate Forced(initially: bool, steps: seq<Step>)
  {
    if steps == [] then initially
    else
      var last := steps[|steps| - 1];
      if last.CallForceDefaults? then last.on else Forced(initially, steps[..|steps| - 1])
  }

  lemma {:induction false} LogRunAppend(l: Log, xs: seq<Step>, ys: seq<Step>)
    ensures LogRun(l, xs + ys) == LogRun(LogRun(l, xs), ys)
    decreases |xs|
  {
    if xs == [] {
      assert xs + ys == ys;
    } else {
      assert (xs + ys)[1..] == xs[1..] + ys;
      LogRunAppend(LogStep(l, xs[0]), xs[1..], ys);
    }
  }

  lemma {:induction false} AbsRunAppend(a: Abs, xs: seq<Step>, ys: seq<Step>)
    ensures AbsRun(a, xs + ys) == AbsRun(AbsRun(a, xs), ys)
    ensures LegalRun(a, xs + ys) <==> LegalRun(a, xs) && LegalRun(AbsRun(a, xs), ys)
    decreases |xs|
  {
    hide AbsStep, Legal;
    if xs == [] {
      assert xs + ys == ys;
    } else {
      assert (xs + ys)[1..] == xs[1..] + ys;
      AbsRunAppend(AbsStep(a, xs[0]), xs[1..], ys);
    }
  }

  lemma {:induction false} LogForced(l: Log, steps: seq<Step>)
    ensures LogRun(l, steps).force == Forced(l.force, steps)
    decreases |steps|
  {
    if steps != [] {
      var front, last := steps[..|steps| - 1], steps[|steps| - 1];
      assert steps == front + [last];
      LogRunAppend(l, front, [last]);
      LogForced(l, front);
      assert LogRun(LogRun(l, front), [last]) == LogStep(LogRun(l, front), last);
    }
  }

  /** As many entries as objects. */
  lemma {:induction false} LogCounts(a: Abs, l: Log, steps: seq<Step>)
    requires |l.done| == |a.objs|
    ensures |LogRun(l, steps).done| == |AbsRun(a, steps).objs|
    decreases |steps|
  {
    if steps != [] {
      LogCounts(AbsStep(a, steps[0]), LogStep(l, steps[0]), steps[1..]);
    }
  }

  /** Until EndTable, a table stays open and what was decided about a field stands. */
  lemma {:induction false} InsideTable(a: Abs, l: Log, id: FieldId, inside: seq<Step>)
    requires a.open && id in a.pend && LegalRun(a, inside) && CallEndTable !in inside
    ensures AbsRun(a, inside).open && |AbsRun(a, inside).objs| == |a.objs|
    ensures LogRun(l, inside).done == l.done && (id in LogRun(l, inside).open <==> id in l.open)
    decreases |inside|
  {
    if inside != [] {
      assert inside[0] in inside;
      InsideTable(AbsStep(a, inside[0]), LogStep(l, inside[0]), id, inside[1..]);
    }
  }

  /** An entry stays as it is. */
  lemma {:induction false} EntryStays(a: Abs, l: Log, steps: seq<Step>, h: nat)
    requires h < |l.done| == |a.objs|
    ensures h < |LogRun(l, steps).done| && LogRun(l, steps).done[h] == l.done[h]
    ensures h < |AbsRun(a, steps).objs| && AbsRun(a, steps).objs[h] == a.objs[h]
    decreases |steps|
  {
    if steps != [] {
      EntryStays(AbsStep(a, steps[0]), LogStep(l, steps[0]), steps[1..], h);
    }
  }

  lemma {:induction false} FirstCall(a: Abs, l: Log, call: Step, rest: seq<Step>)
    ensures AbsRun(a, [call] + rest) == AbsRun(AbsStep(a, call), rest)
    ensures LogRun(l, [call] + rest) == LogRun(LogStep(l, call), rest)
    ensures LegalRun(a, [call] + rest) <==> Legal(a, call) && LegalRun(AbsStep(a, call), rest)
  {
    assert ([call] + rest)[1..] == rest;
  }

  /** The calls in question: those before, the one that adds a field, those up to EndTable, the rest. */
  function Calls(before: seq<Step>, call: Step, inside: seq<Step>, after: seq<Step>): seq<Step>
  {
    before + ([call] + (inside + ([CallEndTable] + after)))
  }

  /** Field `id` is in the entry of its table exactly if `call` put it there. */
  lemma {:induction false} EntryOfCall(
      l: Log, before: seq<Step>, call: Step, inside: seq<Step>, after: seq<Step>, id: FieldId)
    requires l.done == [] && CallEndTable !in inside
    requires LegalRun(ABS_INITIAL, Calls(before, call, inside, after))
    requires (call.CallAddElement? || call.CallAddOffset?) && call.id == id
    ensures var h, steps := |AbsRun(ABS_INITIAL, before).objs|, Calls(before, call, inside, after);
      && h < |LogRun(l, steps).done| == |AbsRun(ABS_INITIAL, steps).objs|
      && AbsRun(ABS_INITIAL, steps).objs[h].OTable?
      && (id in LogRun(l, steps).done[h] <==> id in LogStep(LogRun(l, before), call).open)
  {
    hide LogRun, AbsRun, LegalRun;
    var end := [CallEndTable] + after;
    LogRunAppend(l, before, [call] + (inside + end));
    AbsRunAppend(ABS_INITIAL, before, [call] + (inside + end));
    LogCounts(ABS_INITIAL, l, before);
    var a0, l0 := AbsRun(ABS_INITIAL, before), LogRun(l, before);
    FirstCall(a0, l0, call, inside + end);
    var a1, l1 := AbsStep(a0, call), LogStep(l0, call);
    LogRunAppend(l1, inside, end);
    AbsRunAppend(a1, inside, end);
    InsideTable(a1, l1, id, inside);
    var a2, l2 := AbsRun(a1, inside), LogRun(l1, inside);
    FirstCall(a2, l2, CallEndTable, after);
    LogCounts(ABS_INITIAL, l, Calls(before, call, inside, after));
    EntryStays(AbsStep(a2, CallEndTable), LogStep(l2, CallEndTable), after, |a0.objs|);
  }

  /** Before the call the field is not in the entry: no field is added twice. */
  lemma {:induction false} OnlyAdded(a: Abs, l: Log, steps: seq<Step>)
    requires LegalRun(a, steps) && (a.open ==> l.open <= a.pend.Keys)
    ensures AbsRun(a, steps).open ==> LogRun(l, steps).open <= AbsRun(a, steps).pend.Keys
    decreases |steps|
  {
    if steps != [] {
      OnlyAdded(AbsStep(a, steps[0]), LogStep(l, steps[0]), steps[1..]);
    }
  }

  /** A field that is added is elided exactly if it is a scalar that equals its default while defaults
      are not forced. */
  predicate Elided(call: Step, forced: bool)
  {
    call.CallAddElement? && call.v == call.def && !forced
  }

  lemma {:induction false} EntryIff(
      force: bool, before: seq<Step>, call: Step, inside: seq<Step>, after: seq<Step>, id: FieldId)
    requires LegalRun(ABS_INITIAL, Calls(before, call, inside, after)) && CallEndTable !in inside
    requires (call.CallAddElement? || call.CallAddOffset?) && call.id == id
    ensures var h, steps := |AbsRun(ABS_INITIAL, before).objs|, Calls(before, call, inside, after);
      && h < |LogRun(Log(force, {}, []), steps).done| == |AbsRun(ABS_INITIAL, steps).objs|
      && AbsRun(ABS_INITIAL, steps).objs[h].OTable?
      && (id in LogRun(Log(force, {}, []), steps).done[h] <==> !Elided(call, Forced(force, before)))
  {
    hide LogRun, AbsRun, LegalRun;
    var l, rest := Log(force, {}, []), inside + ([CallEndTable] + after);
    EntryOfCall(l, before, call, inside, after, id);
    LogForced(l, before);
    AbsRunAppend(ABS_INITIAL, before, [call] + rest);
    FirstCall(AbsRun(ABS_INITIAL, before), l, call, rest);
    OnlyAdded(ABS_INITIAL, l, before);
  }

  /** Over every run: in the finished buffer, the accessors find no slot for a field that was added if
      and only if it is a scalar that equals its default and defaults were not forced at that call. */
  lemma {:induction false} ElidedIff(
      force: bool, dedup: bool, before: seq<Step>, call: Step, inside: seq<Step>, after: seq<Step>,
      c: Conf, root: nat, ident: Option<seq<byte>>, sizePrefix: bool, b: seq<byte>)
    requires LegalRun(ABS_INITIAL, Calls(before, call, inside, after)) && CallEndTable !in inside
    requires call.CallAddElement? || call.CallAddOffset?
    requires Run(Fresh(force, dedup), Calls(before, call, inside, after)) == Some(c)
    requires IsIdentifier(ident) && root <= |c.st.bytes| && IsAlign(c.st.minalign)
    requires b == Finish(c.st, root, ident, sizePrefix).bytes
    ensures var h := |AbsRun(ABS_INITIAL, before).objs|;
      && h < |c.offs|
      && (FieldOffset(b, |b| - c.offs[h], call.id) == Some(0)
          <==> call.CallAddElement? && call.v == call.def && !Forced(force, before))
  {
    hide LogRun, AbsRun, LegalRun, Run, Finish, Extends, Inv, ObjAt, FieldOffset, Compact, Stores, Calls;
    var steps, h := Calls(before, call, inside, after), |AbsRun(ABS_INITIAL, before).objs|;
    var a, l := AbsRun(ABS_INITIAL, steps), LogRun(Log(force, {}, []), steps);
    EntryIff(force, before, call, inside, after, call.id);
    RunStores(force, dedup, steps, c, h);
    MinalignAtLeast4(c, a, h);
    FinishedObjects(c, a, root, ident, sizePrefix, b);
    StoresGrows(b, c.st.bytes, c.offs[h], l.done[h]);
    StoresFinds(b, c.offs[h], l.done[h], call.id);
  }

  lemma {:induction false} StoresFinds(b: seq<byte>, o: nat, stored: set<FieldId>, f: FieldId)
    requires Stores(b, o, stored)
    ensures FieldOffset(b, |b| - o, f) == Some(0) <==> f !in stored
  {
    hide Compact;
    assert Finds(b, |b| - o, f, stored);
  }

  /** Over every run, each table stores exactly the fields in its entry, in a vtable with room for the
      highest of them and no more. */
  lemma {:induction false} RunStores(force: bool, dedup: bool, steps: seq<Step>, c: Conf, h: nat)
    requires LegalRun(ABS_INITIAL, steps) && Run(Fresh(force, dedup), steps) == Some(c)
    requires h < |AbsRun(ABS_INITIAL, steps).objs| && AbsRun(ABS_INITIAL, steps).objs[h].OTable?
    ensures Inv(c, AbsRun(ABS_INITIAL, steps)) && h < |c.offs|
    ensures var l := LogRun(Log(force, {}, []), steps);
      h < |l.done| && Stores(c.st.bytes, c.offs[h], l.done[h])
  {
    hide Inv, LogRun, AbsRun, LegalRun, Run, Stores;
    FreshInv(force, dedup);
    RunInv(Fresh(force, dedup), ABS_INITIAL, steps, c);
    RunLogged(Fresh(force, dedup), ABS_INITIAL, Log(force, {}, []), steps, c);
  }

  /** The second word of a vtable, new or shared, is the size of the table: what was written between
      StartTable and EndTable, with the vtable link. */
  lemma {:induction false} TableSizeWord(
      st: State, offs: seq<nat>, start: nat, pend: map<FieldId, FieldVal>, st': State, t: nat)
    requires Pending(st, offs, start, pend) && CanEnd(st, start) && (st', t) == EndTable(st, start)
    ensures VTableOf(st'.bytes, |st'.bytes| - t).Some?
    ensures U(st'.bytes, VTableOf(st'.bytes, |st'.bytes| - t).value + 2, 2) == Some(t - start)
    ensures |st.bytes| + 4 <= t <= |st.bytes| + 7
  {
    hide Slots, VTableOf, U, PreAlign, Extends, Multiple, Pending, SharedVTable, EndTable;
    TableLocAligned(st, TableLoc(st));
    PreAlignFacts(st, 0, 4, PreAlign(st, 0, 4), |PreAlign(st, 0, 4).bytes|);
    ExtendsLength(PreAlign(st, 0, 4).bytes, st.bytes);
    var vt, n := NewVTable(st, start), |st'.bytes|;
    assert Pow256(2) == 0x1_0000;
    PendingEven(st, offs, start, pend);
    UAt(LE(VTableSize(st), 2), TableLoc(st) - start, 2, Slots(st.fields, TableLoc(st), 4, VTableSize(st)));
    match SharedVTable(st, start) {
      case Some(o) =>
        EndTableShared(st, start, st', t, o);
        UInSlice(st'.bytes, n - o, vt, 2, 2);
      case None =>
        EndTableNew(st, start, st', t);
        UInSlice(st'.bytes, 0, vt, 2, 2);
    }
  }

  lemma {:induction false} PendingEven(st: State, offs: seq<nat>, start: nat, pend: map<FieldId, FieldVal>)
    requires Pending(st, offs, start, pend)
    ensures 4 <= VTableSize(st) < 0x1_0000 && VTableSize(st) % 2 == 0
  {
    hide LocHolds;
    VTableSizeEven(st);
  }
}
