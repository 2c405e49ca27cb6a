/** Whole runs on the FlatBufferBuilder object: it goes through the states of the machine on values, so
    everything proved about runs holds of the bytes in its memory. */
module FlatDrive {
  import opened Bytes
  import opened FlatReader
  import opened FlatSchema
  import opened FlatVerifier
  import opened FlatLayout
  import opened FlatObjects
  import opened FlatCreate
  import opened FlatTable
  import opened FlatEndTable
  import opened FlatRun
  import opened FlatTrees
  import opened FlatFinish
  import opened FlatRoom
  import opened FlatComplete
  import opened FlatVTables
  import opened FlatBuilder

  /** Reading remembered vtables never leaves the buffer. */
  lemma {:induction false} StepReadable(c: Conf, a: Abs, step: Step, c': Conf)
    requires Inv(c, a) && Legal(a, step) && Exec(c, step) == Some(c')
    requires VTablesReadable(c.st.bytes, c.st.vtables)
    ensures VTablesReadable(c'.st.bytes, c'.st.vtables)
  {
    hide Inv, Exec, VTablesReadable, Extends;
    StepExtends(c, a, step, c');
    VTablesGrow(Prefix(c'.st.bytes, c.st.bytes), c.st.bytes, c.st.vtables);
    if step == CallEndTable {
      EndTableReadable(c, a, c');
    } else {
      OtherStepsKeepVTables(c, step, c');
    }
  }

  lemma {:induction false} EndTableReadable(c: Conf, a: Abs, c': Conf)
    requires Inv(c, a) && a.open && Exec(c, CallEndTable) == Some(c')
    requires VTablesReadable(c'.st.bytes, c.st.vtables)
    ensures VTablesReadable(c'.st.bytes, c'.st.vtables)
  {
    hide Extends, CanEnd, EndTable, NewVTable, SharedVTable, PreAlign, TableLoc, VTableOf, Pending,
         ObjsInPlace, PoolExact, SameVTable, U;
    var (st', t) := EndTable(c.st, c.start);
    match SharedVTable(c.st, c.start)
    case Some(o) =>
      EndTableShared(c.st, c.start, st', t, o);
    case None =>
      EndTableNew(c.st, c.start, st', t);
      NewVTableAt(c.st, c.offs, c.start, a.pend, st'.bytes);
      assert VTableReadable(st'.bytes, |st'.bytes|);
  }

  lemma {:induction false} PendingFits(c: Conf, a: Abs)
    requires Inv(c, a) && a.open
    ensures FieldsFit(c.st, TableLoc(c.st)) && c.st.nested
  {
    hide ObjsInPlace, PoolExact, DistinctIds, U;
    forall k | 0 <= k < |c.st.fields|
      ensures c.st.fields[k].off <= TableLoc(c.st)
    {
      assert LocHolds(c.st.bytes, c.offs, c.st.fields[k], a.pend[c.st.fields[k].id], c.st.minalign);
    }
  }

  /** One call, on the object. */
  method Perform(b: FlatBufferBuilder, step: Step, offs: seq<nat>, start: nat, ghost c: Conf, ghost a: Abs)
    returns (offs': seq<nat>, start': nat)
    requires b.Valid() && b.State() == c.st && offs == c.offs && start == c.start
    requires Inv(c, a) && Legal(a, step) && VTablesReadable(c.st.bytes, c.st.vtables) && Exec(c, step).Some?
    modifies b, b.vec, b.vec.buf
    ensures b.Valid() && (fresh(b.vec.buf) || b.vec.buf == old(b.vec.buf))
    ensures Exec(c, step) == Some(Conf(b.State(), offs', start'))
  {
    hide Inv, FlatBufferBuilder.Valid, CreateString, CreateSharedString, CreateScalars, CreateOffsets, EndTable,
         AddScalar, AddOffset, VTablesReadable, FieldsFit, CanEnd;
    offs', start' := offs, start;
    if !a.open {
      ClosedNotNested(c, a);
    } else {
      PendingFits(c, a);
    }
    b.StateFlags();
    match step
    case CallString(s) =>
      var o := b.CreateString(s);
      offs' := offs + [o];
    case CallSharedString(s) =>
      var o := b.CreateSharedString(s);
      offs' := offs + [o];
    case CallScalars(n, xs) =>
      var o := b.CreateScalars(n, xs);
      offs' := offs + [o];
    case CallOffsets(hs) =>
      assert forall k :: 0 <= k < |hs| ==> ValidHandle(c, hs[k]);
      var o := b.CreateOffsets(Targets(offs, hs));
      offs' := offs + [o];
    case CallStartTable =>
      start' := b.StartTable();
    case CallAddElement(id, n, v, def) =>
      b.AddElement(id, n, v, def);
    case CallAddOffset(id, h) =>
      b.AddOffset(id, offs[h]);
    case CallEndTable =>
      var o := b.EndTable(start);
      offs' := offs + [o];
    case CallForceDefaults(on) => b.ForceDefaults(on);
    case CallDedupVtables(on) => b.DedupVtables(on);
  }

  lemma {:induction false} ClosedNotNested(c: Conf, a: Abs)
    requires Inv(c, a) && !a.open
    ensures !c.st.nested && c.st.fields == []
  {
  }

  lemma {:induction false} ReadableAtFirst(force: bool, dedup: bool)
    ensures VTablesReadable(Fresh(force, dedup).st.bytes, Fresh(force, dedup).st.vtables)
  {
  }

  /** Any sequence of calls, on the object. */
  method Drive(force: bool, dedup: bool, steps: seq<Step>) returns (b: FlatBufferBuilder, offs: seq<nat>)
    requires LegalRun(ABS_INITIAL, steps) && Run(Fresh(force, dedup), steps).Some?
    ensures fresh(b) && fresh(b.vec) && fresh(b.vec.buf) && b.Valid()
    ensures var c := Run(Fresh(force, dedup), steps).value; b.State() == c.st && offs == c.offs
  {
    hide Inv, FlatBufferBuilder.Valid, Exec, Legal, VTablesReadable;
    b := new FlatBufferBuilder(1024, 8);
    b.ForceDefaults(force);
    b.DedupVtables(dedup);
    var start: nat := 0;
    offs := [];
    var rest := steps;
    ghost var c, a := Fresh(force, dedup), ABS_INITIAL;
    FreshInv(force, dedup);
    ReadableAtFirst(force, dedup);
    while rest != []
      invariant fresh(b) && fresh(b.vec) && fresh(b.vec.buf) && b.Valid()
      invariant c == Conf(b.State(), offs, start)
      invariant Inv(c, a) && LegalRun(a, rest) && VTablesReadable(c.st.bytes, c.st.vtables)
      invariant Run(c, rest) == Run(Fresh(force, dedup), steps)
      decreases |rest|
    {
      ghost var c1 := Exec(c, rest[0]).value;
      StepInv(c, a, rest[0], c1);
      StepReadable(c, a, rest[0], c1);
      offs, start := Perform(b, rest[0], offs, start, c, a);
      c, a := c1, AbsStep(a, rest[0]);
      rest := rest[1..];
    }
  }

  /** The verifier accepts the buffer, and it decodes to this tree. */
  ghost predicate AcceptedAs(sch: Schema, lim: Limits, b: seq<byte>, ti: nat, start: nat, tree: FlatSchema.Tree)
  {
    && |b| < MAX_BUFFER_SIZE && GetRoot(b, start).Some?
    && DecodeTable(sch, b, ti, GetRoot(b, start).value) == Some(tree)
    && VerifyBufferFromStart(sch, lim, b, ti, start, Counters(0, 0)).0
  }

  /** Building a buffer and finishing it: the bytes in memory are accepted by the verifier and decode to
      the tree that was built. */
  method Serialize(
      force: bool, dedup: bool, steps: seq<Step>, h: nat, id: Option<seq<byte>>, sizePrefix: bool,
      ghost sch: Schema, ghost lim: Limits, ghost ti: nat)
    returns (buffer: seq<byte>)
    requires LegalRun(ABS_INITIAL, steps) && !AbsRun(ABS_INITIAL, steps).open
    requires Run(Fresh(force, dedup), steps).Some?
    requires FitsTarget(sch, AbsRun(ABS_INITIAL, steps).objs, Table(ti), h) && IsIdentifier(id)
    requires var c := Run(Fresh(force, dedup), steps).value;
      && h < |c.offs| && IsAlign(c.st.minalign) && c.offs[h] <= |c.st.bytes|
      && |Finish(c.st, c.offs[h], id, sizePrefix).bytes| < MAX_BUFFER_SIZE
    requires var tree := TreeOf(sch, AbsRun(ABS_INITIAL, steps).objs, Table(ti), h);
      Room(lim, Counters(0, 0), Depth(tree), Visits(tree))
    ensures AcceptedAs(sch, lim, buffer, ti, if sizePrefix then 4 else 0,
                       TreeOf(sch, AbsRun(ABS_INITIAL, steps).objs, Table(ti), h))
  {
    hide Inv, FlatBufferBuilder.Valid, FlatBufferBuilder.State, Finish, Run, LegalRun, AbsRun, FitsTarget, TreeOf, Depth, Visits,
         VerifyBufferFromStart, DecodeTable, GetRoot, Room, Fresh;
    ghost var a, c := AbsRun(ABS_INITIAL, steps), Run(Fresh(force, dedup), steps).value;
    var b, offs := Drive(force, dedup, steps);
    ClosedRun(force, dedup, steps, c, a, sch, ti, h);
    b.StateFlags();
    b.Finish(offs[h], id, sizePrefix);
    buffer := b.GetBuffer();
    FinishedBufferVerifies(force, dedup, steps, c, a, sch, lim, ti, h, id, sizePrefix, buffer,
                           TreeOf(sch, a.objs, Table(ti), h), Counters(0, 0));
  }

  /** After a run no table is open, and the root is an object in the buffer. */
  lemma {:induction false} ClosedRun(
      force: bool, dedup: bool, steps: seq<Step>, c: Conf, a: Abs, sch: Schema, ti: nat, h: nat)
    requires LegalRun(ABS_INITIAL, steps) && a == AbsRun(ABS_INITIAL, steps) && !a.open
    requires Run(Fresh(force, dedup), steps) == Some(c) && FitsTarget(sch, a.objs, Table(ti), h)
    ensures !c.st.nested && c.st.fields == [] && h < |c.offs| && 0 < c.offs[h]
  {
    hide Run, LegalRun, AbsRun, ObjReads, ObjAligned, PoolExact, VTablesInPlace;
    FreshInv(force, dedup);
    RunInv(Fresh(force, dedup), ABS_INITIAL, steps, c);
    FitsInside(sch, a.objs, Table(ti), h);
    assert ObjAt(c.st.bytes, c.offs, c.offs[h], a.objs[h], c.st.minalign);
  }
}
