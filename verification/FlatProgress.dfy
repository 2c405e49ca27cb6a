/** Runs do not get stuck: of the builder's assertions a legal run can only violate those on sizes. */
module FlatProgress {
  import opened Bytes
  import opened FlatLayout
  import opened FlatObjects
  import opened FlatCreate
  import opened FlatTable
  import opened FlatRun

  /** The sizes: a buffer below 2 GB, and tables below 64 KB. */
  predicate Roomy(c: Conf, step: Step)
  {
    match step
    case CallString(s) => |CreateString(c.st, s).0.bytes| < MAX_BUFFER_SIZE
    case CallSharedString(s) => |CreateString(c.st, s).0.bytes| < MAX_BUFFER_SIZE
    case CallScalars(n, xs) => |CreateScalars(c.st, n, xs).0.bytes| < MAX_BUFFER_SIZE
    case CallOffsets(hs) =>
      (forall k :: 0 <= k < |hs| ==> ValidHandle(c, hs[k])) ==>
        |CreateOffsets(c.st, Targets(c.offs, hs)).0.bytes| < MAX_BUFFER_SIZE
    case CallAddElement(id, n, v, def) => |AddScalar(c.st, id, n, v, def).bytes| < MAX_BUFFER_SIZE
    case CallAddOffset(id, h) => ValidHandle(c, h) ==> |AddOffset(c.st, id, c.offs[h]).bytes| < MAX_BUFFER_SIZE
    case CallEndTable =>
      && TableLoc(c.st) - c.start < 0x1_0000
      && TableLoc(c.st) < MAX_BUFFER_SIZE
      && (CanEnd(c.st, c.start) && SharedVTable(c.st, c.start).None? ==>
            TableLoc(c.st) + VTableSize(c.st) < MAX_BUFFER_SIZE)
    case _ => true
  }

  predicate RoomyRun(c: Conf, steps: seq<Step>)
    decreases |steps|
  {
    steps == [] ||
    (Roomy(c, steps[0]) && (Exec(c, steps[0]).Some? ==> RoomyRun(Exec(c, steps[0]).value, steps[1..])))
  }

  lemma {:induction false} HandlesValid(c: Conf, a: Abs, h: nat)
    requires Inv(c, a) && h < |a.objs|
    ensures ValidHandle(c, h)
  {
    assert ObjAt(c.st.bytes, c.offs, c.offs[h], a.objs[h], c.st.minalign);
  }

  lemma {:induction false} EndTableSize(c: Conf, a: Abs)
    requires Inv(c, a) && a.open && |c.st.bytes| < MAX_BUFFER_SIZE
    ensures DistinctIds(c.st.fields) && c.st.nested
    ensures CanEnd(c.st, c.start) <==> TableLoc(c.st) - c.start < 0x1_0000 && TableLoc(c.st) < 0x8000_0000
    ensures CanEnd(c.st, c.start) ==>
      (|EndTable(c.st, c.start).0.bytes|
       == TableLoc(c.st) + if SharedVTable(c.st, c.start).Some? then 0 else VTableSize(c.st))
    ensures Multiple(TableLoc(c.st), 4)
  {
    hide ObjsInPlace, PoolExact, LocHolds, PreAlign, FindVTable, VTableBytes, SameVTable;
    PreAlignFacts(c.st, 0, 4, PreAlign(c.st, 0, 4), |PreAlign(c.st, 0, 4).bytes|);
  }

  /** The other assertions hold in every legal run: nothing is nested, offsets refer to what is already
      in the buffer, and no field is set twice. */
  lemma {:induction false} StepSucceeds(c: Conf, a: Abs, step: Step)
    requires Inv(c, a) && Legal(a, step) && |c.st.bytes| < MAX_BUFFER_SIZE
    ensures Exec(c, step).Some? <==> Roomy(c, step)
  {
    hide ObjsInPlace, PoolExact, LocHolds, CreateString, CreateScalars, CreateOffsets, AddScalar, AddOffset, EndTable;
    match step
    case CallOffsets(hs) =>
      forall k | 0 <= k < |hs|
        ensures ValidHandle(c, hs[k])
      {
        HandlesValid(c, a, hs[k]);
      }
    case CallAddOffset(id, h) => HandlesValid(c, a, h);
    case CallEndTable =>
      EndTableSize(c, a);
    case _ =>
  }

  /** What the source asserts of sizes is a little less: `ensure_space` looks at the size before it makes room,
      so the last push of a string or a vector, its length, may end behind the limit. */
  predicate AssertionsHold(c: Conf, step: Step)
  {
    match step
    case CallString(s) => CreatedSize(c, step) - 4 < MAX_BUFFER_SIZE
    case CallSharedString(s) => CreatedSize(c, step) - 4 < MAX_BUFFER_SIZE
    case CallScalars(n, xs) => CreatedSize(c, step) - 4 < MAX_BUFFER_SIZE
    case CallOffsets(hs) => CreatedSize(c, step) - 4 < MAX_BUFFER_SIZE
    case _ => Roomy(c, step)
  }

  /** The size after a string or a vector was written. */
  function CreatedSize(c: Conf, step: Step): nat
  {
    match step
    case CallString(s) => |CreateString(c.st, s).0.bytes|
    case CallSharedString(s) => |CreateString(c.st, s).0.bytes|
    case CallScalars(n, xs) => |CreateScalars(c.st, n, xs).0.bytes|
    case CallOffsets(hs) =>
      if forall k :: 0 <= k < |hs| ==> ValidHandle(c, hs[k])
      then |CreateOffsets(c.st, Targets(c.offs, hs)).0.bytes| else 0
    case _ => 0
  }

  /** The difference is one size, two to the 31, at which nothing more can be written, and no buffer finished. */
  lemma {:induction false} AssertionsHoldIff(c: Conf, a: Abs, step: Step)
    requires Inv(c, a) && Legal(a, step)
    ensures AssertionsHold(c, step) <==> Roomy(c, step) || CreatedSize(c, step) == 0x8000_0000
  {
    hide Inv, PushScalar, Elems, PushRefs, PaddingBytes, AddScalar, AddOffset, EndTable, CanEnd, SharedVTable,
         TableLoc, VTableSize, LE, Zeros;
    match step
    case CallString(s) => LengthPushed(Push(PreAlign(c.st, |s| + 1, 4), s + [0]), |s|);
    case CallSharedString(s) => LengthPushed(Push(PreAlign(c.st, |s| + 1, 4), s + [0]), |s|);
    case CallScalars(n, xs) =>
      var len := |Elems(xs, n)|;
      LengthPushed(Push(PreAlign(PreAlign(c.st, len, 4), len, n), Elems(xs, n)), |xs|);
    case CallOffsets(hs) =>
      forall k | 0 <= k < |hs|
        ensures ValidHandle(c, hs[k])
      {
        HandlesValid(c, a, hs[k]);
      }
      var offs := Targets(c.offs, hs);
      LengthPushed(PushRefs(PreAlign(c.st, 4 * |offs|, 4), offs), |offs|);
    case _ =>
  }

  lemma {:induction false} LengthPushed(st: State, v: nat)
    ensures var n := |PushScalar(st, v, 4).bytes|; n - 4 < MAX_BUFFER_SIZE <==> n < MAX_BUFFER_SIZE || n == 0x8000_0000
  {
    hide PreAlign, Multiple;
    PreAlignFacts(st, 0, 4, PreAlign(st, 0, 4), |PreAlign(st, 0, 4).bytes|);
    NearLimit(|PreAlign(st, 0, 4).bytes|);
  }

  lemma {:induction false} NearLimit(n: nat)
    requires Multiple(n, 4)
    ensures n < MAX_BUFFER_SIZE <==> n + 4 < MAX_BUFFER_SIZE || n + 4 == 0x8000_0000
  {
  }

  lemma {:induction false} RunSucceeds(c: Conf, a: Abs, steps: seq<Step>)
    requires Inv(c, a) && LegalRun(a, steps) && |c.st.bytes| < MAX_BUFFER_SIZE
    ensures Run(c, steps).Some? <==> RoomyRun(c, steps)
    decreases |steps|
  {
    hide Inv;
    if steps != [] {
      StepSucceeds(c, a, steps[0]);
      if Exec(c, steps[0]).Some? {
        StepInv(c, a, steps[0], Exec(c, steps[0]).value);
        RunSucceeds(Exec(c, steps[0]).value, AbsStep(a, steps[0]), steps[1..]);
      }
    }
  }

  /** From a fresh builder; and whatever was created can then be the root of a finished buffer. */
  lemma {:induction false} LegalRunSucceeds(forceDefaults: bool, dedup: bool, steps: seq<Step>)
    requires LegalRun(ABS_INITIAL, steps)
    ensures Run(Fresh(forceDefaults, dedup), steps).Some? <==> RoomyRun(Fresh(forceDefaults, dedup), steps)
    ensures match Run(Fresh(forceDefaults, dedup), steps)
      case None => true
      case Some(c) =>
        && IsAlign(c.st.minalign) && |c.offs| == |AbsRun(ABS_INITIAL, steps).objs|
        && forall h :: 0 <= h < |c.offs| ==> ValidHandle(c, h)
  {
    var c0 := Fresh(forceDefaults, dedup);
    FreshInv(forceDefaults, dedup);
    RunSucceeds(c0, ABS_INITIAL, steps);
    match Run(c0, steps)
    case None =>
    case Some(c) =>
      var a := AbsRun(ABS_INITIAL, steps);
      RunInv(c0, ABS_INITIAL, steps, c);
      forall h | 0 <= h < |c.offs|
        ensures ValidHandle(c, h)
      {
        HandlesValid(c, a, h);
      }
  }

  /** A call that starts another object. */
  predicate BuildsAnew(step: Step)
  {
    step.CallString? || step.CallSharedString? || step.CallScalars? || step.CallOffsets? || step.CallStartTable?
  }

  /** What is not legal is refused: anything that is built inside a table, a table inside a table, the end
      of a table that was not started, and a table with a field that was stored twice. */
  lemma {:induction false} NestingRefused(c: Conf, a: Abs, step: Step)
    requires Inv(c, a)
    ensures a.open && BuildsAnew(step) ==> Exec(c, step).None?
    ensures !a.open && step.CallEndTable? ==> Exec(c, step).None?
    ensures step.CallEndTable? && !DistinctIds(c.st.fields) ==> Exec(c, step).None?
  {
    hide ObjsInPlace, PoolExact, Pending, CanEnd;
  }
}
