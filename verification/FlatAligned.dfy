/** Natural alignment of finished buffers, stated by indices. */
module FlatAligned {
  import opened Bytes
  import opened FlatReader
  import opened FlatSchema
  import opened FlatLayout
  import opened FlatObjects
  import opened FlatCreate
  import opened FlatRun
  import opened FlatFinish

  /** The value of a field is at a multiple of its size. */
  predicate FieldPlaced(index: int, x: FieldVal)
  {
    match x
    case Sc(n, v, def) => Multiple(index, n)
    case Ref(h) => Multiple(index, 4)
  }

  /** The object at index `i`: lengths, offsets and vtable links on multiples of 4, every scalar on a
      multiple of its size, and the vtable on a multiple of 2. */
  ghost predicate NaturallyAligned(b: seq<byte>, i: int, obj: Obj)
  {
    && Multiple(i, 4)
    && match obj
       case OScalars(n, xs) => Multiple(i + 4, n)
       case OTable(fs) =>
         && VTableOf(b, i).Some? && Multiple(VTableOf(b, i).value, 2)
         && forall f: FieldId :: f in fs && FieldOffset(b, i, f).Some? && FieldOffset(b, i, f).value != 0
              ==> FieldPlaced(i + FieldOffset(b, i, f).value, fs[f])
       case _ => true
  }

  lemma {:induction false} AlignedByIndex(b: seq<byte>, offs: seq<nat>, o: nat, obj: Obj, m: nat)
    requires ObjAt(b, offs, o, obj, m) && IsAlign(m) && Multiple(|b|, m)
    ensures NaturallyAligned(b, |b| - o, obj)
  {
    hide ObjReads, VTableOf, FieldOffset, U, Multiple;
    var i := |b| - o;
    IndexAligned(|b|, m, o, 4, i);
    match obj
    case OScalars(n, xs) => IndexAligned(|b|, m, o - 4, n, i + 4);
    case OTable(fs) =>
      var vt := VTableOf(b, i).value;
      VTableAligned(|b|, m, vt);
      forall f: FieldId | f in fs && FieldOffset(b, i, f).Some? && FieldOffset(b, i, f).value != 0
        ensures FieldPlaced(i + FieldOffset(b, i, f).value, fs[f])
      {
        var fo := FieldOffset(b, i, f).value;
        assert FieldAligned(o, fo, fs[f], m);
        match fs[f]
        case Sc(n, v, def) => IndexAligned(|b|, m, o - fo, n, i + fo);
        case Ref(h) => IndexAligned(|b|, m, o - fo, 4, i + fo);
      }
    case _ =>
  }

  lemma {:induction false} VTableAligned(total: nat, m: nat, vt: int)
    requires IsAlign(m) && 4 <= m && Multiple(total, m) && Multiple(total - vt, 2)
    ensures Multiple(vt, 2)
  {
    hide Multiple;
    AlignDivides(total, m, 2);
    MultipleSum(total, total - vt, 2, total + (total - vt), vt);
  }

  /** Every run, every root, with or without identifier and size prefix. */
  lemma {:induction false} FinishedBufferIsAligned(
      forceDefaults: bool, dedup: bool, steps: seq<Step>, c: Conf, a: Abs, root: nat, id: Option<seq<byte>>,
      sizePrefix: bool, b: seq<byte>, h: nat)
    requires LegalRun(ABS_INITIAL, steps) && a == AbsRun(ABS_INITIAL, steps)
    requires Run(Fresh(forceDefaults, dedup), steps) == Some(c) && h < |a.objs|
    requires IsAlign(c.st.minalign) && root <= |c.st.bytes| && IsIdentifier(id)
    requires b == Finish(c.st, root, id, sizePrefix).bytes
    ensures Multiple(|b|, c.st.minalign)
    ensures h < |c.offs| && NaturallyAligned(b, |b| - c.offs[h], a.objs[h])
  {
    hide ObjAt, Finish, Run, LegalRun, AbsRun, Multiple, GetRoot, NaturallyAligned;
    EveryObjectReadsBack(forceDefaults, dedup, steps, c, h);
    AlignAtLeastFour(c, a, h);
    FreshInv(forceDefaults, dedup);
    RunInv(Fresh(forceDefaults, dedup), ABS_INITIAL, steps, c);
    FinishedObjects(c, a, root, id, sizePrefix, b);
    AlignedByIndex(b, c.offs, c.offs[h], a.objs[h], c.st.minalign);
  }

  lemma {:induction false} AlignAtLeastFour(c: Conf, a: Abs, h: nat)
    requires h < |c.offs| && h < |a.objs| && ObjAt(c.st.bytes, c.offs, c.offs[h], a.objs[h], c.st.minalign)
    ensures 4 <= c.st.minalign
  {
  }

  // ---------------------------------------------------------------------------------------------
  // No more alignment than needed

  /** The alignment a call asks for. */
  function Needs(step: Step): nat
  {
    match step
    case CallScalars(n, _) => if n > 4 then n else 4
    case CallAddElement(_, n, _, _) => n
    case CallStartTable => 1
    case CallForceDefaults(_) => 1
    case CallDedupVtables(_) => 1
    case _ => 4
  }

  function NeedsMost(steps: seq<Step>): (m: nat)
    ensures forall i :: 0 <= i < |steps| ==> Needs(steps[i]) <= m
  {
    if steps == [] then 1
    else Max(Needs(steps[0]), NeedsMost(steps[1..]))
  }

  lemma {:induction false} StepMinalign(c: Conf, step: Step, c': Conf)
    requires Exec(c, step) == Some(c')
    ensures c'.st.minalign <= Max(c.st.minalign, Needs(step))
  {
    hide PaddingBytes, LE, Elems, FindString, SharedVTable, NewVTable, CanEnd;
    match step
    case CallOffsets(hs) => PushRefsMinalign(PreAlign(c.st, 4 * |hs|, 4), Targets(c.offs, hs));
    case _ =>
  }

  lemma {:induction false} PushRefsMinalign(st: State, offs: seq<nat>)
    requires forall k :: 0 <= k < |offs| ==> offs[k] <= |st.bytes|
    ensures PushRefs(st, offs).minalign <= Max(st.minalign, 4)
  {
    if offs != [] {
      PushRefsMinalign(st, offs[1..]);
    }
  }

  /** Over every run the buffer is aligned no more than one of the calls asks for: without anything of
      8 bytes, to 4. */
  lemma {:induction false} RunMinalign(c: Conf, steps: seq<Step>, c': Conf)
    requires Run(c, steps) == Some(c')
    ensures c'.st.minalign <= Max(c.st.minalign, NeedsMost(steps))
    decreases |steps|
  {
    if steps != [] {
      hide Exec, Needs;
      var c1 := Exec(c, steps[0]).value;
      StepMinalign(c, steps[0], c1);
      RunMinalign(c1, steps[1..], c');
    }
  }
}
