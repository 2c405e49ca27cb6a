/** The generated builder of TestInfo tables, on the FlatBufferBuilder object.

    The table is open from the constructor to Finish. CreateTestInfo adds the level first, and then the
    name if there is one; CreateTestInfoDirect makes the string before the table is opened, since nothing can
    be built inside one. */
module TestInfoBuilders {
  import opened Bytes
  import opened FlatSchema
  import opened FlatVerifier
  import opened FlatRun
  import opened FlatProgress
  import opened FlatBuilder
  import opened FlatDrive
  import opened TestInfo
  import L = FlatLayout

  class TestInfoBuilder {
    const fbb: FlatBufferBuilder
    const start: nat

    constructor (b: FlatBufferBuilder)
      requires b.Valid() && b.NotNested()
      modifies b
      ensures fbb == b && b.Valid() && (fresh(b.vec.buf) || b.vec.buf == old(b.vec.buf))
      ensures b.State() == L.StartTable(old(b.State())) && start == |b.State().bytes|
    {
      fbb := b;
      var s := b.StartTable();
      start := s;
    }

    method AddLevel(level: int)
      requires fbb.Valid() && IsInt32(level)
      requires |L.AddScalar(fbb.State(), VT_LEVEL, 4, Bits32(level), 0).bytes| < MAX_BUFFER_SIZE
      modifies fbb, fbb.vec, fbb.vec.buf
      ensures fbb.Valid() && (fresh(fbb.vec.buf) || fbb.vec.buf == old(fbb.vec.buf))
      ensures fbb.State() == L.AddScalar(old(fbb.State()), VT_LEVEL, 4, Bits32(level), 0)
    {
      fbb.AddElement(VT_LEVEL, 4, Bits32(level), 0);
    }

    method AddName(name: nat)
      requires fbb.Valid() && name <= |fbb.State().bytes|
      requires name == 0 || |L.AddOffset(fbb.State(), VT_NAME, name).bytes| < MAX_BUFFER_SIZE
      modifies fbb, fbb.vec, fbb.vec.buf
      ensures fbb.Valid() && (fresh(fbb.vec.buf) || fbb.vec.buf == old(fbb.vec.buf))
      ensures fbb.State() == if name == 0 then old(fbb.State()) else L.AddOffset(old(fbb.State()), VT_NAME, name)
    {
      fbb.AddOffset(VT_NAME, name);
    }

    method Finish() returns (o: nat)
      requires fbb.Valid() && fbb.nested && L.CanEnd(fbb.State(), start)
      requires FieldsFit(fbb.State(), L.TableLoc(fbb.State()))
      requires VTablesReadable(fbb.State().bytes, fbb.State().vtables)
      requires |L.EndTable(fbb.State(), start).0.bytes| < MAX_BUFFER_SIZE
      modifies fbb, fbb.vec, fbb.vec.buf
      ensures fbb.Valid() && (fresh(fbb.vec.buf) || fbb.vec.buf == old(fbb.vec.buf))
      ensures (fbb.State(), o) == L.EndTable(old(fbb.State()), start)
    {
      o := fbb.EndTable(start);
    }
  }

  /** The calls CreateTestInfo makes for the name at handle `h`, or for none. */
  function InfoCalls(h: Option<nat>, level: int): seq<Step>
    requires IsInt32(level)
  {
    [CallStartTable, CallAddElement(VT_LEVEL, 4, Bits32(level), 0)]
    + (if h.Some? then [CallAddOffset(VT_NAME, h.value)] else []) + [CallEndTable]
  }

  /** The states in between. */
  ghost predicate Between(c: Conf, a: Abs, h: Option<nat>, level: int, c1: Conf, c2: Conf, c3: Conf, c4: Conf, a3: Abs)
    requires IsInt32(level)
  {
    && Exec(c, CallStartTable) == Some(c1)
    && Exec(c1, CallAddElement(VT_LEVEL, 4, Bits32(level), 0)) == Some(c2)
    && (if h.Some? then Exec(c2, CallAddOffset(VT_NAME, h.value)) == Some(c3) else c3 == c2)
    && Exec(c3, CallEndTable) == Some(c4)
    && Run(c, InfoCalls(h, level)) == Some(c4)
    && Inv(c3, a3) && a3.open && VTablesReadable(c3.st.bytes, c3.st.vtables)
  }

  lemma {:induction false} InfoRun(c: Conf, a: Abs, h: Option<nat>, level: int)
      returns (c1: Conf, c2: Conf, c3: Conf, c4: Conf, a3: Abs)
    requires IsInt32(level) && Inv(c, a) && !a.open && (h.Some? ==> h.value < |a.objs|)
    requires VTablesReadable(c.st.bytes, c.st.vtables)
    requires Run(c, InfoCalls(h, level)).Some?
    ensures Between(c, a, h, level, c1, c2, c3, c4, a3)
  {
    hide Inv, Exec, VTablesReadable, Run;
    var add := CallAddElement(VT_LEVEL, 4, Bits32(level), 0);
    var more: seq<Step> := if h.Some? then [CallAddOffset(VT_NAME, h.value)] else [];
    var a1 := AbsStep(a, CallStartTable);
    var a2 := AbsStep(a1, add);
    assert InfoCalls(h, level) == [CallStartTable] + ([add] + (more + [CallEndTable]));
    RunFirst(c, CallStartTable, [add] + (more + [CallEndTable]));
    c1 := Exec(c, CallStartTable).value;
    RunFirst(c1, add, more + [CallEndTable]);
    c2 := Exec(c1, add).value;
    StepInv(c, a, CallStartTable, c1);
    StepReadable(c, a, CallStartTable, c1);
    StepInv(c1, a1, add, c2);
    StepReadable(c1, a1, add, c2);
    c3, a3 := c2, a2;
    if h.Some? {
      RunFirst(c2, more[0], [CallEndTable]);
      assert more + [CallEndTable] == [more[0]] + [CallEndTable];
      c3, a3 := Exec(c2, more[0]).value, AbsStep(a2, more[0]);
      StepInv(c2, a2, more[0], c3);
      StepReadable(c2, a2, more[0], c3);
    } else {
      assert more + [CallEndTable] == [CallEndTable];
    }
    assert [CallEndTable] + [] == [CallEndTable];
    RunFirst(c3, CallEndTable, []);
    c4 := Exec(c3, CallEndTable).value;
    RunNothing(c4);
  }

  lemma {:induction false} RunFirst(c: Conf, step: Step, rest: seq<Step>)
    requires Run(c, [step] + rest).Some?
    ensures Exec(c, step).Some? && Run(Exec(c, step).value, rest) == Run(c, [step] + rest)
  {
    hide Exec;
    assert ([step] + rest)[1..] == rest;
  }

  /** CreateTestInfo, with the name at offset `name`, or at 0 for none; `h` is the handle of the name. */
  method CreateTestInfo(b: FlatBufferBuilder, name: nat, level: int, ghost c: Conf, ghost a: Abs, ghost h: Option<nat>)
    returns (o: nat)
    requires b.Valid() && b.State() == c.st && IsInt32(level) && Inv(c, a) && !a.open
    requires VTablesReadable(c.st.bytes, c.st.vtables)
    requires match h case None => name == 0 case Some(k) => k < |a.objs| && k < |c.offs| && c.offs[k] == name
    requires Run(c, InfoCalls(h, level)).Some?
    modifies b, b.vec, b.vec.buf
    ensures b.Valid() && (fresh(b.vec.buf) || b.vec.buf == old(b.vec.buf))
    ensures var c' := Run(c, InfoCalls(h, level)).value; b.State() == c'.st && c'.offs == c.offs + [o]
  {
    hide Inv, FlatBufferBuilder.Valid, FlatBufferBuilder.State, L.EndTable, L.AddScalar, L.AddOffset, VTablesReadable,
         FieldsFit, L.CanEnd, Run, ObjsInPlace;
    ghost var c1, c2, c3, c4, a3 := InfoRun(c, a, h, level);
    ClosedNotNested(c, a);
    b.StateFlags();
    if h.Some? {
      HandlesValid(c, a, h.value);
    }
    PendingFits(c3, a3);
    var builder := new TestInfoBuilder(b);
    builder.AddLevel(level);
    builder.AddName(name);
    b.NestedNow();
    o := builder.Finish();
  }

  /** CreateTestInfoDirect and Finish on a new builder: whatever the name and the level, the bytes in memory
      pass the verifier, and the accessors return the two. */
  method BuildTestInfo(force: bool, dedup: bool, name: Option<seq<byte>>, level: int) returns (buffer: seq<byte>)
    requires IsInt32(level) && (name.Some? ==> |name.value| < MAX_BUFFER_SIZE - 80)
    ensures Name(buffer) == Some(name) && Level(buffer) == Some(level)
    ensures GetRoot(buffer, 0).Some? && HoldsInfo(buffer, GetRoot(buffer, 0).value, name, level)
    ensures |buffer| < MAX_BUFFER_SIZE
    ensures VerifyBufferFromStart(SCHEMA, Limits(64, 1000000), buffer, 0, 0, Counters(0, 0)) == (true, Counters(0, 1))
  {
    hide Inv, FlatBufferBuilder.Valid, FlatBufferBuilder.State, VTablesReadable, Run, Exec, L.Finish, L.CreateString,
         Name, Level, HoldsInfo, VerifyBufferFromStart, InfoCalls;
    ghost var end := TestInfoBuilds(force, dedup, name, level);
    ghost var c, a := Fresh(force, dedup), ABS_INITIAL;
    FreshInv(force, dedup);
    ReadableAtFirst(force, dedup);
    var b := new FlatBufferBuilder(1024, 8);
    b.ForceDefaults(force);
    b.DedupVtables(dedup);
    var at := 0;
    ghost var h: Option<nat> := None;
    DirectCalls(name, level);
    if name.Some? {
      ghost var first := CallString(name.value);
      RunFirst(c, first, InfoCalls(Some(0), level));
      ghost var c1 := Exec(c, first).value;
      StepInv(c, a, first, c1);
      StepReadable(c, a, first, c1);
      FirstString(c, c1, name.value);
      b.StateFlags();
      at := b.CreateString(name.value);
      c, a, h := c1, AbsStep(a, first), Some(0);
    }
    var root := CreateTestInfo(b, at, level, c, a, h);
    RunEnds(force, dedup, name, level, end);
    b.StateFlags();
    b.Finish(root, None, false);
    buffer := b.GetBuffer();
    TestInfoRoundTrip(force, dedup, name, level, end, buffer);
  }

  lemma {:induction false} DirectCalls(name: Option<seq<byte>>, level: int)
    requires IsInt32(level)
    ensures Calls(name, level)
         == if name.Some? then [CallString(name.value)] + InfoCalls(Some(0), level) else InfoCalls(None, level)
  {
  }

  lemma {:induction false} FirstString(c: Conf, c1: Conf, s: seq<byte>)
    requires !c.st.nested && c.st.fields == [] && Exec(c, CallString(s)) == Some(c1)
    ensures |L.CreateString(c.st, s).0.bytes| < MAX_BUFFER_SIZE
    ensures c1 == Conf(L.CreateString(c.st, s).0, c.offs + [L.CreateString(c.st, s).1], c.start)
  {
  }

  lemma {:induction false} RunEnds(force: bool, dedup: bool, name: Option<seq<byte>>, level: int, c: Conf)
    requires IsInt32(level) && Run(Fresh(force, dedup), Calls(name, level)) == Some(c)
    ensures !c.st.nested && c.st.fields == []
  {
    hide Run, Inv, Calls, LegalRun, AbsRun;
    CallsAreLegal(name, level);
    FreshInv(force, dedup);
    RunInv(Fresh(force, dedup), ABS_INITIAL, Calls(name, level), c);
    ClosedNotNested(c, AbsRun(ABS_INITIAL, Calls(name, level)));
  }
}
