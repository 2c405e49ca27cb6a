/** EndTable: the finished table reads back every field, whether its vtable is new or shared. */
module FlatEndTable {
  import opened Bytes
  import opened FlatReader
  import opened FlatSchema
  import opened FlatLayout
  import opened FlatObjects
  import opened FlatCreate
  import opened FlatTable

  lemma {:induction false} SlotOfField(fields: seq<FieldLoc>, t: nat, k: nat)
    requires DistinctIds(fields) && k < |fields|
    requires forall j :: 0 <= j < |fields| ==> fields[j].off <= t
    ensures Slot(fields, t, fields[k].id) == t - fields[k].off
  {
    if k > 0 {
      assert fields[0].id != fields[k].id;
      SlotOfField(fields[1..], t, k - 1);
    }
  }

  lemma {:induction false} SlotOfAbsentField(fields: seq<FieldLoc>, t: nat, f: FieldId)
    requires !HasLoc(fields, f)
    ensures Slot(fields, t, f) == 0
  {
    if fields != [] {
      assert fields[0].id != f;
      forall k | 0 <= k < |fields[1..]|
        ensures fields[1..][k].id != f
      {
        assert fields[k + 1].id != f;
      }
      SlotOfAbsentField(fields[1..], t, f);
    }
  }

  lemma {:induction false} SlotsAt(fields: seq<FieldLoc>, t: nat, i: nat, size: nat, f: nat)
    requires i <= f < size && (size - i) % 2 == 0 && (f - i) % 2 == 0
    ensures f + 2 <= size
    ensures Slots(fields, t, i, size)[f - i..f - i + 2] == LE(Slot(fields, t, f), 2)
    decreases size - i
  {
    if i < f {
      SlotsAt(fields, t, i + 2, size, f);
      SliceOfAppend(LE(Slot(fields, t, i), 2), Slots(fields, t, i + 2, size), f - (i + 2), 2);
    }
  }

  /** The bytes of a vtable, read back: its size, and every slot. */
  lemma {:induction false} VTableReads(fields: seq<FieldLoc>, t: nat, start: nat, size: nat, f: FieldId, vt: seq<byte>)
    requires 4 <= size < 0x1_0000 && size % 2 == 0 && start <= t
    requires vt == VTableBytes(fields, t, start, size)
    requires f < size ==> Slot(fields, t, f) < 0x1_0000
    ensures U(vt, 0, 2) == Some(size)
    ensures f < size ==> U(vt, f, 2) == Some(Slot(fields, t, f))
  {
    hide U, Slots, Slot, LE;
    assert Pow256(2) == 0x1_0000;
    var head := LE(size, 2) + LE(t - start, 2);
    UAt([], size, 2, LE(t - start, 2) + Slots(fields, t, 4, size));
    assert vt == [] + LE(size, 2) + (LE(t - start, 2) + Slots(fields, t, 4, size));
    if f < size {
      SlotsAt(fields, t, 4, size, f);
      SliceOfAppend(head, Slots(fields, t, 4, size), f - 4, 2);
      assert vt == head + Slots(fields, t, 4, size);
      UOfSlice(vt, f, Slot(fields, t, f), 2);
    }
  }

  lemma {:induction false} UOfSlice(b: seq<byte>, i: nat, v: nat, n: nat)
    requires i + n <= |b| && v < Pow256(n) && b[i..i + n] == LE(v, n)
    ensures U(b, i, n) == Some(v)
  {
    FromLEofLE(v, n);
  }

  /** A read inside a slice of the buffer. */
  lemma {:induction false} UInSlice(b: seq<byte>, at: nat, s: seq<byte>, i: nat, n: nat)
    requires at + |s| <= |b| && b[at..at + |s|] == s && i + n <= |s|
    ensures U(b, at + i, n) == U(s, i, n)
  {
    SubSlice(b, at, |s|, i, n);
  }

  /** What the accessors find for field `f` once the table at index `i` links to its vtable. */
  lemma {:induction false} LinkedTableReads(
      b: seq<byte>, i: nat, at: nat, fields: seq<FieldLoc>, t: nat, start: nat, size: nat,
      vt: seq<byte>, f: FieldId)
    requires 4 <= size < 0x1_0000 && size % 2 == 0 && start <= t
    requires vt == VTableBytes(fields, t, start, size)
    requires f < size ==> Slot(fields, t, f) < 0x1_0000
    requires VTableOf(b, i) == Some(at)
    requires at + size <= |b| && b[at..at + size] == vt
    ensures U(b, at, 2) == Some(size)
    ensures FieldOffset(b, i, f) == Some(if f < size then Slot(fields, t, f) else 0)
  {
    hide U, Slots, Slot, VTableOf, VTableBytes;
    VTableReads(fields, t, start, size, f, vt);
    UInSlice(b, at, vt, 0, 2);
    if f < size {
      FieldIdEven(f);
      EvenRoom(f, size);
      UInSlice(b, at, vt, f, 2);
    }
  }

  lemma {:induction false} EvenRoom(f: FieldId, size: nat)
    requires f < size && size % 2 == 0
    ensures f + 2 <= size
  {
  }

  lemma {:induction false} SharedVTableLinks(b1: seq<byte>, o: nat, t: nat, vt: seq<byte>, b: seq<byte>)
    requires SameVTable(b1, o, vt) && t == |b1| + 4 < 0x8000_0000
    requires FitsSigned(o - t, 4) && b == LE(TwosComplement(o - t, 4), 4) + b1
    ensures VTableOf(b, |b| - t) == Some(|b| - o)
    ensures |b| - o + |vt| <= |b| && b[|b| - o..|b| - o + |vt|] == vt
  {
    var v := TwosComplement(o - t, 4);
    UAt([], v, 4, b1);
    assert [] + LE(v, 4) + b1 == b;
    SliceOfAppend(LE(v, 4), b1, |b1| - o, |vt|);
  }

  lemma {:induction false} NewVTableLinks(b1: seq<byte>, t: nat, vt: seq<byte>, b: seq<byte>)
    requires t == |b1| + 4 && |vt| < 0x8000_0000 && b == (vt + LE(|vt|, 4)) + b1
    ensures VTableOf(b, |b| - t) == Some(0)
    ensures |vt| <= |b| && b[0..|vt|] == vt
  {
    assert Pow256(4) == 0x1_0000_0000;
    UAt(vt, |vt|, 4, b1);
    assert vt + LE(|vt|, 4) + b1 == b;
  }

  /** Where EndTable leaves the table and its vtable: both links are in place. */
  lemma {:induction false} EndTableShared(st: State, start: nat, st': State, t: nat, o: nat)
    requires CanEnd(st, start) && SharedVTable(st, start) == Some(o)
    requires (st', t) == EndTable(st, start)
    ensures var vt, at := NewVTable(st, start), |st'.bytes| - o;
      && VTableOf(st'.bytes, |st'.bytes| - t) == Some(at)
      && 0 <= at && at + |vt| <= |st'.bytes| && st'.bytes[at..at + |vt|] == vt
    ensures Extends(st'.bytes, st.bytes) && t == |st'.bytes| == TableLoc(st)
    ensures o <= |st.bytes| + 3
    ensures st' == st.(bytes := st'.bytes, minalign := Max(st.minalign, 4),
                       fields := [], maxVoffset := 0, nested := false)
  {
    hide U, VTableBytes, Multiple, NewVTable, SharedVTable, FindVTable, PreAlign, VTableOf;
    var vt, st1 := NewVTable(st, start), PreAlign(st, 0, 4);
    assert Pow256(4) == 0x1_0000_0000;
    PreAlignFacts(st, 0, 4, st1, |st1.bytes|);
    var s := LE(TwosComplement(o - t, 4), 4);
    PushExtends(s, st1.bytes, st.bytes);
    SharedVTableLinks(st1.bytes, o, t, vt, st'.bytes);
  }

  lemma {:induction false} EndTableNew(st: State, start: nat, st': State, t: nat)
    requires CanEnd(st, start) && SharedVTable(st, start) == None
    requires (st', t) == EndTable(st, start)
    ensures var vt := NewVTable(st, start);
      && VTableOf(st'.bytes, |st'.bytes| - t) == Some(0)
      && |vt| <= |st'.bytes| && st'.bytes[..|vt|] == vt
      && |st'.bytes| == t + |vt|
    ensures t == TableLoc(st)
    ensures Extends(st'.bytes, st.bytes)
    ensures st' == st.(bytes := st'.bytes, minalign := Max(st.minalign, 4), fields := [],
                       maxVoffset := 0, nested := false, vtables := st.vtables + [|st'.bytes|])
  {
    hide U, VTableBytes, Multiple, NewVTable, SharedVTable, FindVTable, PreAlign, VTableOf;
    var vt, st1 := NewVTable(st, start), PreAlign(st, 0, 4);
    PreAlignFacts(st, 0, 4, st1, |st1.bytes|);
    PushExtends(vt + LE(|vt|, 4), st1.bytes, st.bytes);
    NewVTableLinks(st1.bytes, t, vt, st'.bytes);
  }

  /** A table at distance `t` of buffer `b`, linked to the vtable of the fields pending in `st`. */
  ghost predicate Linked(st: State, start: nat, b: seq<byte>, t: nat, at: int, m: nat)
    requires CanEnd(st, start)
  {
    && Extends(b, st.bytes) && |st.bytes| < t <= |b| && t == TableLoc(st)
    && VTableOf(b, |b| - t) == Some(at)
    && 0 <= at && at + VTableSize(st) <= |b|
    && b[at..at + VTableSize(st)] == NewVTable(st, start)
    && st.minalign <= m
  }

  lemma {:induction false} SlotFits(st: State, offs: seq<nat>, start: nat, pend: map<FieldId, FieldVal>, t: nat, f: FieldId)
    requires Pending(st, offs, start, pend) && CanEnd(st, start) && t == TableLoc(st)
    ensures HasLoc(st.fields, f) ==>
      exists k :: (0 <= k < |st.fields| && st.fields[k].id == f
                   && 0 < Slot(st.fields, t, f) == t - st.fields[k].off < 0x1_0000)
    ensures !HasLoc(st.fields, f) ==> Slot(st.fields, t, f) == 0
  {
    hide LocHolds, Slot, PreAlign, Multiple;
    PreAlignFacts(st, 0, 4, PreAlign(st, 0, 4), |PreAlign(st, 0, 4).bytes|);
    forall j | 0 <= j < |st.fields|
      ensures st.fields[j].off <= |st.bytes|
    {
      assert LocHolds(st.bytes, offs, st.fields[j], pend[st.fields[j].id], st.minalign);
      LocInside(st.bytes, offs, st.fields[j], pend[st.fields[j].id], st.minalign);
    }
    if HasLoc(st.fields, f) {
      var k :| 0 <= k < |st.fields| && st.fields[k].id == f;
      SlotOfField(st.fields, t, k);
    } else {
      SlotOfAbsentField(st.fields, t, f);
    }
  }

  lemma {:induction false} LocInside(b: seq<byte>, offs: seq<nat>, loc: FieldLoc, x: FieldVal, m: nat)
    requires LocHolds(b, offs, loc, x, m)
    ensures loc.off <= |b|
  {
  }

  /** The field offset the accessors find is the distance to where the field was written. */
  lemma {:induction false} FieldOffsetOfLinked(
      st: State, offs: seq<nat>, start: nat, pend: map<FieldId, FieldVal>,
      b: seq<byte>, t: nat, at: int, m: nat, f: FieldId)
    requires Pending(st, offs, start, pend) && CanEnd(st, start) && Linked(st, start, b, t, at, m)
    ensures U(b, at, 2) == Some(VTableSize(st))
    ensures FieldOffset(b, |b| - t, f) == Some(Slot(st.fields, t, f))
  {
    hide LocHolds, Slot, VTableOf, U, FieldOffset, PreAlign;
    SlotFits(st, offs, start, pend, t, f);
    VTableSizeEven(st);
    LinkedTableReads(b, |b| - t, at, st.fields, t, start, VTableSize(st), NewVTable(st, start), f);
    if VTableSize(st) <= f {
      assert !HasLoc(st.fields, f);
    }
  }

  lemma {:induction false} VTableSizeEven(st: State)
    requires Multiple(st.maxVoffset, 2) && st.maxVoffset < 0xFFFE
    ensures 4 <= VTableSize(st) < 0x1_0000 && VTableSize(st) % 2 == 0
  {
  }

  lemma {:induction false} FieldOfLinked(
      st: State, offs: seq<nat>, start: nat, pend: map<FieldId, FieldVal>,
      b: seq<byte>, t: nat, at: int, m: nat, f: FieldId)
    requires Pending(st, offs, start, pend) && CanEnd(st, start) && Linked(st, start, b, t, at, m)
    ensures if f in pend then FieldReads(b, offs, |b| - t, f, pend[f])
            else FieldOffset(b, |b| - t, f) == Some(0)
    ensures var fo := FieldOffset(b, |b| - t, f);
      f in pend && fo.Some? && fo.value != 0 ==> FieldAligned(t, fo.value, pend[f], m)
  {
    hide Slot, VTableOf, U, FieldOffset, PreAlign, Multiple, NewVTable, Extends, CanEnd;
    FieldOffsetOfLinked(st, offs, start, pend, b, t, at, m, f);
    SlotFits(st, offs, start, pend, t, f);
    if HasLoc(st.fields, f) {
      var k :| 0 <= k < |st.fields| && st.fields[k].id == f && Slot(st.fields, t, f) == t - st.fields[k].off;
      var loc := st.fields[k];
      LocHoldsGrows(b, st.bytes, offs, loc, pend[f], st.minalign, m);
      assert |b| - t + Slot(st.fields, t, f) == |b| - loc.off;
    }
  }

  lemma {:induction false} LinkedTable(
      st: State, offs: seq<nat>, start: nat, pend: map<FieldId, FieldVal>,
      b: seq<byte>, t: nat, at: int, m: nat, tail: nat)
    requires Pending(st, offs, start, pend) && CanEnd(st, start) && Linked(st, start, b, t, at, m)
    requires 4 <= m && Multiple(t, 4) && tail == |b| - at && Multiple(tail, 2)
    ensures ObjAt(b, offs, t, OTable(pend), m)
  {
    hide Slot, VTableOf, U, FieldOffset, PreAlign, NewVTable, Extends, CanEnd, FieldReads, FieldAligned;
    VTableSizeEven(st);
    forall f: FieldId
      ensures if f in pend then FieldReads(b, offs, |b| - t, f, pend[f])
              else FieldOffset(b, |b| - t, f) == Some(0)
      ensures var fo := FieldOffset(b, |b| - t, f);
        f in pend && fo.Some? && fo.value != 0 ==> FieldAligned(t, fo.value, pend[f], m)
    {
      FieldOfLinked(st, offs, start, pend, b, t, at, m, f);
    }
    FieldOffsetOfLinked(st, offs, start, pend, b, t, at, m, 4);
  }

  /** EndTable finishes a table that reads as everything added since StartTable. */
  lemma {:induction false} EndTableReads(
      st: State, offs: seq<nat>, start: nat, pend: map<FieldId, FieldVal>, st': State, t: nat)
    requires Pending(st, offs, start, pend) && CanEnd(st, start)
    requires forall o :: o in st.vtables ==> Multiple(o, 2) && o <= |st.bytes|
    requires (st', t) == EndTable(st, start)
    ensures ObjAt(st'.bytes, offs, t, OTable(pend), st'.minalign)
    ensures Multiple(|st'.bytes|, 2)
  {
    hide Slot, VTableOf, U, FieldOffset, PreAlign, NewVTable, Extends, CanEnd, Multiple, Pending,
         ObjAt, SharedVTable, EndTable, VTableSize;
    TableLocAligned(st, TableLoc(st));
    match SharedVTable(st, start)
    case Some(o) =>
      EndTableShared(st, start, st', t, o);
      LinkedTable(st, offs, start, pend, st'.bytes, t, |st'.bytes| - o, st'.minalign, o);
    case None =>
      EndTableNew(st, start, st', t);
      NewVTableEven(st, offs, start, pend, t, |st'.bytes|);
      LinkedTable(st, offs, start, pend, st'.bytes, t, 0, st'.minalign, |st'.bytes|);
  }

  lemma {:induction false} TableLocAligned(st: State, t: nat)
    requires t == TableLoc(st)
    ensures Multiple(t, 4) && Multiple(t, 2) && |st.bytes| < t
  {
    hide PreAlign, Multiple;
    var st1 := PreAlign(st, 0, 4);
    PreAlignFacts(st, 0, 4, st1, |st1.bytes|);
    ExtendsLength(st1.bytes, st.bytes);
    PlusFour(|st1.bytes|, t, 4);
    AlignDivides(t, 4, 2);
  }

  lemma {:induction false} NewVTableEven(
      st: State, offs: seq<nat>, start: nat, pend: map<FieldId, FieldVal>, t: nat, total: nat)
    requires Pending(st, offs, start, pend) && Multiple(t, 2) && total == t + VTableSize(st)
    ensures Multiple(total, 2)
  {
    VTableSizeEven(st);
    Sum2(t, VTableSize(st));
  }
}
