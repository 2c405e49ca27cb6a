/** The FlatBufferBuilder class: its methods do to the memory what the functions of the layout say. Field
    locations and remembered vtables live in the scratch space of the buffer, as bytes.

    `State` is the value the layout works on; `Valid` ties its lists of vtables and fields to the bytes of
    the scratch space. Every method says which state it leaves, so that whatever is proved about the layout
    holds of the object, and whether it had to move the memory. */
module FlatBuilder {
  import opened Bytes
  import opened FlatSchema
  import L = FlatLayout
  import opened FlatLayout
  import opened FlatTable
  import opened FlatCreate
  import opened VectorDownwards
  import opened StringOrder

  /** Remembered vtable offsets in the scratch space. */
  function Offsets(vs: seq<nat>): (s: seq<byte>)
    ensures |s| == 4 * |vs|
  {
    if vs == [] then [] else LE(vs[0], 4) + Offsets(vs[1..])
  }

  /** FieldLoc records in the scratch space: an offset, a field and two bytes nobody reads. */
  function Locs(fs: seq<FieldLoc>): (s: seq<byte>)
    ensures |s| == 8 * |fs|
  {
    if fs == [] then [] else LE(fs[0].off, 4) + LE(fs[0].id, 2) + [0, 0] + Locs(fs[1..])
  }

  lemma {:induction false} OffsetsAppend(vs: seq<nat>, v: nat)
    ensures Offsets(vs + [v]) == Offsets(vs) + LE(v, 4)
  {
    hide LE;
    if vs == [] {
      assert vs + [v] == [v];
      assert [v][1..] == [];
      assert LE(v, 4) + [] == LE(v, 4);
    } else {
      OffsetsAppend(vs[1..], v);
      assert (vs + [v])[1..] == vs[1..] + [v];
    }
  }

  lemma {:induction false} LocsAppend(fs: seq<FieldLoc>, f: FieldLoc)
    ensures Locs(fs + [f]) == Locs(fs) + (LE(f.off, 4) + LE(f.id, 2) + [0, 0])
  {
    hide LE;
    if fs == [] {
      assert fs + [f] == [f];
      assert [f][1..] == [];
    } else {
      LocsAppend(fs[1..], f);
      assert (fs + [f])[1..] == fs[1..] + [f];
    }
  }

  lemma {:induction false} OffsetAt(p: seq<byte>, vs: seq<nat>, s: seq<byte>, k: nat)
    requires k < |vs| && vs[k] < Pow256(4)
    ensures U(p + Offsets(vs) + s, |p| + 4 * k, 4) == Some(vs[k])
    decreases k
  {
    hide U;
    var first, rest := LE(vs[0], 4), Offsets(vs[1..]);
    if k == 0 {
      UAt(p, vs[0], 4, rest + s);
      assert p + first + (rest + s) == p + Offsets(vs) + s;
    } else {
      OffsetAt(p + first, vs[1..], s, k - 1);
      assert p + first + rest + s == p + Offsets(vs) + s;
    }
  }

  lemma {:induction false} LocAt(p: seq<byte>, fs: seq<FieldLoc>, k: nat)
    requires k < |fs| && fs[k].off < Pow256(4)
    ensures U(p + Locs(fs), |p| + 8 * k, 4) == Some(fs[k].off)
    ensures U(p + Locs(fs), |p| + 8 * k + 4, 2) == Some(fs[k].id)
    decreases k
  {
    hide U;
    var a, c, rest := LE(fs[0].off, 4), LE(fs[0].id, 2), Locs(fs[1..]);
    if k == 0 {
      UAt(p, fs[0].off, 4, c + [0, 0] + rest);
      assert p + a + (c + [0, 0] + rest) == p + Locs(fs);
      UAt(p + a, fs[0].id, 2, [0, 0] + rest);
      assert p + a + c + ([0, 0] + rest) == p + Locs(fs);
    } else {
      LocAt(p + (a + c + [0, 0]), fs[1..], k - 1);
      assert p + (a + c + [0, 0]) + rest == p + Locs(fs);
    }
  }

  // ---------------------------------------------------------------------------------------------
  // The vtable, filled in field by field

  lemma {:induction false} SlotNone(fs: seq<FieldLoc>, t: nat, id: nat)
    requires forall k :: 0 <= k < |fs| ==> fs[k].id != id
    ensures Slot(fs, t, id) == 0
  {
    if fs != [] {
      SlotNone(fs[1..], t, id);
    }
  }

  lemma {:induction false} SlotAppend(fs: seq<FieldLoc>, f: FieldLoc, t: nat, id: nat)
    requires f.off <= t && forall k :: 0 <= k < |fs| ==> fs[k].id != f.id
    ensures Slot(fs + [f], t, id) == if id == f.id then t - f.off else Slot(fs, t, id)
  {
    if fs == [] {
      assert fs + [f] == [f];
      assert [f][1..] == [];
    } else {
      assert (fs + [f])[1..] == fs[1..] + [f];
      SlotAppend(fs[1..], f, t, id);
    }
  }

  lemma {:induction false} SlotsEmpty(t: nat, i: nat, size: nat)
    requires i <= size && (size - i) % 2 == 0
    ensures Slots([], t, i, size) == Zeros(size - i)
    decreases size - i
  {
    if i < size {
      SlotsEmpty(t, i + 2, size);
      assert LE(0, 2) == [0, 0];
      assert Zeros(size - i) == [0, 0] + Zeros(size - i - 2);
    }
  }

  lemma {:induction false} SlotsBehind(fs: seq<FieldLoc>, f: FieldLoc, t: nat, i: nat, size: nat)
    requires i <= size && (size - i) % 2 == 0 && f.id < i
    requires f.off <= t && forall k :: 0 <= k < |fs| ==> fs[k].id != f.id
    ensures Slots(fs + [f], t, i, size) == Slots(fs, t, i, size)
    decreases size - i
  {
    hide LE, Slot;
    if i < size {
      SlotsBehind(fs, f, t, i + 2, size);
      SlotAppend(fs, f, t, i);
    }
  }

  /** One more field changes its own slot and no other. */
  lemma {:induction false} FirstSlot(fs: seq<FieldLoc>, t: nat, i: nat, size: nat)
    requires i < size && (size - i) % 2 == 0
    ensures i + 2 <= size && Slots(fs, t, i, size) == LE(Slot(fs, t, i), 2) + Slots(fs, t, i + 2, size)
  {
  }

  lemma {:induction false} SlotsAppend(fs: seq<FieldLoc>, f: FieldLoc, t: nat, i: nat, size: nat, x: seq<byte>)
    requires i <= f.id < size && (size - i) % 2 == 0 && i % 2 == 0 && f.id + 2 <= size
    requires f.off <= t && x == LE(t - f.off, 2) && forall k :: 0 <= k < |fs| ==> fs[k].id != f.id
    ensures Slots(fs + [f], t, i, size)
         == Slots(fs, t, i, size)[..f.id - i] + x + Slots(fs, t, i, size)[f.id + 2 - i..]
    decreases size - i
  {
    hide LE, Slot, Slots;
    SlotAppend(fs, f, t, i);
    var s, rest := LE(Slot(fs, t, i), 2), Slots(fs, t, i + 2, size);
    FirstSlot(fs, t, i, size);
    FirstSlot(fs + [f], t, i, size);
    if f.id == i {
      SlotsBehind(fs, f, t, i + 2, size);
      ReplaceFirst(s, rest, x);
    } else {
      assert f.id >= i + 2;
      SlotsAppend(fs, f, t, i + 2, size, x);
      ReplaceLater(s, rest, f.id - i - 2, x);
    }
  }

  lemma {:induction false} ReplaceFirst(s: seq<byte>, rest: seq<byte>, x: seq<byte>)
    requires |s| == 2
    ensures x + rest == (s + rest)[..0] + x + (s + rest)[2..]
  {
    assert (s + rest)[2..] == rest;
  }

  lemma {:induction false} ReplaceLater(s: seq<byte>, rest: seq<byte>, d: nat, x: seq<byte>)
    requires |s| == 2 && |x| == 2 && d + 2 <= |rest|
    ensures s + (rest[..d] + x + rest[d + 2..]) == (s + rest)[..d + 2] + x + (s + rest)[d + 4..]
  {
    assert (s + rest)[..d + 2] == s + rest[..d];
    assert (s + rest)[d + 4..] == rest[d + 2..];
  }

  /** Writing one slot in place. */
  lemma {:induction false} VTableAppend(
      fs: seq<FieldLoc>, f: FieldLoc, t: nat, start: nat, size: nat, tail: seq<byte>, b: seq<byte>, b': seq<byte>)
    requires size >= 4 && size % 2 == 0 && start <= t && f.id < size
    requires f.off <= t && forall k :: 0 <= k < |fs| ==> fs[k].id != f.id
    requires b == VTableBytes(fs, t, start, size) + tail && f.id + 2 <= |b|
    requires b' == b[..f.id] + LE(t - f.off, 2) + b[f.id + 2..]
    ensures b' == VTableBytes(fs + [f], t, start, size) + tail
    ensures U(b, f.id, 2) == Some(0)
  {
    hide Slots, Slot, U, LE;
    EvenRoom(f.id, size);
    SlotsAppend(fs, f, t, 4, size, LE(t - f.off, 2));
    var h, s, x := LE(size, 2) + LE(t - start, 2), Slots(fs, t, 4, size), LE(t - f.off, 2);
    ReplaceInside(h, s, tail, f.id - 4, x, b, b');
    SlotIsEmpty(fs, t, f.id, 4, size, h, tail);
  }

  lemma {:induction false} EvenRoom(id: nat, size: nat)
    requires id % 2 == 0 && size % 2 == 0 && id < size
    ensures id + 2 <= size
  {
  }

  lemma {:induction false} ReplaceInside(
      h: seq<byte>, s: seq<byte>, tail: seq<byte>, d: nat, x: seq<byte>, b: seq<byte>, b': seq<byte>)
    requires d + |x| <= |s| && b == h + s + tail
    requires b' == b[..|h| + d] + x + b[|h| + d + |x|..]
    ensures b' == h + (s[..d] + x + s[d + |x|..]) + tail
  {
    assert b[..|h| + d] == h + s[..d];
    assert b[|h| + d + |x|..] == s[d + |x|..] + tail;
  }

  lemma {:induction false} Assoc(a: seq<byte>, b: seq<byte>, c: seq<byte>, d: seq<byte>)
    ensures a + b + (c + d) == a + (b + c) + d
    ensures a + b + c + d == a + (b + c) + d
  {
  }

  /** A field that was not set yet has an empty slot: the assertion about setting a field twice. */
  lemma {:induction false} SlotIsEmpty(
      fs: seq<FieldLoc>, t: nat, id: FieldId, i: nat, size: nat, p: seq<byte>, tail: seq<byte>)
    requires i <= id < size && (size - i) % 2 == 0 && i % 2 == 0
    requires forall k :: 0 <= k < |fs| ==> fs[k].id != id
    ensures U(p + Slots(fs, t, i, size) + tail, |p| + id - i, 2) == Some(0)
    decreases size - i
  {
    hide U, LE, Slot;
    var s, rest := LE(Slot(fs, t, i), 2), Slots(fs, t, i + 2, size);
    Assoc(p, s, rest, tail);
    if id == i {
      SlotNone(fs, t, id);
      UAt(p, 0, 2, rest + tail);
    } else {
      assert id >= i + 2;
      SlotIsEmpty(fs, t, id, i + 2, size, p + s, tail);
    }
  }

  lemma {:induction false} PreAlignTwice(st: State, n: nat)
    requires IsAlign(n)
    ensures L.PreAlign(L.PreAlign(st, 0, n), 0, n) == L.PreAlign(st, 0, n)
  {
    var st1 := L.PreAlign(st, 0, n);
    NoMorePadding(|st1.bytes|, n);
    assert Zeros(0) + st1.bytes == st1.bytes;
  }

  lemma {:induction false} PreAlignGrows(st: State, len: nat, n: nat)
    requires IsAlign(n)
    ensures |st.bytes| <= |L.PreAlign(st, len, n).bytes|
  {
  }

  /** How far the buffer grows while a string is created. */
  lemma {:induction false} CreateStringSizes(st: State, s: seq<byte>, st1: State)
    requires st1 == L.PreAlign(st, |s| + 1, 4) && |L.CreateString(st, s).0.bytes| < MAX_BUFFER_SIZE
    ensures |st.bytes| <= |st1.bytes| && |st1.bytes| + 1 + |s| < MAX_BUFFER_SIZE
    ensures |L.PreAlign(L.Push(st1, s + [0]), 0, 4).bytes| < MAX_BUFFER_SIZE
  {
    hide PaddingBytes, LE;
  }

  /** The new string is in front of what was there. */
  lemma {:induction false} CreateStringTail(st: State, s: seq<byte>)
    ensures var b := L.CreateString(st, s).0.bytes;
      |st.bytes| <= |b| && b[|b| - |st.bytes|..] == st.bytes
    ensures L.CreateString(st, s).0.pool == st.pool
  {
    hide PaddingBytes, LE;
  }

  /** The state between StartVector and EndVector differs from that of the layout in being nested. */
  lemma {:induction false} ElementsOfScalars(st: State, n: ScalarSize, xs: seq<nat>, len: nat)
    requires !st.nested && len == |xs| * n && |L.CreateScalars(st, n, xs).0.bytes| < MAX_BUFFER_SIZE
    ensures var st1 := L.PreAlign(L.PreAlign(st, len, 4), len, n).(nested := true);
      var st2 := L.Push(st1, Elems(xs, n));
      && |L.PreAlign(st, len, 4).bytes| < MAX_BUFFER_SIZE && |st1.bytes| < MAX_BUFFER_SIZE
      && |L.PreAlign(st2, 0, 4).bytes| < MAX_BUFFER_SIZE
      && L.CreateScalars(st, n, xs)
         == (PushScalar(st2.(nested := false), |xs|, 4), |PushScalar(st2.(nested := false), |xs|, 4).bytes|)
  {
    hide PaddingBytes, LE, Elems;
    ElemsLength(xs, n);
    assert |Elems(xs, n)| == len;
  }

  lemma {:induction false} PreAlignTwiceFor(st: State, len: nat, n: nat)
    requires IsAlign(n)
    ensures L.PreAlign(L.PreAlign(st, len, n), len, n) == L.PreAlign(st, len, n)
  {
    var st1 := L.PreAlign(st, len, n);
    NoMorePadding(|st1.bytes| + len, n);
    assert Zeros(0) + st1.bytes == st1.bytes;
  }

  lemma {:induction false} PushRefsNested(st: State, offs: seq<nat>, on: bool)
    requires forall k :: 0 <= k < |offs| ==> offs[k] <= |st.bytes|
    ensures PushRefs(st.(nested := on), offs) == PushRefs(st, offs).(nested := on)
  {
    hide PaddingBytes, LE;
    if offs != [] {
      PushRefsNested(st, offs[1..], on);
    }
  }

  lemma {:induction false} ElementsOfOffsets(st: State, offs: seq<nat>, st0: State)
    requires !st.nested && forall k :: 0 <= k < |offs| ==> offs[k] <= |st.bytes|
    requires st0 == L.PreAlign(L.PreAlign(st, |offs| * 4, 4), |offs| * 4, 4).(nested := true)
    requires |L.CreateOffsets(st, offs).0.bytes| < MAX_BUFFER_SIZE
    ensures |st.bytes| <= |L.PreAlign(st, |offs| * 4, 4).bytes| <= |st0.bytes|
    ensures |PushRefs(st0, offs).bytes| < MAX_BUFFER_SIZE
    ensures |L.PreAlign(PushRefs(st0, offs), 0, 4).bytes| < MAX_BUFFER_SIZE
    ensures var st2 := PushRefs(st0, offs).(nested := false); var st3 := PushScalar(st2, |offs|, 4);
      L.CreateOffsets(st, offs) == (st3, |st3.bytes|)
  {
    hide PaddingBytes, LE, PushRefs;
    PreAlignTwiceFor(st, |offs| * 4, 4);
    var st1 := L.PreAlign(st, |offs| * 4, 4);
    PushRefsNested(st1, offs, true);
    RefsKeepNested(st1, offs);
  }

  lemma {:induction false} NoRefs(st: State)
    ensures PushRefs(st, []) == st
  {
  }

  lemma {:induction false} RefsKeepNested(st: State, offs: seq<nat>)
    requires forall k :: 0 <= k < |offs| ==> offs[k] <= |st.bytes|
    ensures PushRefs(st, offs).nested == st.nested
  {
    hide PaddingBytes, LE;
    if offs != [] {
      RefsKeepNested(st, offs[1..]);
    }
  }

  /** The next offset to push, counting down. */
  lemma {:induction false} PushOne(st: State, offs: seq<nat>, i: nat)
    requires i < |offs| && forall k :: 0 <= k < |offs| ==> offs[k] <= |st.bytes|
    requires |PushRefs(st, offs).bytes| < MAX_BUFFER_SIZE
    ensures var st1 := PushRefs(st, offs[i + 1..]);
      && offs[i] <= |st1.bytes| && PushRefs(st, offs[i..]) == L.PushRef(st1, offs[i])
      && |L.PreAlign(st1, 0, 4).bytes| < MAX_BUFFER_SIZE
    decreases i
  {
    hide PaddingBytes, LE, L.PreAlign;
    assert offs[i..][1..] == offs[i + 1..] && offs[i..][0] == offs[i];
    if i == 0 {
      assert offs[0..] == offs;
    } else {
      PushOne(st, offs, i - 1);
      assert offs[i - 1 + 1..] == offs[i..];
      PreAlignGrows(PushRefs(st, offs[i..]), 0, 4);
    }
  }

  lemma {:induction false} NoMorePadding(size: nat, n: nat)
    requires IsAlign(n) && Multiple(size, n)
    ensures PaddingBytes(size, n) == 0
  {
  }

  /** What EndTable relies on about the fields of the open table. */
  predicate FieldsFit(st: State, t: nat)
  {
    && DistinctIds(st.fields) && st.maxVoffset % 2 == 0 && st.maxVoffset < 0xFFFE
    && forall k :: 0 <= k < |st.fields| ==> st.fields[k].off <= t && st.fields[k].id <= st.maxVoffset
  }

  lemma {:induction false} EvenSize(st: State, t: nat)
    requires FieldsFit(st, t)
    ensures VTableSize(st) % 2 == 0 && 4 <= VTableSize(st) < 0x1_0000
  {
    hide DistinctIds;
  }

  /** A vtable without fields: the two sizes, written into zeros. */
  lemma {:induction false} VTableStart(t: nat, start: nat, size: nat, tail: seq<byte>)
    requires size >= 4 && size % 2 == 0 && start <= t
    ensures var z := Zeros(size) + tail;
      var y := z[..2] + LE(t - start, 2) + z[4..];
      y[..0] + LE(size, 2) + y[2..] == VTableBytes([], t, start, size) + tail
  {
    hide LE, Slots;
    SlotsEmpty(t, 4, size);
    var z, d := Zeros(size) + tail, LE(t - start, 2);
    assert z[4..] == Zeros(size - 4) + tail;
    assert (z[..2] + d + z[4..])[2..] == d + z[4..];
  }

  lemma {:induction false} VTableStep(st: State, t: nat, start: nat, size: nat, k: nat, b: seq<byte>)
    requires FieldsFit(st, t) && size == VTableSize(st) && start <= t && k < |st.fields|
    requires size % 2 == 0 && size >= 4
    requires b == VTableBytes(st.fields[..k], t, start, size) + st.bytes
    ensures var f := st.fields[k];
      && f.off <= t && f.id + 2 <= |b| && U(b, f.id, 2) == Some(0)
      && b[..f.id] + LE(t - f.off, 2) + b[f.id + 2..] == VTableBytes(st.fields[..k + 1], t, start, size) + st.bytes
  {
    hide LE, VTableBytes, U;
    var f := st.fields[k];
    EvenRoom(f.id, size);
    assert st.fields[..k + 1] == st.fields[..k] + [f];
    VTableAppend(st.fields[..k], f, t, start, size, st.bytes, b, b[..f.id] + LE(t - f.off, 2) + b[f.id + 2..]);
  }

  /** Every remembered vtable is inside the buffer. */
  predicate VTablesReadable(b: seq<byte>, vtables: seq<nat>)
  {
    forall k :: 0 <= k < |vtables| ==> VTableReadable(b, vtables[k])
  }

  predicate VTableReadable(b: seq<byte>, o: nat)
  {
    o <= |b| && U(b, |b| - o, 2).Some? && U(b, |b| - o, 2).value <= o
  }

  /** Comparing the new vtable with an old one, in the buffer that holds both. */
  lemma {:induction false} VTableCompared(
      p: seq<byte>, head: seq<byte>, vt: seq<byte>, vtables: seq<nat>, k: nat, o: nat)
    requires VTablesReadable(p, vtables) && k < |vtables| && o == vtables[k]
    requires |vt| <= |head| && vt == head[..|vt|]
    ensures var b := head + p;
      && o <= |p| && U(b, |b| - o, 2).Some? && U(b, |b| - o, 2).value <= o
      && (SameVTable(p, o, vt) <==>
           U(b, |b| - o, 2).value == |vt| && b[|b| - o..|b| - o + |vt|] == b[..|vt|])
    ensures FindVTable(p, vtables[k..], vt)
         == if SameVTable(p, o, vt) then Some(o) else FindVTable(p, vtables[k + 1..], vt)
  {
    hide U, FindVTable;
    assert VTableReadable(p, o);
    UShift(head, p, |p| - o, 2);
    assert (head + p)[..|vt|] == vt;
    if |vt| <= o {
      SliceOfAppend(head, p, |p| - o, |vt|);
    }
    FindStep(p, vtables[k..], vt);
    assert vtables[k..][1..] == vtables[k + 1..];
  }

  lemma {:induction false} FindStep(p: seq<byte>, vtables: seq<nat>, vt: seq<byte>)
    requires vtables != []
    ensures FindVTable(p, vtables, vt)
         == if SameVTable(p, vtables[0], vt) then Some(vtables[0]) else FindVTable(p, vtables[1..], vt)
  {
    hide SameVTable;
  }

  lemma {:induction false} Pow256Of4()
    ensures Pow256(4) == 0x1_0000_0000
  {
  }

  /** A vtable that is found is one from before this table, so it is never remembered again. */
  lemma {:induction false} FoundIsOlder(p: seq<byte>, vtables: seq<nat>, vt: seq<byte>)
    ensures FindVTable(p, vtables, vt).Some? ==> FindVTable(p, vtables, vt).value <= |p|
  {
  }

  /** The link, written over the four bytes reserved for it. */
  lemma {:induction false} LinkBytes(p: seq<byte>, h: seq<byte>, vtUse: nat, t: nat)
    requires t == |p| + 4 && |h| + t < MAX_BUFFER_SIZE && vtUse < MAX_BUFFER_SIZE
    ensures FitsSigned(vtUse - t, 4)
    ensures var b, x := h + (LE(0, 4) + p), LE(TwosComplement(vtUse - t, 4), 4);
      && |h| + 4 <= |b| && b[..|h|] + x + b[|h| + 4..] == h + x + p
  {
    hide LE;
    Pow256Of4();
    var b := h + (LE(0, 4) + p);
    assert b[..|h|] == h && b[|h| + 4..] == p;
  }

  lemma {:induction false} VTablesGrow(p: seq<byte>, b: seq<byte>, vtables: seq<nat>)
    requires VTablesReadable(b, vtables)
    ensures VTablesReadable(p + b, vtables)
  {
    hide U;
    forall k | 0 <= k < |vtables|
      ensures VTableReadable(p + b, vtables[k])
    {
      assert VTableReadable(b, vtables[k]);
      UShift(p, b, |b| - vtables[k], 2);
    }
  }

  lemma {:induction false} VTableHead(fields: seq<FieldLoc>, t: nat, start: nat, size: nat)
    requires size >= 4 && size % 2 == 0 && start <= t && size < 0x1_0000
    ensures U(VTableBytes(fields, t, start, size), 0, 2) == Some(size)
  {
    hide U, LE;
    var rest := LE(t - start, 2) + Slots(fields, t, 4, size);
    assert Pow256(2) == 0x1_0000;
    UAt([], size, 2, rest);
    assert [] + LE(size, 2) + rest == VTableBytes(fields, t, start, size);
  }

  /** What the parts of EndTable need to know about its beginning. */
  lemma {:induction false} EndTableFacts(st: State, start: nat, p: seq<byte>, st2: State, t: nat, vt: seq<byte>)
    requires CanEnd(st, start) && FieldsFit(st, TableLoc(st)) && VTablesReadable(st.bytes, st.vtables)
    requires |L.EndTable(st, start).0.bytes| < MAX_BUFFER_SIZE
    requires p == L.PreAlign(st, 0, 4).bytes && st2 == PushScalar(st, 0, 4) && t == TableLoc(st)
    requires vt == NewVTable(st, start)
    ensures st2 == st.(bytes := LE(0, 4) + p, minalign := Max(st.minalign, 4))
    ensures L.PreAlign(st, 0, 4) == st.(bytes := p, minalign := Max(st.minalign, 4))
    ensures t == |p| + 4 && t == |st2.bytes| && start <= t && VTablesReadable(p, st2.vtables) && FieldsFit(st2, t)
    ensures 4 <= VTableSize(st2) < 0x1_0000 && VTableSize(st2) % 2 == 0 && |vt| == VTableSize(st2)
    ensures vt == VTableBytes(st2.fields, t, start, VTableSize(st2))
    ensures U(vt, 0, 2) == Some(|vt|)
    ensures t < MAX_BUFFER_SIZE && (SharedVTable(st, start).None? ==> t + |vt| < MAX_BUFFER_SIZE)
  {
    hide LE, U, VTableBytes, VTablesReadable, PaddingBytes, FieldsFit;
    EvenSize(st, t);
    VTablesGrow(Zeros(PaddingBytes(|st.bytes| + 0, 4)), st.bytes, st.vtables);
    VTableHead(st.fields, t, start, VTableSize(st));
    FieldsFitSame(st, st2, t);
  }

  /** The parts put together. */
  lemma {:induction false} EndTableResult(
      st: State, start: nat, p: seq<byte>, t: nat, vt: seq<byte>, h: seq<byte>, vtUse: nat, st': State)
    requires CanEnd(st, start) && t == TableLoc(st) == |p| + 4 && vt == NewVTable(st, start) && vt != []
    requires L.PreAlign(st, 0, 4) == st.(bytes := p, minalign := Max(st.minalign, 4))
    requires match SharedVTable(st, start)
      case Some(o) => h == [] && vtUse == o
      case None => h == vt && vtUse == t + |vt|
    requires FitsSigned(vtUse - t, 4)
    requires st' == st.(
      bytes := h + LE(TwosComplement(vtUse - t, 4), 4) + p, minalign := Max(st.minalign, 4),
      vtables := st.vtables + if h == [] then [] else [vtUse], fields := [], maxVoffset := 0, nested := false)
    ensures (st', t) == L.EndTable(st, start)
  {
    hide LE, L.PreAlign, NewVTable, SharedVTable, CanEnd;
    match SharedVTable(st, start)
    case Some(o) =>
      assert st.vtables + [] == st.vtables;
      assert [] + LE(TwosComplement(o - t, 4), 4) == LE(TwosComplement(o - t, 4), 4);
      assert h + LE(TwosComplement(vtUse - t, 4), 4) + p == LE(TwosComplement(o - t, 4), 4) + p;
    case None =>
      assert TwosComplement(vtUse - t, 4) == |vt|;
  }

  lemma {:induction false} FieldsFitSame(st: State, st2: State, t: nat)
    requires FieldsFit(st, t) && st2.fields == st.fields && st2.maxVoffset == st.maxVoffset
    ensures FieldsFit(st2, t)
  {
  }

  lemma {:induction false} NoVTables(p: seq<byte>, vt: seq<byte>)
    ensures FindVTable(p, [], vt) == None
  {
  }

  /** How far the buffer grows while it is finished. */
  lemma {:induction false} FinishSizes(st: State, root: nat, ident: Option<seq<byte>>, sizePrefix: bool, head: nat)
    requires IsAlign(st.minalign) && 0 < root <= |st.bytes| && (ident.Some? ==> |ident.value| == 4)
    requires |L.Finish(st, root, ident, sizePrefix).bytes| < MAX_BUFFER_SIZE
    requires head == (if sizePrefix then 4 else 0) + 4 + if ident.Some? then 4 else 0
    ensures var st1 := L.PreAlign(st, head, st.minalign);
      var st2 := if ident.Some? then L.Push(st1, ident.value) else st1;
      var st3 := L.PushRef(st2, root);
      && |st.bytes| <= |st1.bytes| <= |st2.bytes|
      && |st1.bytes| < MAX_BUFFER_SIZE && |L.PreAlign(st2, 0, 4).bytes| < MAX_BUFFER_SIZE
      && (sizePrefix ==> |L.PreAlign(st3, 0, 4).bytes| < MAX_BUFFER_SIZE)
      && st3.vtables == st.vtables && PushScalar(st3, |st3.bytes|, 4).vtables == st.vtables
  {
    hide LE, PaddingBytes;
  }

  /** The remembered vtables play no part in finishing. */
  function Forgotten(st: State): State
  {
    st.(vtables := [])
  }

  lemma {:induction false} PreAlignForgets(st: State, len: nat, n: nat)
    requires IsAlign(n)
    ensures L.PreAlign(Forgotten(st), len, n) == Forgotten(L.PreAlign(st, len, n))
  {
    hide PaddingBytes;
  }

  lemma {:induction false} PushScalarForgets(st: State, v: nat, n: ScalarSize)
    ensures PushScalar(Forgotten(st), v, n) == Forgotten(PushScalar(st, v, n))
  {
    hide L.PreAlign, LE;
    PreAlignForgets(st, 0, n);
  }

  lemma {:induction false} PushRefForgets(st: State, off: nat)
    requires off <= |st.bytes|
    ensures L.PushRef(Forgotten(st), off) == Forgotten(L.PushRef(st, off))
  {
    hide L.PreAlign, LE;
    PreAlignForgets(st, 0, 4);
    PreAlignGrows(st, 0, 4);
  }

  lemma {:induction false} FinishUnremembered(
      st: State, root: nat, ident: Option<seq<byte>>, sizePrefix: bool, head: nat)
    requires IsAlign(st.minalign) && 0 < root <= |st.bytes|
    requires head == (if sizePrefix then 4 else 0) + 4 + if ident.Some? then 4 else 0
    ensures L.Finish(Forgotten(st), root, ident, sizePrefix) == L.Finish(st, root, ident, sizePrefix)
  {
    hide L.PreAlign, PushScalar, L.PushRef;
    PreAlignForgets(st, head, st.minalign);
    PreAlignGrows(st, head, st.minalign);
    var st1 := L.PreAlign(st, head, st.minalign);
    var st2 := if ident.Some? then L.Push(st1, ident.value) else st1;
    PushRefForgets(st2, root);
    var st3 := L.PushRef(st2, root);
    PushScalarForgets(st3, |st3.bytes|, 4);
  }

  lemma {:induction false} EmptyScratch()
    ensures Offsets([]) + Locs([]) == []
  {
  }

  class FlatBufferBuilder {
    const vec: VectorDownward
    var numFieldLoc: nat
    var maxVoffset: nat
    var nested: bool
    var finished: bool
    var minalign: nat
    var forceDefaults: bool
    var dedup: bool
    var pool: seq<nat>
    ghost var vtables: seq<nat>
    ghost var fields: seq<FieldLoc>

    /** The scratch space holds the remembered vtables, then the fields of the open table. */
    ghost predicate Valid()
      reads this, vec, vec.buf
    {
      && vec.Valid() && IsAlign(minalign) && numFieldLoc == |fields|
      && vec.Scratch() == Offsets(vtables) + Locs(fields)
      && (forall i :: 0 <= i < |vtables| ==> vtables[i] < Pow256(4))
      && (forall i :: 0 <= i < |fields| ==> fields[i].off < Pow256(4))
    }

    ghost function State(): L.State
      requires Valid()
      reads this, vec, vec.buf
    {
      L.State(vec.Contents(), vtables, fields, maxVoffset, nested, finished, minalign, forceDefaults, dedup, pool)
    }

    constructor (initialSize: nat, bufferMinAlign: nat)
      requires IsAlign(bufferMinAlign)
      ensures Valid() && fresh(vec) && fresh(vec.buf) && State() == L.INITIAL
      ensures !forceDefaults && dedup && !finished
    {
      vec := new VectorDownward(initialSize, bufferMinAlign);
      numFieldLoc, maxVoffset, nested, finished, minalign := 0, 0, false, false, 1;
      forceDefaults, dedup, pool := false, true, [];
      vtables, fields := [], [];
    }

    /** Clear: the builder is as good as new, whatever was under way; only the two switches stay. */
    method Clear()
      requires Valid()
      modifies this, vec
      ensures Valid() && vec.buf == old(vec.buf)
      ensures State() == L.INITIAL.(forceDefaults := old(forceDefaults), dedup := old(dedup))
    {
      hide Offsets, Locs, Pow256;
      ClearOffsets();
      EmptyScratch();
      vec.Clear();
      nested, finished, minalign := false, false, 1;
      pool, vtables := [], [];
    }

    method GetSize() returns (n: nat)
      requires Valid()
      ensures n == |State().bytes|
    {
      n := vec.Size();
    }

    method TrackMinAlign(n: nat)
      requires Valid() && IsAlign(n)
      modifies this`minalign
      ensures Valid() && State() == old(State()).(minalign := Max(old(State()).minalign, n))
    {
      if n > minalign {
        minalign := n;
      }
    }

    /** PreAlign; Align is the case of nothing to follow. */
    method PreAlign(len: nat, n: nat)
      requires Valid() && IsAlign(n) && |State().bytes| < MAX_BUFFER_SIZE
      modifies this, vec, vec.buf
      ensures Valid() && (fresh(vec.buf) || vec.buf == old(vec.buf))
      ensures State() == L.PreAlign(old(State()), len, n)
    {
      hide Valid, State, PaddingBytes, VectorDownward.Valid;
      TrackMinAlign(n);
      var size := GetSize();
      Fill(PaddingBytes(size + len, n));
    }

    method Fill(n: nat)
      requires Valid() && |State().bytes| < MAX_BUFFER_SIZE
      modifies this, vec, vec.buf
      ensures Valid() && (fresh(vec.buf) || vec.buf == old(vec.buf))
      ensures State() == L.Push(old(State()), Zeros(n))
    {
      hide Offsets, Locs, Pow256;
      vec.Fill(n);
    }

    method PushBytes(s: seq<byte>)
      requires Valid() && |State().bytes| < MAX_BUFFER_SIZE
      modifies this, vec, vec.buf
      ensures Valid() && (fresh(vec.buf) || vec.buf == old(vec.buf))
      ensures State() == L.Push(old(State()), s)
    {
      hide Offsets, Locs, Pow256;
      vec.Push(s);
    }

    method PushElement(v: nat, n: ScalarSize) returns (size: nat)
      requires Valid() && |L.PreAlign(State(), 0, n).bytes| < MAX_BUFFER_SIZE
      modifies this, vec, vec.buf
      ensures Valid() && (fresh(vec.buf) || vec.buf == old(vec.buf))
      ensures State() == PushScalar(old(State()), v, n) && size == |State().bytes|
    {
      hide Valid, State, PaddingBytes, LE;
      PreAlign(0, n);
      PushBytes(LE(v, n));
      size := GetSize();
    }

    /** The assertion that an offset refers to something in the buffer is a precondition. */
    method ReferTo(off: nat) returns (relative: nat)
      requires Valid() && 0 < off <= |State().bytes| && |L.PreAlign(State(), 0, 4).bytes| < MAX_BUFFER_SIZE
      modifies this, vec, vec.buf
      ensures Valid() && (fresh(vec.buf) || vec.buf == old(vec.buf))
      ensures State() == L.PreAlign(old(State()), 0, 4) && relative == |State().bytes| - off + 4
    {
      hide Valid, State, PaddingBytes;
      PreAlign(0, 4);
      var size := GetSize();
      relative := size - off + 4;
    }

    /** PushElement of an offset. */
    method PushOffset(off: nat) returns (size: nat)
      requires Valid() && 0 < off <= |State().bytes| && |L.PreAlign(State(), 0, 4).bytes| < MAX_BUFFER_SIZE
      modifies this, vec, vec.buf
      ensures Valid() && (fresh(vec.buf) || vec.buf == old(vec.buf))
      ensures State() == PushRef(old(State()), off) && size == |State().bytes|
    {
      hide Valid, State, PaddingBytes, LE, L.PreAlign;
      PreAlignTwice(State(), 4);
      var relative := ReferTo(off);
      size := PushElement(relative, 4);
    }

    method TrackField(id: FieldId, off: nat)
      requires Valid() && off == |State().bytes| && |State().bytes| < MAX_BUFFER_SIZE
      modifies this, vec, vec.buf
      ensures Valid() && (fresh(vec.buf) || vec.buf == old(vec.buf))
      ensures State() == L.TrackField(old(State()), id)
    {
      hide Offsets, Locs, LE;
      LocsAppend(fields, FieldLoc(off, id));
      vec.ScratchPush(LE(off, 4) + LE(id, 2) + [0, 0]);
      numFieldLoc := numFieldLoc + 1;
      maxVoffset := Max(maxVoffset, id);
      fields := fields + [FieldLoc(off, id)];
    }

    method AddElement(id: FieldId, n: ScalarSize, v: nat, def: nat)
      requires Valid() && |AddScalar(State(), id, n, v, def).bytes| < MAX_BUFFER_SIZE
      modifies this, vec, vec.buf
      ensures Valid() && (fresh(vec.buf) || vec.buf == old(vec.buf))
      ensures State() == AddScalar(old(State()), id, n, v, def)
    {
      hide Valid, LE, L.PreAlign;
      if v == def && !forceDefaults { return; }
      var off := PushElement(v, n);
      TrackField(id, off);
    }

    /** An offset of 0 stands for an object that is not there, and is not stored. */
    method AddOffset(id: FieldId, off: nat)
      requires Valid() && off <= |State().bytes|
      requires off == 0 || |L.AddOffset(State(), id, off).bytes| < MAX_BUFFER_SIZE
      modifies this, vec, vec.buf
      ensures Valid() && (fresh(vec.buf) || vec.buf == old(vec.buf))
      ensures State() == if off == 0 then old(State()) else L.AddOffset(old(State()), id, off)
    {
      hide Valid, State, LE, L.PreAlign;
      if off == 0 { return; }
      PreAlignTwice(State(), 4);
      PreAlignGrows(State(), 0, 4);
      var relative := ReferTo(off);
      AddElement(id, 4, relative, 0);
    }

    /** NotNested's assertions. */
    ghost predicate NotNested()
      reads this
    {
      !nested && numFieldLoc == 0
    }

    method StartTable() returns (start: nat)
      requires Valid() && NotNested()
      modifies this`nested
      ensures Valid() && State() == L.StartTable(old(State())) && start == |State().bytes|
    {
      nested := true;
      start := GetSize();
    }

    method CreateString(s: seq<byte>) returns (off: nat)
      requires Valid() && NotNested() && |L.CreateString(State(), s).0.bytes| < MAX_BUFFER_SIZE
      modifies this, vec, vec.buf
      ensures Valid() && (fresh(vec.buf) || vec.buf == old(vec.buf))
      ensures (State(), off) == L.CreateString(old(State()), s)
    {
      hide Valid, State, LE, PaddingBytes, L.PreAlign;
      ghost var st := L.PreAlign(State(), |s| + 1, 4);
      CreateStringSizes(State(), s, st);
      PreAlign(|s| + 1, 4);
      Fill(1);
      PushBytes(s);
      assert s + (Zeros(1) + st.bytes) == s + [0] + st.bytes;
      var size := PushElement(|s|, 4);
      off := size;
    }

    /** The string pool compares serialized contents, so the string is written first and taken back if it
        is there already. */
    method CreateSharedString(s: seq<byte>) returns (off: nat)
      requires Valid() && NotNested() && |L.CreateString(State(), s).0.bytes| < MAX_BUFFER_SIZE
      modifies this, vec, vec.buf
      ensures Valid() && (fresh(vec.buf) || vec.buf == old(vec.buf))
      ensures (State(), off) == L.CreateSharedString(old(State()), s)
    {
      hide Valid, State, LE, L.CreateString, FindString;
      CreateStringTail(State(), s);
      var sizeBefore := GetSize();
      off := CreateString(s);
      var found := FindInPool(off);
      if found.Some? {
        var size := GetSize();
        PopBytes(size - sizeBefore);
        return found.value;
      }
      Remember(off);
    }

    method PopBytes(amount: nat)
      requires Valid() && amount <= |State().bytes|
      modifies vec
      ensures Valid() && vec.buf == old(vec.buf)
      ensures State() == old(State()).(bytes := old(State()).bytes[amount..])
    {
      hide Offsets, Locs, Pow256;
      vec.Pop(amount);
    }

    method Remember(off: nat)
      requires Valid()
      modifies this`pool
      ensures Valid() && State() == old(State()).(pool := old(State()).pool + [off])
    {
      pool := pool + [off];
    }

    /** std::set::find by the comparison of serialized strings. */
    method FindInPool(off: nat) returns (r: Option<nat>)
      requires Valid()
      ensures r == FindString(State().bytes, State().pool, off)
    {
      hide Content, Equivalent, Offsets, Locs, Pow256;
      ghost var b := State().bytes;
      var i := 0;
      while i < |pool|
        invariant i <= |pool|
        invariant FindString(b, pool, off) == FindString(b, pool[i..], off)
      {
        var bytes := vec.buf[vec.cur..];
        assert bytes == b;
        if Equivalent(Content(bytes, pool[i]), Content(bytes, off)) {
          return Some(pool[i]);
        }
        assert pool[i..][1..] == pool[i + 1..];
        i := i + 1;
      }
      return None;
    }

    /** NotNested, seen from outside. */
    lemma {:induction false} StateFlags()
      requires Valid()
      ensures nested == State().nested && (NotNested() <==> !State().nested && State().fields == [])
    {
    }

    lemma {:induction false} NestedNow()
      requires Valid() && State().nested
      ensures nested
    {
    }

    lemma {:induction false} UnnestedState()
      requires Valid() && NotNested()
      ensures !State().nested && State().fields == []
    {
    }

    method StartVector(len: nat, elemSize: nat)
      requires Valid() && NotNested() && IsAlign(elemSize)
      requires |L.PreAlign(State(), len * elemSize, 4).bytes| < MAX_BUFFER_SIZE
      modifies this, vec, vec.buf
      ensures Valid() && (fresh(vec.buf) || vec.buf == old(vec.buf))
      ensures State() == L.PreAlign(L.PreAlign(old(State()), len * elemSize, 4), len * elemSize, elemSize).(nested := true)
    {
      hide Valid, L.PreAlign;
      PreAlignGrows(State(), len * elemSize, 4);
      PreAlign(len * elemSize, 4);
      PreAlign(len * elemSize, elemSize);
      SetNested(true);
    }

    method SetNested(on: bool)
      requires Valid()
      modifies this`nested
      ensures Valid() && State() == old(State()).(nested := on)
    {
      nested := on;
    }

    method EndVector(len: nat) returns (off: nat)
      requires Valid() && nested && |L.PreAlign(State(), 0, 4).bytes| < MAX_BUFFER_SIZE
      modifies this, vec, vec.buf
      ensures Valid() && (fresh(vec.buf) || vec.buf == old(vec.buf))
      ensures State() == PushScalar(old(State()).(nested := false), len, 4) && off == |State().bytes|
    {
      hide Valid, State, PaddingBytes, LE;
      SetNested(false);
      off := PushElement(len, 4);
    }

    /** CreateVector of scalars, which are copied in one go. */
    method CreateScalars(n: ScalarSize, xs: seq<nat>) returns (off: nat)
      requires Valid() && NotNested() && |L.CreateScalars(State(), n, xs).0.bytes| < MAX_BUFFER_SIZE
      modifies this, vec, vec.buf
      ensures Valid() && (fresh(vec.buf) || vec.buf == old(vec.buf))
      ensures (State(), off) == L.CreateScalars(old(State()), n, xs)
    {
      UnnestedState();
      hide Valid, State, L.CreateScalars, L.PreAlign, Elems, PushScalar;
      ElementsOfScalars(State(), n, xs, |xs| * n);
      StartVector(|xs|, n);
      PushBytes(Elems(xs, n));
      NestedNow();
      off := EndVector(|xs|);
    }

    /** CreateVector of offsets, which are pushed from the last to the first. */
    method CreateOffsets(offs: seq<nat>) returns (off: nat)
      requires Valid() && NotNested() && forall k :: 0 <= k < |offs| ==> 0 < offs[k] <= |State().bytes|
      requires |L.CreateOffsets(State(), offs).0.bytes| < MAX_BUFFER_SIZE
      modifies this, vec, vec.buf
      ensures Valid() && (fresh(vec.buf) || vec.buf == old(vec.buf))
      ensures (State(), off) == L.CreateOffsets(old(State()), offs)
    {
      UnnestedState();
      hide Valid, State, L.PreAlign, PushScalar, L.PushRef, PushRefs;
      ghost var st := State();
      ghost var st0 := L.PreAlign(L.PreAlign(st, |offs| * 4, 4), |offs| * 4, 4).(nested := true);
      ElementsOfOffsets(st, offs, st0);
      RefsKeepNested(st0, offs);
      StartVector(|offs|, 4);
      PushOffsets(offs);
      NestedNow();
      off := EndVector(|offs|);
    }

    method PushOffsets(offs: seq<nat>)
      requires Valid() && forall k :: 0 <= k < |offs| ==> 0 < offs[k] <= |State().bytes|
      requires |PushRefs(State(), offs).bytes| < MAX_BUFFER_SIZE
      modifies this, vec, vec.buf
      ensures Valid() && (fresh(vec.buf) || vec.buf == old(vec.buf))
      ensures State() == PushRefs(old(State()), offs)
    {
      hide Valid, State, L.PreAlign, L.PushRef, PushRefs;
      ghost var st := State();
      var i := |offs|;
      assert offs[|offs|..] == [];
      NoRefs(st);
      while i > 0
        invariant 0 <= i <= |offs|
        invariant Valid() && (fresh(vec.buf) || vec.buf == old(vec.buf))
        invariant State() == PushRefs(st, offs[i..])
      {
        i := i - 1;
        PushOne(st, offs, i);
        var size := PushOffset(offs[i]);
      }
      assert offs[0..] == offs;
    }

    // -------------------------------------------------------------------------------------------
    // EndTable

    method WriteAt(at: nat, x: seq<byte>)
      requires Valid() && at + |x| <= |State().bytes|
      modifies vec.buf
      ensures Valid() && vec.buf == old(vec.buf)
      ensures State() == old(State()).(bytes := old(State()).bytes[..at] + x + old(State()).bytes[at + |x|..])
    {
      hide Offsets, Locs, Pow256;
      vec.WriteAt(at, x);
    }

    /** A scalar in the data, and one in the scratch space. */
    method ReadAt(at: nat, n: nat) returns (v: nat)
      requires Valid() && at + n <= |State().bytes|
      ensures U(State().bytes, at, n) == Some(v)
    {
      hide Offsets, Locs, Pow256;
      v := FromLE(vec.buf[vec.cur..][at..at + n]);
    }

    method ReadVTable(k: nat) returns (o: nat)
      requires Valid() && k < |State().vtables|
      ensures o == State().vtables[k]
    {
      OffsetAt([], vtables, Locs(fields), k);
      assert [] + Offsets(vtables) == Offsets(vtables);
      o := FromLE(vec.buf[..vec.scratch][4 * k..4 * k + 4]);
    }

    /** The record `k` from the start of those of the open table, which are the last in the scratch space. */
    method ReadLoc(k: nat) returns (off: nat, id: FieldId)
      requires Valid() && k < |State().fields|
      ensures FieldLoc(off, id) == State().fields[k]
    {
      LocAt(Offsets(vtables), fields, k);
      var at := vec.scratch - numFieldLoc * 8 + 8 * k;
      off := FromLE(vec.buf[..vec.scratch][at..at + 4]);
      id := FromLE(vec.buf[..vec.scratch][at + 4..at + 4 + 2]);
    }

    method SetMaxVoffset(m: nat)
      requires Valid()
      modifies this`maxVoffset
      ensures Valid() && State() == old(State()).(maxVoffset := m)
    {
      maxVoffset := m;
    }

    /** An empty vtable in front of everything else: zeros, then the size of the table and its own. */
    method StartVTable(t: nat, start: nat) returns (size: nat)
      requires Valid() && FieldsFit(State(), t) && start <= t
      requires |State().bytes| < MAX_BUFFER_SIZE
      modifies this, vec, vec.buf
      ensures Valid() && (fresh(vec.buf) || vec.buf == old(vec.buf))
      ensures size == VTableSize(old(State())) && size % 2 == 0 && size >= 4
      ensures State() == old(State()).(bytes := VTableBytes([], t, start, size) + old(State()).bytes, maxVoffset := size)
    {
      hide Valid, State, LE, VTableBytes, FieldsFit;
      EvenSize(State(), t);
      VTableStart(t, start, VTableSize(State()), State().bytes);
      size := GetMaxVoffset();
      size := Max(size + 2, 4);
      SetMaxVoffset(size);
      Fill(size);
      WriteAt(2, LE(t - start, 2));
      WriteAt(0, LE(size, 2));
    }

    /** The slot of one field, which has to be empty still. */
    method SetSlot(t: nat, start: nat, size: nat, k: nat, ghost st: L.State)
      requires Valid() && FieldsFit(st, t) && size == VTableSize(st) && start <= t && k < |st.fields|
      requires size % 2 == 0 && size >= 4
      requires State() == st.(bytes := VTableBytes(st.fields[..k], t, start, size) + st.bytes, maxVoffset := size)
      modifies vec.buf
      ensures Valid() && vec.buf == old(vec.buf)
      ensures State() == st.(bytes := VTableBytes(st.fields[..k + 1], t, start, size) + st.bytes, maxVoffset := size)
    {
      hide Valid, State, LE, VTableBytes, FieldsFit, U;
      VTableStep(st, t, start, size, k, State().bytes);
      var off, id := ReadLoc(k);
      var before := ReadAt(id, 2);
      assert before == 0;
      WriteAt(id, LE(t - off, 2));
    }

    /** The vtable, filled in through the field locations. */
    method FillVTable(t: nat, start: nat)
      requires Valid() && FieldsFit(State(), t) && start <= t && |State().bytes| < MAX_BUFFER_SIZE
      modifies this, vec, vec.buf
      ensures Valid() && (fresh(vec.buf) || vec.buf == old(vec.buf))
      ensures var st, size := old(State()), VTableSize(old(State()));
        && size >= 4 && size % 2 == 0
        && State() == st.(bytes := VTableBytes(st.fields, t, start, size) + st.bytes, maxVoffset := size)
    {
      hide Valid, State, LE, VTableBytes, FieldsFit;
      ghost var st := State();
      var size := StartVTable(t, start);
      var count := GetNumFieldLoc();
      var k := 0;
      assert st.fields[..0] == [];
      while k < count
        invariant k <= count && Valid() && (fresh(vec.buf) || vec.buf == old(vec.buf))
        invariant State() == st.(bytes := VTableBytes(st.fields[..k], t, start, size) + st.bytes, maxVoffset := size)
      {
        SetSlot(t, start, size, k, st);
        k := k + 1;
      }
      assert st.fields[..count] == st.fields;
    }

    method GetMaxVoffset() returns (m: nat)
      requires Valid()
      ensures m == State().maxVoffset
    {
      m := maxVoffset;
    }

    method GetNumFieldLoc() returns (n: nat)
      requires Valid()
      ensures n == |State().fields|
    {
      n := numFieldLoc;
    }

    method ClearOffsets()
      requires Valid()
      modifies this, vec
      ensures Valid() && vec.buf == old(vec.buf)
      ensures State() == old(State()).(fields := [], maxVoffset := 0)
    {
      hide Offsets, Locs, Pow256;
      NoLocs();
      vec.ScratchPop(numFieldLoc * 8);
      numFieldLoc, maxVoffset, fields := 0, 0, [];
    }

    /** See if a vtable with the same size and the same contents was written before. */
    method FindOldVTable(ghost p: seq<byte>, ghost vt: seq<byte>, ghost head: seq<byte>) returns (r: Option<nat>)
      requires Valid() && State().bytes == head + p && |vt| < 0x1_0000 && |vt| <= |head|
      requires vt == head[..|vt|] && U(head, 0, 2) == Some(|vt|)
      requires VTablesReadable(p, State().vtables)
      ensures r == FindVTable(p, State().vtables, vt)
    {
      hide Valid, State, VTablesReadable, SameVTable, FindVTable, U;
      ghost var vts := State().vtables;
      var size := GetSize();
      UAppend(head, p, 0, 2);
      var vt1Size := ReadAt(0, 2);
      var count := GetNumVTables();
      var k := 0;
      assert vts[0..] == vts;
      while k < count
        invariant k <= count
        invariant FindVTable(p, vts, vt) == FindVTable(p, vts[k..], vt)
      {
        var o := ReadVTable(k);
        VTableCompared(p, head, vt, vts, k, o);
        var vt2Size := ReadAt(size - o, 2);
        if vt1Size == vt2Size {
          var same := SameBytes(size - o, vt1Size);
          if same {
            return Some(o);
          }
        }
        k := k + 1;
      }
      NoVTables(p, vt);
      return None;
    }

    method GetNumVTables() returns (n: nat)
      requires Valid()
      ensures n == |State().vtables|
    {
      n := (vec.scratch - numFieldLoc * 8) / 4;
    }

    /** memcmp of what is at `at` with what is at the front. */
    method SameBytes(at: nat, n: nat) returns (same: bool)
      requires Valid() && at + n <= |State().bytes|
      ensures same <==> State().bytes[at..at + n] == State().bytes[..n]
    {
      hide Offsets, Locs, Pow256;
      var bytes := vec.buf[vec.cur..];
      same := bytes[at..at + n] == bytes[..n];
    }

    method RememberVTable(o: nat)
      requires Valid() && |State().bytes| < MAX_BUFFER_SIZE && o < Pow256(4) && State().fields == []
      modifies this, vec, vec.buf
      ensures Valid() && (fresh(vec.buf) || vec.buf == old(vec.buf))
      ensures State() == old(State()).(vtables := old(State()).vtables + [o])
    {
      hide LE;
      OffsetsAppend(vtables, o);
      vec.ScratchPush(LE(o, 4));
      vtables := vtables + [o];
    }

    lemma {:induction false} NoLocs()
      ensures Locs([]) == []
    {
    }

    /** The vtable to use: an old one, if sharing is on and there is one, in which case the new one is
        removed again. */
    method ChooseVTable(t: nat, ghost p: seq<byte>, ghost vt: seq<byte>) returns (vtUse: nat)
      requires Valid() && t == |p| + 4 && State().bytes == vt + (LE(0, 4) + p)
      requires |vt| < 0x1_0000 && U(vt, 0, 2) == Some(|vt|) && VTablesReadable(p, State().vtables)
      modifies vec
      ensures Valid() && vec.buf == old(vec.buf)
      ensures var st := old(State());
        match if st.dedup then FindVTable(p, st.vtables, vt) else None
        case Some(o) => vtUse == o && State() == st.(bytes := LE(0, 4) + p)
        case None => vtUse == |st.bytes| && State() == st
    {
      hide Valid, State, LE, VTablesReadable, FindVTable, U, SameVTable;
      vtUse := GetSize();
      var sharing := GetDedup();
      if sharing {
        assert State().bytes == (vt + LE(0, 4)) + p && (vt + LE(0, 4))[..|vt|] == vt;
        UAppend(vt, LE(0, 4), 0, 2);
        var found := FindOldVTable(p, vt, vt + LE(0, 4));
        if found.Some? {
          var size := GetSize();
          PopBytes(size - t);
          vtUse := found.value;
          assert (vt + (LE(0, 4) + p))[|vt|..] == LE(0, 4) + p;
        }
      }
    }

    /** Remember the vtable if it is new, and link the table to it. */
    method LinkVTable(t: nat, vtUse: nat, ghost p: seq<byte>, ghost h: seq<byte>)
      requires Valid() && t == |p| + 4 && State().bytes == h + (LE(0, 4) + p) && State().fields == []
      requires |State().bytes| < MAX_BUFFER_SIZE
      requires if h == [] then vtUse <= |p| else vtUse == |State().bytes|
      modifies this, vec, vec.buf
      ensures Valid() && (fresh(vec.buf) || vec.buf == old(vec.buf))
      ensures FitsSigned(vtUse - t, 4)
      ensures State() == old(State()).(
        bytes := h + LE(TwosComplement(vtUse - t, 4), 4) + p,
        vtables := old(State()).vtables + if h == [] then [] else [vtUse])
    {
      hide Valid, State, LE;
      Pow256Of4();
      LinkBytes(p, h, vtUse, t);
      var size := GetSize();
      if vtUse == size {
        RememberVTable(vtUse);
      }
      WriteAt(size - t, LE(TwosComplement(vtUse - t, 4), 4));
    }

    /** EndTable: the assertions of the source are that a table was started, that it is below 64 KB, and
        that no field was set twice. */
    method EndTable(start: nat) returns (t: nat)
      requires Valid() && nested && CanEnd(State(), start) && FieldsFit(State(), TableLoc(State()))
      requires VTablesReadable(State().bytes, State().vtables)
      requires |L.EndTable(State(), start).0.bytes| < MAX_BUFFER_SIZE
      modifies this, vec, vec.buf
      ensures Valid() && (fresh(vec.buf) || vec.buf == old(vec.buf))
      ensures (State(), t) == L.EndTable(old(State()), start)
    {
      hide Valid, State, LE, VTablesReadable, FindVTable, U, SameVTable, VTableBytes, FieldsFit, CanEnd, L.PreAlign;
      ghost var st := State();
      ghost var st1, vt := L.PreAlign(st, 0, 4), NewVTable(st, start);
      EndTableFacts(st, start, st1.bytes, PushScalar(st, 0, 4), TableLoc(st), vt);
      t := PushElement(0, 4);
      FillVTable(t, start);
      ClearOffsets();
      var vtUse := ChooseVTable(t, st1.bytes, vt);
      ghost var shared := SharedVTable(st, start);
      FoundIsOlder(st1.bytes, st.vtables, vt);
      LinkVTable(t, vtUse, st1.bytes, if shared.Some? then [] else vt);
      SetNested(false);
      EndTableResult(st, start, st1.bytes, t, vt, if shared.Some? then [] else vt, vtUse, State());
    }

    method ForceDefaults(on: bool)
      requires Valid()
      modifies this`forceDefaults
      ensures Valid() && State() == old(State()).(forceDefaults := on)
    {
      forceDefaults := on;
    }

    method DedupVtables(on: bool)
      requires Valid()
      modifies this`dedup
      ensures Valid() && State() == old(State()).(dedup := on)
    {
      dedup := on;
    }

    method GetDedup() returns (on: bool)
      requires Valid()
      ensures on == State().dedup
    {
      on := dedup;
    }

    method ClearScratch()
      requires Valid() && NotNested()
      modifies this, vec
      ensures Valid() && vec.buf == old(vec.buf) && State() == old(State()).(vtables := [])
    {
      hide LE;
      vec.ClearScratch();
      vtables := [];
    }

    method SetFinished()
      requires Valid()
      modifies this`finished
      ensures Valid() && State() == old(State()).(finished := true)
    {
      finished := true;
    }

    /** GetBufferPointer and GetSize, which assert that the buffer is finished. */
    method GetBuffer() returns (s: seq<byte>)
      requires Valid() && State().finished
      ensures s == State().bytes
    {
      hide Offsets, Locs, Pow256;
      s := vec.buf[vec.cur..];
    }

    method GetMinalign() returns (n: nat)
      requires Valid()
      ensures n == State().minalign && IsAlign(n)
    {
      n := minalign;
    }

    /** Finish, with and without identifier and size prefix. */
    method Finish(root: nat, ident: Option<seq<byte>>, sizePrefix: bool)
      requires Valid() && NotNested() && 0 < root <= |State().bytes| && (ident.Some? ==> |ident.value| == 4)
      requires IsAlign(State().minalign) && |L.Finish(State(), root, ident, sizePrefix).bytes| < MAX_BUFFER_SIZE
      modifies this, vec, vec.buf
      ensures Valid() && (fresh(vec.buf) || vec.buf == old(vec.buf))
      ensures State() == L.Finish(old(State()), root, ident, sizePrefix) && State().finished
    {
      hide Valid, State, LE, L.PreAlign, PushScalar, L.PushRef;
      var head := (if sizePrefix then 4 else 0) + 4 + if ident.Some? then 4 else 0;
      ghost var st := State();
      FinishUnremembered(st, root, ident, sizePrefix, head);
      ClearScratch();
      FinishSizes(State(), root, ident, sizePrefix, head);
      var n := GetMinalign();
      PreAlign(head, n);
      if ident.Some? {
        PushBytes(ident.value);
      }
      var size := PushOffset(root);
      if sizePrefix {
        size := PushElement(size, 4);
      }
      SetFinished();
    }
  }
}
