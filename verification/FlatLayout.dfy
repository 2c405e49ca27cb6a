/** The layout a FlatBufferBuilder produces, as functions on values.

    The buffer grows downwards: `bytes` is what lies between the write position and the end, and every
    step puts new bytes in front. Objects are named by their distance from the end of the buffer, which
    later growth does not change. */
module FlatLayout {
  import opened Bytes
  import opened FlatReader
  import opened FlatSchema
  import opened StringOrder

  /** Where a field of the table under construction was written. */
  datatype FieldLoc = FieldLoc(off: nat, id: FieldId)

  datatype State = State(
    bytes: seq<byte>,
    vtables: seq<nat>,
    fields: seq<FieldLoc>,
    maxVoffset: nat,
    nested: bool,
    finished: bool,
    minalign: nat,
    forceDefaults: bool,
    dedup: bool,
    pool: seq<nat>)

  const INITIAL := State([], [], [], 0, false, false, 1, false, true, [])

  function Max(a: nat, b: nat): nat
  {
    if a > b then a else b
  }

  function Push(st: State, s: seq<byte>): State
  {
    st.(bytes := s + st.bytes)
  }

  /** PreAlign: after `len` more bytes the size will be a multiple of `n`. Align is the case `len == 0`. */
  function PreAlign(st: State, len: nat, n: nat): State
    requires IsAlign(n)
  {
    Push(st, Zeros(PaddingBytes(|st.bytes| + len, n))).(minalign := Max(st.minalign, n))
  }

  /** PushElement. */
  function PushScalar(st: State, v: nat, n: ScalarSize): State
  {
    Push(PreAlign(st, 0, n), LE(v, n))
  }

  /** PushElement of an offset: ReferTo makes it relative to where it is about to be stored. */
  function PushRef(st: State, off: nat): State
    requires off <= |st.bytes|
  {
    var st1 := PreAlign(st, 0, 4);
    Push(st1, LE(|st1.bytes| - off + 4, 4))
  }

  function TrackField(st: State, id: FieldId): State
  {
    st.(fields := st.fields + [FieldLoc(|st.bytes|, id)], maxVoffset := Max(st.maxVoffset, id))
  }

  function AddScalar(st: State, id: FieldId, n: ScalarSize, v: nat, def: nat): State
  {
    if v == def && !st.forceDefaults then st else TrackField(PushScalar(st, v, n), id)
  }

  /** AddOffset of an offset that is not null. */
  function AddOffset(st: State, id: FieldId, off: nat): State
    requires off <= |st.bytes|
  {
    TrackField(PushRef(st, off), id)
  }

  function StartTable(st: State): State
  {
    st.(nested := true)
  }

  /** The vtable entry of field `id`: its distance from the table start at `t`, or 0. */
  function Slot(fields: seq<FieldLoc>, t: nat, id: nat): nat
  {
    if fields == [] then 0
    else if fields[0].id == id && fields[0].off <= t then t - fields[0].off
    else Slot(fields[1..], t, id)
  }

  function Slots(fields: seq<FieldLoc>, t: nat, i: nat, size: nat): (s: seq<byte>)
    requires i <= size && (size - i) % 2 == 0
    ensures |s| == size - i
    decreases size - i
  {
    if i == size then [] else LE(Slot(fields, t, i), 2) + Slots(fields, t, i + 2, size)
  }

  /** The size of the vtable: room for the highest field in use, and never below the fixed entries. */
  function VTableSize(st: State): nat
  {
    Max(st.maxVoffset + 2, 4)
  }

  /** A vtable: its own size, the size of the table, then the slots. */
  function VTableBytes(fields: seq<FieldLoc>, t: nat, start: nat, size: nat): (s: seq<byte>)
    requires size >= 4 && size % 2 == 0 && start <= t
    ensures |s| == size
  {
    LE(size, 2) + LE(t - start, 2) + Slots(fields, t, 4, size)
  }

  /** The vtable remembered at `o` has the same size and the same bytes as `vt`. */
  predicate SameVTable(b: seq<byte>, o: nat, vt: seq<byte>)
  {
    && |vt| <= o <= |b|
    && U(b, |b| - o, 2) == Some(|vt|)
    && b[|b| - o..|b| - o + |vt|] == vt
  }

  function FindVTable(b: seq<byte>, vtables: seq<nat>, vt: seq<byte>): (r: Option<nat>)
    ensures r.Some? ==> r.value in vtables && SameVTable(b, r.value, vt)
    ensures r.None? ==> forall o :: o in vtables ==> !SameVTable(b, o, vt)
  {
    if vtables == [] then None
    else if SameVTable(b, vtables[0], vt) then Some(vtables[0])
    else FindVTable(b, vtables[1..], vt)
  }

  /** What EndTable relies on: a table below 64 KB in a buffer below 2 GB, whose fields were all
      written since its start. */
  predicate CanEnd(st: State, start: nat)
  {
    && st.maxVoffset % 2 == 0 && st.maxVoffset < 0xFFFE
    && start <= |st.bytes|
    && TableLoc(st) - start < 0x1_0000
    && TableLoc(st) < 0x8000_0000
  }

  /** Where EndTable puts the table: the location of its vtable offset. */
  function TableLoc(st: State): nat
  {
    |PreAlign(st, 0, 4).bytes| + 4
  }

  /** The vtable EndTable generates for the fields written since `start`. */
  function NewVTable(st: State, start: nat): (vt: seq<byte>)
    requires CanEnd(st, start)
    ensures |vt| == VTableSize(st)
  {
    VTableBytes(st.fields, TableLoc(st), start, VTableSize(st))
  }

  /** The remembered vtable EndTable uses instead, if any. */
  function SharedVTable(st: State, start: nat): (r: Option<nat>)
    requires CanEnd(st, start)
    ensures r.Some? ==> r.value in st.vtables
    ensures r.Some? ==> SameVTable(PreAlign(st, 0, 4).bytes, r.value, NewVTable(st, start))
  {
    if st.dedup then FindVTable(PreAlign(st, 0, 4).bytes, st.vtables, NewVTable(st, start)) else None
  }

  /** The vtable link is signed: negative for a vtable further back, else the size of the new vtable
      in front of the table. */
  function EndTable(st: State, start: nat): (r: (State, nat))
    requires CanEnd(st, start)
  {
    var t := TableLoc(st);
    var vt := NewVTable(st, start);
    var st1 := PreAlign(st, 0, 4).(fields := [], maxVoffset := 0, nested := false);
    assert Pow256(4) == 0x1_0000_0000;
    match SharedVTable(st, start)
    case Some(o) => (Push(st1, LE(TwosComplement(o - t, 4), 4)), t)
    case None => (Push(st1, vt + LE(|vt|, 4)).(vtables := st.vtables + [t + |vt|]), t)
  }

  /** CreateString: terminator, characters and length, the characters ending on a 4-byte boundary. */
  function CreateString(st: State, s: seq<byte>): (r: (State, nat))
  {
    var st1 := Push(PreAlign(st, |s| + 1, 4), s + [0]);
    var st2 := PushScalar(st1, |s|, 4);
    (st2, |st2.bytes|)
  }

  /** The string pool is a std::set ordered by StringLessThan on the serialized contents; it is
      represented by its elements in order of insertion. */
  function Content(b: seq<byte>, o: nat): seq<byte>
  {
    if o <= |b| && GetString(b, |b| - o).Some? then GetString(b, |b| - o).value else []
  }

  function FindString(b: seq<byte>, pool: seq<nat>, o: nat): (r: Option<nat>)
    ensures r.Some? ==> r.value in pool && Content(b, r.value) == Content(b, o)
    ensures r.None? ==> forall p :: p in pool ==> Content(b, p) != Content(b, o)
  {
    EquivalentIffEqualForall();
    if pool == [] then None
    else if Equivalent(Content(b, pool[0]), Content(b, o)) then Some(pool[0])
    else FindString(b, pool[1..], o)
  }

  function CreateSharedString(st: State, s: seq<byte>): (r: (State, nat))
  {
    var (st1, off) := CreateString(st, s);
    match FindString(st1.bytes, st.pool, off)
    case Some(o) => (st1.(bytes := st.bytes), o)
    case None => (st1.(pool := st.pool + [off]), off)
  }

  function Elems(xs: seq<nat>, n: nat): (s: seq<byte>)
  {
    if xs == [] then [] else LE(xs[0], n) + Elems(xs[1..], n)
  }

  /** CreateVector of scalars: StartVector, the elements in one go, EndVector. */
  function CreateScalars(st: State, n: ScalarSize, xs: seq<nat>): (r: (State, nat))
  {
    var len := |Elems(xs, n)|;
    var st1 := Push(PreAlign(PreAlign(st, len, 4), len, n), Elems(xs, n));
    var st2 := PushScalar(st1, |xs|, 4);
    (st2, |st2.bytes|)
  }

  /** The elements of an offset vector are pushed from the last to the first. */
  function PushRefs(st: State, offs: seq<nat>): (r: State)
    requires forall k :: 0 <= k < |offs| ==> offs[k] <= |st.bytes|
    ensures |r.bytes| >= |st.bytes|
  {
    if offs == [] then st else PushRef(PushRefs(st, offs[1..]), offs[0])
  }

  function CreateOffsets(st: State, offs: seq<nat>): (r: (State, nat))
    requires forall k :: 0 <= k < |offs| ==> offs[k] <= |st.bytes|
  {
    var st1 := PushRefs(PreAlign(st, 4 * |offs|, 4), offs);
    var st2 := PushScalar(st1, |offs|, 4);
    (st2, |st2.bytes|)
  }

  /** Finish: align everything for the final size, then identifier, root offset and size prefix. */
  function Finish(st: State, root: nat, ident: Option<seq<byte>>, sizePrefix: bool): (r: State)
    requires IsAlign(st.minalign) && root <= |st.bytes|
  {
    var head := (if sizePrefix then 4 else 0) + 4 + (if ident.Some? then 4 else 0);
    var st1 := PreAlign(st, head, st.minalign);
    var st2 := if ident.Some? then Push(st1, ident.value) else st1;
    var st3 := PushRef(st2, root);
    var st4 := if sizePrefix then PushScalar(st3, |st3.bytes|, 4) else st3;
    st4.(vtables := [], finished := true)
  }
}
