/** The buffer verifier: what it checks, and what a buffer it accepts guarantees.

    The pure functions below state the outcome of every check; reads of the buffer inside them carry
    the proof that they are in bounds, so a definition that verifies is also a proof that the
    verifier itself never reads outside of the bytes it is asked about. */
module FlatVerifier {
  import opened Bytes
  import opened FlatReader
  import opened FlatSchema

  datatype Limits = Limits(maxDepth: nat, maxTables: nat)

  /** The two counters of a verifier. They are 32 bits wide in the program; here they do not wrap,
      which they could only do after 2^32 - 1 visits under a limit that large. */
  datatype Counters = Counters(depth: int, tables: int)

  /** Verify(elem, elem_len): the length must be strictly smaller than the buffer. */
  predicate InRange(b: seq<byte>, e: nat, n: nat)
  {
    n < |b| && e <= |b| - n
  }

  predicate VerifyAlignment(e: nat, n: nat, checkAlignment: bool)
    requires n > 0
  {
    e % n == 0 || !checkAlignment
  }

  /** Verify<T>(elem). */
  predicate VerifyAt(b: seq<byte>, e: nat, n: nat, checkAlignment: bool)
    requires n > 0
  {
    VerifyAlignment(e, n, checkAlignment) && InRange(b, e, n)
  }

  /** The vtable position as the verifier computes it: unsigned, so it wraps. */
  function VTableIndex(b: seq<byte>, t: nat): (vt: nat)
    requires t + 4 <= |b| < 0x1_0000_0000_0000_0000
  {
    (t - Signed(U(b, t, 4).value, 4)) % 0x1_0000_0000_0000_0000
  }

  /** The checks VerifyTableStart makes besides counting. */
  predicate VTableOk(b: seq<byte>, t: nat, checkAlignment: bool)
    requires |b| < 0x1_0000_0000_0000_0000
  {
    && VerifyAt(b, t, 4, checkAlignment)
    && var vt := VTableIndex(b, t);
    && VerifyAt(b, vt, 2, checkAlignment)
    && VerifyAlignment(U(b, vt, 2).value, 2, checkAlignment)
    && InRange(b, vt, U(b, vt, 2).value)
  }

  lemma {:induction false} VTableIndexIsVTableOf(b: seq<byte>, t: nat)
    requires |b| < MAX_BUFFER_SIZE && t + 4 <= |b|
    requires VTableIndex(b, t) <= |b|
    ensures VTableOf(b, t) == Some(VTableIndex(b, t))
  {
    assert Pow256(4) == 0x1_0000_0000;
  }

  /** With the alignment check, the vtable read of every accessor stays inside the vtable. */
  lemma {:induction false} FieldOffsetInBounds(b: seq<byte>, t: nat, f: nat)
    requires |b| < MAX_BUFFER_SIZE && VTableOk(b, t, true) && f % 2 == 0
    ensures VTableOf(b, t).Some? && FieldOffset(b, t, f).Some?
  {
    VTableIndexIsVTableOf(b, t);
    var vt := VTableIndex(b, t);
    if f < U(b, vt, 2).value {
      assert vt + f + 2 <= |b|;
    }
  }

  /** VerifyOffset(start): 0 means rejected. */
  function VerifyOffset(b: seq<byte>, start: nat): (o: nat)
    ensures o != 0 ==> U(b, start, 4) == Some(o) && start + o < |b|
  {
    if !VerifyAt(b, start, 4, true) then 0
    else
      var o := U(b, start, 4).value;
      if o == 0 || Signed(o, 4) < 0 || !InRange(b, start + o, 1) then 0 else o
  }

  predicate VerifyVectorOrString(b: seq<byte>, v: nat, n: nat)
    requires n > 0
  {
    && VerifyAt(b, v, 4, true)
    && var size := U(b, v, 4).value;
    && size < MAX_BUFFER_SIZE / n
    && InRange(b, v, 4 + n * size)
  }

  predicate VerifyString(b: seq<byte>, s: nat)
  {
    && VerifyVectorOrString(b, s, 1)
    && var end := s + 4 + U(b, s, 4).value;
    && InRange(b, end, 1)
    && b[end] == 0
  }

  /** VerifyVectorOfStrings from element `i` on; the elements' offsets are followed unchecked. */
  predicate VerifyStrings(b: seq<byte>, v: nat, i: nat, size: nat)
    requires i <= size && v + 4 + 4 * size <= |b|
    decreases size - i
  {
    i == size || (VerifyString(b, VecGetRef(b, v, i).value) && VerifyStrings(b, v, i + 1, size))
  }

  /** VerifyComplexity. */
  function Enter(st: Counters): Counters
  {
    Counters(st.depth + 1, st.tables + 1)
  }

  /** EndTable. */
  function Leave(st: Counters): Counters
  {
    st.(depth := st.depth - 1)
  }

  predicate WithinLimits(lim: Limits, st: Counters)
  {
    st.depth <= lim.maxDepth && st.tables <= lim.maxTables
  }

  /** A table's `Verify`: the outcome and the counters afterwards. */
  function VerifyTable(sch: Schema, lim: Limits, b: seq<byte>, ti: nat, t: nat, st: Counters)
    : (r: (bool, Counters))
    requires |b| < MAX_BUFFER_SIZE
    ensures r.0 ==> VTableOk(b, t, true)
    decreases |b| - t, 2, 0
  {
    if !VerifyAt(b, t, 4, true) then (false, st)
    else if !WithinLimits(lim, Enter(st)) || !VTableOk(b, t, true) then (false, Enter(st))
    else
      var r := VerifyFields(sch, lim, b, ti, t, 0, Enter(st));
      if r.0 then (true, Leave(r.1)) else r
  }

  function VerifyFields(sch: Schema, lim: Limits, b: seq<byte>, ti: nat, t: nat, k: nat, st: Counters)
    : (r: (bool, Counters))
    requires k <= |FieldsOf(sch, ti)| && |b| < MAX_BUFFER_SIZE
    requires VTableOk(b, t, true)
    decreases |b| - t, 1, |FieldsOf(sch, ti)| - k
  {
    if k == |FieldsOf(sch, ti)| then (true, st)
    else
      var r := VerifyField(sch, lim, b, FieldsOf(sch, ti)[k], t, st);
      if r.0 then VerifyFields(sch, lim, b, ti, t, k + 1, r.1) else r
  }

  /** VerifyField for a scalar; VerifyOffset or VerifyOffsetRequired, then the target, otherwise. */
  function VerifyField(sch: Schema, lim: Limits, b: seq<byte>, f: Field, t: nat, st: Counters)
    : (r: (bool, Counters))
    requires |b| < MAX_BUFFER_SIZE && VTableOk(b, t, true)
    decreases |b| - t, 0, 0
  {
    FieldOffsetInBounds(b, t, f.id);
    var fo := FieldOffset(b, t, f.id).value;
    if f.ty.Scalar? then (fo == 0 || InRange(b, t + fo, f.ty.size), st)
    else if fo == 0 then (!f.required, st)
    else
      var o := VerifyOffset(b, t + fo);
      if o == 0 then (false, st) else VerifyTarget(sch, lim, b, f.ty, t + fo + o, st)
  }

  /** VerifyString, VerifyTable, or VerifyVector followed by the check of its elements. */
  function VerifyTarget(sch: Schema, lim: Limits, b: seq<byte>, ty: FieldType, p: nat, st: Counters)
    : (r: (bool, Counters))
    requires |b| < MAX_BUFFER_SIZE
    requires !ty.Scalar?
    decreases |b| - p, 3, 0
  {
    match ty
    case Str => (VerifyString(b, p), st)
    case ScalarVec(n) => (VerifyVectorOrString(b, p, n), st)
    case StrVec =>
      (VerifyVectorOrString(b, p, 4) && VerifyStrings(b, p, 0, U(b, p, 4).value), st)
    case Table(ti) => VerifyTable(sch, lim, b, ti, p, st)
    case TableVec(ti) =>
      if !VerifyVectorOrString(b, p, 4) then (false, st)
      else VerifyTables(sch, lim, b, ti, p, 0, U(b, p, 4).value, st)
  }

  /** VerifyVectorOfTables from element `i` on. */
  function VerifyTables(
      sch: Schema, lim: Limits, b: seq<byte>, ti: nat, v: nat, i: nat, size: nat, st: Counters)
    : (r: (bool, Counters))
    requires |b| < MAX_BUFFER_SIZE
    requires i <= size && v + 4 + 4 * size <= |b|
    decreases |b| - v, 2, size - i
  {
    if i == size then (true, st)
    else
      var r := VerifyTable(sch, lim, b, ti, VecGetRef(b, v, i).value, st);
      if r.0 then VerifyTables(sch, lim, b, ti, v, i + 1, size, r.1) else r
  }

  /** VerifyBufferFromStart without a file identifier. */
  function VerifyBufferFromStart(
      sch: Schema, lim: Limits, b: seq<byte>, ti: nat, start: nat, st: Counters)
    : (r: (bool, Counters))
    requires |b| < MAX_BUFFER_SIZE
  {
    var o := VerifyOffset(b, start);
    if o == 0 then (false, st) else VerifyTable(sch, lim, b, ti, start + o, st)
  }

  /** VerifySizePrefixedBuffer without a file identifier. */
  function VerifySizePrefixedBuffer(sch: Schema, lim: Limits, b: seq<byte>, ti: nat, st: Counters)
    : (r: (bool, Counters))
    requires |b| < MAX_BUFFER_SIZE
  {
    if VerifyAt(b, 0, 4, true) && U(b, 0, 4).value == |b| - 4
    then VerifyBufferFromStart(sch, lim, b, ti, 4, st)
    else (false, st)
  }

  /** BufferHasIdentifier: strncmp of four characters with a C string. */
  predicate HasIdentifier(b: seq<byte>, start: nat, id: seq<byte>)
    requires start + 8 <= |b|
  {
    var x := b[start + 4..start + 8];
    if |id| >= 4 then x == id[..4] else x[..|id|] == id && x[|id|] == 0
  }

  /** VerifyBufferFromStart, with or without a file identifier. */
  function VerifyIdentified(
      sch: Schema, lim: Limits, b: seq<byte>, id: Option<seq<byte>>, ti: nat, start: nat, st: Counters)
    : (r: (bool, Counters))
    requires |b| < MAX_BUFFER_SIZE && (id.None? || |b| < 8 || start + 8 <= |b|)
  {
    if id.Some? && (|b| < 8 || !HasIdentifier(b, start, id.value)) then (false, st)
    else VerifyBufferFromStart(sch, lim, b, ti, start, st)
  }

  /** VerifySizePrefixedBuffer, likewise. */
  function VerifyPrefixedIdentified(
      sch: Schema, lim: Limits, b: seq<byte>, id: Option<seq<byte>>, ti: nat, st: Counters)
    : (r: (bool, Counters))
    requires |b| < MAX_BUFFER_SIZE && (id.None? || |b| < 8 || 12 <= |b|)
  {
    if VerifyAt(b, 0, 4, true) && U(b, 0, 4).value == |b| - 4
    then VerifyIdentified(sch, lim, b, id, ti, 4, st)
    else (false, st)
  }
}
