/** What the verifier accepts can be read, for every schema and every byte sequence. */
module FlatSoundness {
  import opened Bytes
  import opened FlatReader
  import opened FlatSchema
  import opened FlatVerifier

  /** The counters after visiting `n` more tables. */
  function Visited(st: Counters, n: nat): Counters
  {
    st.(tables := st.tables + n)
  }

  lemma {:induction false} ElementInside(n: nat, i: nat, size: nat)
    requires i < size
    ensures n * i + n <= n * size
  {
    var k: nat := size - (i + 1);
    calc {
      n * i + n;
      n * (i + 1);
    <= { assert n * k >= 0; }
      n * (i + 1) + n * k;
      n * (i + 1 + k);
      n * size;
    }
  }

  lemma {:induction false} VecFromInRange(b: seq<byte>, v: nat, n: nat, i: nat, size: nat)
    requires i <= size && v + 4 + n * size <= |b|
    ensures VecFrom(b, v, n, i, size).Some?
    decreases size - i
  {
    hide LE, FromLE;
    if i < size {
      ElementInside(n, i, size);
      VecFromInRange(b, v, n, i + 1, size);
    }
  }

  lemma {:induction false} StringsSound(b: seq<byte>, v: nat, i: nat, size: nat)
    requires i <= size && v + 4 + 4 * size <= |b|
    requires VerifyStrings(b, v, i, size)
    ensures StringsFrom(b, v, i, size).Some?
    decreases size - i
  {
    if i < size {
      StringSound(b, VecGetRef(b, v, i).value);
      StringsSound(b, v, i + 1, size);
    }
  }

  lemma {:induction false} StringSound(b: seq<byte>, s: nat)
    requires VerifyString(b, s)
    ensures GetString(b, s).Some?
  {
  }

  lemma {:induction false} TableSound(
      sch: Schema, lim: Limits, b: seq<byte>, ti: nat, t: nat, st: Counters)
    requires |b| < MAX_BUFFER_SIZE
    requires VerifyTable(sch, lim, b, ti, t, st).0
    ensures DecodeTable(sch, b, ti, t).Some?
    ensures VerifyTable(sch, lim, b, ti, t, st).1
         == Visited(st, Visits(DecodeTable(sch, b, ti, t).value))
    decreases |b| - t, 2, 0
  {
    FieldOffsetInBounds(b, t, 4);
    FieldsSound(sch, lim, b, ti, t, 0, Enter(st));
    var fields := DecodeFields(sch, b, ti, t, 0).value;
    assert DecodeTable(sch, b, ti, t) == Some(TableV(fields));
  }

  lemma {:induction false} FieldsSound(
      sch: Schema, lim: Limits, b: seq<byte>, ti: nat, t: nat, k: nat, st: Counters)
    requires k <= |FieldsOf(sch, ti)| && |b| < MAX_BUFFER_SIZE
    requires VTableOk(b, t, true) && VTableOf(b, t).Some?
    requires VerifyFields(sch, lim, b, ti, t, k, st).0
    ensures DecodeFields(sch, b, ti, t, k).Some?
    ensures VerifyFields(sch, lim, b, ti, t, k, st).1
         == Visited(st, VisitsAll(DecodeFields(sch, b, ti, t, k).value))
    decreases |b| - t, 1, |FieldsOf(sch, ti)| - k
  {
    if k < |FieldsOf(sch, ti)| {
      var r := VerifyField(sch, lim, b, FieldsOf(sch, ti)[k], t, st);
      FieldSound(sch, lim, b, FieldsOf(sch, ti)[k], t, st);
      FieldsSound(sch, lim, b, ti, t, k + 1, r.1);
      var x, rest := DecodeField(sch, b, FieldsOf(sch, ti)[k], t).value, DecodeFields(sch, b, ti, t, k + 1).value;
      assert ([x] + rest)[1..] == rest;
    }
  }

  lemma {:induction false} FieldSound(
      sch: Schema, lim: Limits, b: seq<byte>, f: Field, t: nat, st: Counters)
    requires |b| < MAX_BUFFER_SIZE
    requires VTableOk(b, t, true) && VTableOf(b, t).Some?
    requires VerifyField(sch, lim, b, f, t, st).0
    ensures DecodeField(sch, b, f, t).Some?
    ensures VerifyField(sch, lim, b, f, t, st).1
         == Visited(st, Visits(DecodeField(sch, b, f, t).value))
    decreases |b| - t, 0, 0
  {
    hide *;
    FieldOffsetInBounds(b, t, f.id);
    var fo := FieldOffset(b, t, f.id).value;
    if f.ty.Scalar? || fo == 0 {
      InlineFieldSound(sch, lim, b, f, t, st);
    } else {
      var o := VerifyOffset(b, t + fo);
      FollowOffset(sch, lim, b, f, t, st, fo, o);
      TargetSound(sch, lim, b, f.ty, t + fo + o, st);
    }
  }

  /** A field without anything to follow: a scalar, or an absent reference. */
  lemma {:induction false} InlineFieldSound(
      sch: Schema, lim: Limits, b: seq<byte>, f: Field, t: nat, st: Counters)
    requires |b| < MAX_BUFFER_SIZE && VTableOk(b, t, true) && VTableOf(b, t).Some?
    requires f.ty.Scalar? || FieldOffset(b, t, f.id) == Some(0)
    requires VerifyField(sch, lim, b, f, t, st).0
    ensures DecodeField(sch, b, f, t).Some?
    ensures VerifyField(sch, lim, b, f, t, st).1
         == Visited(st, Visits(DecodeField(sch, b, f, t).value))
  {
    FieldOffsetInBounds(b, t, f.id);
    hide FieldOffset, VTableOk;
  }

  /** A present reference: verifying and decoding it is verifying and decoding what it points to. */
  lemma {:induction false} FollowOffset(
      sch: Schema, lim: Limits, b: seq<byte>, f: Field, t: nat, st: Counters, fo: nat, o: nat)
    requires |b| < MAX_BUFFER_SIZE && VTableOk(b, t, true) && VTableOf(b, t).Some?
    requires !f.ty.Scalar? && FieldOffset(b, t, f.id) == Some(fo) && fo != 0
    requires VerifyOffset(b, t + fo) == o
    requires VerifyField(sch, lim, b, f, t, st).0
    ensures o != 0 && DecodeField(sch, b, f, t) == DecodeTarget(sch, b, f.ty, t + fo + o)
    ensures VerifyField(sch, lim, b, f, t, st) == VerifyTarget(sch, lim, b, f.ty, t + fo + o, st)
  {
    hide FieldOffset, VTableOk;
    assert GetPointer(b, t, f.id) == Some(At(t + fo + o));
  }

  lemma {:induction false} TargetSound(
      sch: Schema, lim: Limits, b: seq<byte>, ty: FieldType, p: nat, st: Counters)
    requires |b| < MAX_BUFFER_SIZE
    requires !ty.Scalar?
    requires VerifyTarget(sch, lim, b, ty, p, st).0
    ensures DecodeTarget(sch, b, ty, p).Some?
    ensures VerifyTarget(sch, lim, b, ty, p, st).1
         == Visited(st, Visits(DecodeTarget(sch, b, ty, p).value))
    decreases |b| - p, 3, 0
  {
    match ty
    case Str => StringSound(b, p);
    case ScalarVec(n) => VecFromInRange(b, p, n, 0, U(b, p, 4).value);
    case StrVec => StringsSound(b, p, 0, U(b, p, 4).value);
    case Table(ti) => TableSound(sch, lim, b, ti, p, st);
    case TableVec(ti) => TablesSound(sch, lim, b, ti, p, 0, U(b, p, 4).value, st);
  }

  lemma {:induction false} TablesSound(
      sch: Schema, lim: Limits, b: seq<byte>, ti: nat, v: nat, i: nat, size: nat, st: Counters)
    requires |b| < MAX_BUFFER_SIZE
    requires i <= size && v + 4 + 4 * size <= |b|
    requires VerifyTables(sch, lim, b, ti, v, i, size, st).0
    ensures DecodeTables(sch, b, ti, v, i, size).Some?
    ensures VerifyTables(sch, lim, b, ti, v, i, size, st).1
         == Visited(st, VisitsAll(DecodeTables(sch, b, ti, v, i, size).value))
    decreases |b| - v, 2, size - i
  {
    if i < size {
      var p := VecGetRef(b, v, i).value;
      var r := VerifyTable(sch, lim, b, ti, p, st);
      TableSound(sch, lim, b, ti, p, st);
      TablesSound(sch, lim, b, ti, v, i + 1, size, r.1);
      var x, rest := DecodeTable(sch, b, ti, p).value, DecodeTables(sch, b, ti, v, i + 1, size).value;
      assert ([x] + rest)[1..] == rest;
    }
  }

  /** An accepted buffer: its root and everything reachable from it reads inside the buffer, every
      string with its terminator; required fields are there; the run restored `depth_` and raised
      `num_tables_` by the number of tables visited. */
  lemma {:induction false} VerifiedBufferIsReadable(
      sch: Schema, lim: Limits, b: seq<byte>, ti: nat, start: nat, st: Counters)
    requires |b| < MAX_BUFFER_SIZE
    requires VerifyBufferFromStart(sch, lim, b, ti, start, st).0
    ensures GetRoot(b, start).Some?
    ensures var root := GetRoot(b, start).value;
      && DecodeTable(sch, b, ti, root).Some?
      && var tree := DecodeTable(sch, b, ti, root).value;
      && VerifyBufferFromStart(sch, lim, b, ti, start, st).1 == Visited(st, Visits(tree))
  {
    TableSound(sch, lim, b, ti, start + VerifyOffset(b, start), st);
  }

  /** Why the alignment check is needed: without it a table start is still accepted, and the accessors
      are safe, except exactly for the last byte of a vtable of odd size that ends the buffer. */
  lemma {:induction false} OddVTableIsTheOnlyGap(b: seq<byte>, t: nat, f: nat)
    requires |b| < MAX_BUFFER_SIZE && VTableOk(b, t, false) && f % 2 == 0
    ensures var vt := VTableIndex(b, t);
      var vtsize := U(b, vt, 2).value;
      FieldOffset(b, t, f).None? <==> f + 1 == vtsize && vt + vtsize == |b|
  {
    VTableIndexIsVTableOf(b, t);
  }

  /** A buffer in that gap: a table at 0 whose vtable of size 5 ends the buffer. */
  lemma {:induction false} OddVTableExample()
    ensures var b: seq<byte> := [0xFC, 0xFF, 0xFF, 0xFF, 5, 0, 4, 0, 0];
      VTableOk(b, 0, false) && !VTableOk(b, 0, true) && FieldOffset(b, 0, 4).None?
  {
    var b: seq<byte> := [0xFC, 0xFF, 0xFF, 0xFF, 5, 0, 4, 0, 0];
    assert U(b, 0, 4) == Some(0xFFFF_FFFC) by {
      assert b[0..4] == [0xFC, 0xFF, 0xFF, 0xFF];
      assert FromLE([0xFC, 0xFF, 0xFF, 0xFF]) == 0xFFFF_FFFC;
    }
    assert U(b, 4, 2) == Some(5) by {
      assert b[4..6] == [5, 0];
      assert FromLE([5, 0]) == 5;
    }
    assert Signed(0xFFFF_FFFC, 4) == -4;
    assert VTableIndex(b, 0) == 4;
    OddVTableIsTheOnlyGap(b, 0, 4);
  }
}
