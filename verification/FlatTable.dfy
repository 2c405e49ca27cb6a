/** Building a table: fields are scattered through the buffer, and EndTable ties them together with a
    vtable, which may be one written for an earlier table.

    While the table is open, what has been added so far is known from the field locations alone; a field
    without a location was elided because it equals its default. */
module FlatTable {
  import opened Bytes
  import opened FlatSchema
  import opened FlatLayout
  import opened FlatObjects
  import opened FlatCreate

  /** A field already written, at `loc`, holds `x`. */
  ghost predicate LocHolds(b: seq<byte>, offs: seq<nat>, loc: FieldLoc, x: FieldVal, minalign: nat)
  {
    && loc.off <= |b|
    && match x
       case Sc(n, v, def) =>
         U(b, |b| - loc.off, n) == Some(v) && n <= minalign && Multiple(loc.off, n)
       case Ref(h) =>
         && h < |offs| && offs[h] < loc.off && Multiple(loc.off, 4)
         && U(b, |b| - loc.off, 4) == Some(loc.off - offs[h])
  }

  predicate DistinctIds(fields: seq<FieldLoc>)
  {
    forall j, k :: 0 <= j < k < |fields| ==> fields[j].id != fields[k].id
  }

  predicate HasLoc(fields: seq<FieldLoc>, f: FieldId)
  {
    exists k :: 0 <= k < |fields| && fields[k].id == f
  }

  /** The table under construction, begun at `start`: `pend` is what the caller has added so far. A
      field without a location was elided because it equals its default. */
  ghost predicate Pending(st: State, offs: seq<nat>, start: nat, pend: map<FieldId, FieldVal>)
  {
    && start <= |st.bytes|
    && DistinctIds(st.fields)
    && (forall k :: 0 <= k < |st.fields| ==>
         && start < st.fields[k].off
         && st.fields[k].id <= st.maxVoffset
         && st.fields[k].id in pend
         && LocHolds(st.bytes, offs, st.fields[k], pend[st.fields[k].id], st.minalign))
    && (forall f :: f in pend && !HasLoc(st.fields, f) ==> pend[f].Sc? && pend[f].v == pend[f].def)
    && Multiple(st.maxVoffset, 2) && st.maxVoffset < 0xFFFE
  }

  lemma {:induction false} LocHoldsGrows(
      b': seq<byte>, b: seq<byte>, offs: seq<nat>, loc: FieldLoc, x: FieldVal, m: nat, m': nat)
    requires Extends(b', b) && m <= m' && LocHolds(b, offs, loc, x, m)
    ensures LocHolds(b', offs, loc, x, m')
  {
    match x
    case Sc(n, v, def) => ExtendsU(b', b, loc.off, n);
    case Ref(h) => ExtendsU(b', b, loc.off, 4);
  }

  lemma {:induction false} HasLocAppend(fields: seq<FieldLoc>, loc: FieldLoc, f: FieldId)
    ensures HasLoc(fields + [loc], f) <==> HasLoc(fields, f) || loc.id == f
  {
    var fs := fields + [loc];
    if HasLoc(fields, f) {
      var k :| 0 <= k < |fields| && fields[k].id == f;
      assert fs[k].id == f;
    }
    if loc.id == f {
      assert fs[|fields|].id == f;
    }
  }

  /** Tracking a field that was just written. */
  lemma {:induction false} TrackFieldPending(
      st: State, st1: State, offs: seq<nat>, start: nat, pend: map<FieldId, FieldVal>,
      id: FieldId, x: FieldVal)
    requires Pending(st, offs, start, pend) && id !in pend
    requires Extends(st1.bytes, st.bytes) && st.minalign <= st1.minalign
    requires st1.fields == st.fields && st1.maxVoffset == st.maxVoffset
    requires start < |st1.bytes|
    requires LocHolds(st1.bytes, offs, FieldLoc(|st1.bytes|, id), x, st1.minalign)
    ensures Pending(TrackField(st1, id), offs, start, pend[id := x])
  {
    hide Multiple, LocHolds, Extends, HasLoc;
    var st2, pend2 := TrackField(st1, id), pend[id := x];
    var loc := FieldLoc(|st1.bytes|, id);
    forall k | 0 <= k < |st2.fields|
      ensures st2.fields[k].id in pend2
      ensures LocHolds(st2.bytes, offs, st2.fields[k], pend2[st2.fields[k].id], st2.minalign)
    {
      if k < |st.fields| {
        assert st2.fields[k] == st.fields[k];
        LocHoldsGrows(st1.bytes, st.bytes, offs, st.fields[k], pend[st.fields[k].id],
                      st.minalign, st1.minalign);
      }
    }
    forall f | f in pend2 && !HasLoc(st2.fields, f)
      ensures pend2[f].Sc? && pend2[f].v == pend2[f].def
    {
      HasLocAppend(st.fields, loc, f);
    }
    FieldIdEven(id);
  }

  lemma {:induction false} FieldIdEven(id: FieldId)
    ensures Multiple(id, 2)
  {
  }

  lemma {:induction false} AddScalarPending(
      st: State, st': State, offs: seq<nat>, start: nat, pend: map<FieldId, FieldVal>,
      id: FieldId, n: ScalarSize, v: nat, def: nat)
    requires Pending(st, offs, start, pend) && id !in pend && v < Pow256(n)
    requires st' == AddScalar(st, id, n, v, def)
    ensures Pending(st', offs, start, pend[id := Sc(n, v, def)])
    ensures Extends(st'.bytes, st.bytes)
  {
    if v == def && !st.forceDefaults {
      ExtendsItself(st.bytes);
      ElidedPending(st, offs, start, pend, id, Sc(n, v, def));
    } else {
      var st1 := PushScalar(st, v, n);
      PushScalarHolds(st, st1, v, n);
      hide Pending, PushScalar, Multiple, U, Extends;
      ExtendsLength(st1.bytes, st.bytes);
      assert st' == TrackField(st1, id);
      TrackFieldPending(st, st1, offs, start, pend, id, Sc(n, v, def));
    }
  }

  lemma {:induction false} ElidedPending(
      st: State, offs: seq<nat>, start: nat, pend: map<FieldId, FieldVal>, id: FieldId, x: FieldVal)
    requires Pending(st, offs, start, pend) && id !in pend && x.Sc? && x.v == x.def
    ensures Pending(st, offs, start, pend[id := x])
  {
    hide Multiple, LocHolds, HasLoc;
  }

  lemma {:induction false} PushScalarHolds(st: State, st1: State, v: nat, n: ScalarSize)
    requires v < Pow256(n) && st1 == PushScalar(st, v, n)
    ensures U(st1.bytes, 0, n) == Some(v)
    ensures Extends(st1.bytes, st.bytes) && |st1.bytes| >= |st.bytes| + n
    ensures Multiple(|st1.bytes|, n)
    ensures st1 == st.(bytes := st1.bytes, minalign := Max(st.minalign, n))
  {
    hide PreAlign, Multiple, U, Extends;
    var st0 := PreAlign(st, 0, n);
    var size := |st0.bytes|;
    PreAlignFacts(st, 0, n, st0, size);
    ExtendsLength(st0.bytes, st.bytes);
    PushExtends(LE(v, n), st0.bytes, st.bytes);
    UAt([], v, n, st0.bytes);
    assert [] + LE(v, n) + st0.bytes == st1.bytes;
    MultipleItself(n);
    MultipleSum(size, n, n, |st1.bytes|, size - n);
  }

  lemma {:induction false} MultipleItself(n: ScalarSize)
    ensures Multiple(n, n)
  {
  }

  lemma {:induction false} PushRefHolds(st: State, st1: State, off: nat)
    requires off <= |st.bytes| && st1 == PushRef(st, off) && |st1.bytes| < 0x8000_0000
    ensures U(st1.bytes, 0, 4) == Some(|st1.bytes| - off)
    ensures Extends(st1.bytes, st.bytes) && |st1.bytes| >= |st.bytes| + 4
    ensures Multiple(|st1.bytes|, 4)
    ensures st1 == st.(bytes := st1.bytes, minalign := Max(st.minalign, 4))
  {
    hide PreAlign, Multiple, U, Extends;
    var st0 := PreAlign(st, 0, 4);
    var size := |st0.bytes|;
    PreAlignFacts(st, 0, 4, st0, size);
    ExtendsLength(st0.bytes, st.bytes);
    var v := size - off + 4;
    assert st1.bytes == LE(v, 4) + st0.bytes;
    PushExtends(LE(v, 4), st0.bytes, st.bytes);
    UAt([], v, 4, st0.bytes);
    assert [] + LE(v, 4) + st0.bytes == st1.bytes;
    PlusFour(size, |st1.bytes|, 4);
  }

  lemma {:induction false} AddOffsetPending(
      st: State, st': State, offs: seq<nat>, start: nat, pend: map<FieldId, FieldVal>,
      id: FieldId, h: nat)
    requires Pending(st, offs, start, pend) && id !in pend
    requires h < |offs| && offs[h] <= |st.bytes|
    requires st' == AddOffset(st, id, offs[h]) && |st'.bytes| < 0x8000_0000
    ensures Pending(st', offs, start, pend[id := Ref(h)])
    ensures Extends(st'.bytes, st.bytes)
  {
    var st1 := PushRef(st, offs[h]);
    PushRefHolds(st, st1, offs[h]);
    hide Pending, PushRef, Multiple, U, Extends;
    ExtendsLength(st1.bytes, st.bytes);
    TrackFieldPending(st, st1, offs, start, pend, id, Ref(h));
  }
}
