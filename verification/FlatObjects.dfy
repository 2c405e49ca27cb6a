/** What a serialized object reads as, and the proof that each building step serializes the object it
    was asked for. */
module FlatObjects {
  import opened Bytes
  import opened FlatReader
  import opened FlatSchema

  /** An object as the caller of the builder means it; `Ref` and `ORefs` name earlier objects by the
      order in which they were created. */
  datatype FieldVal = Sc(n: ScalarSize, v: nat, def: nat) | Ref(h: nat)

  datatype Obj =
    | OStr(s: seq<byte>)
    | OScalars(n: ScalarSize, xs: seq<nat>)
    | ORefs(hs: seq<nat>)
    | OTable(fields: map<FieldId, FieldVal>)

  /** All references are to objects before `n`. */
  predicate RefsBelow(obj: Obj, n: nat)
  {
    match obj
    case ORefs(hs) => forall k :: 0 <= k < |hs| ==> hs[k] < n
    case OTable(fs) => forall f :: f in fs && fs[f].Ref? ==> fs[f].h < n
    case _ => true
  }

  /** Field `f` of the table at index `t` reads as `x`, through the two indirections. */
  ghost predicate FieldReads(b: seq<byte>, offs: seq<nat>, t: int, f: FieldId, x: FieldVal)
  {
    match x
    case Sc(n, v, def) => GetField(b, t, f, n, def) == Some(v)
    case Ref(h) =>
      && h < |offs| && GetPointer(b, t, f) == Some(At(|b| - offs[h]))
      && FieldOffset(b, t, f).Some? && t + FieldOffset(b, t, f).value < |b| - offs[h]
  }

  /** The object at distance `o` from the end of `b` reads as `obj`. */
  ghost predicate ObjReads(b: seq<byte>, offs: seq<nat>, o: nat, obj: Obj)
  {
    var i := |b| - o;
    && 0 <= i
    && match obj
       case OStr(s) => GetString(b, i) == Some(s)
       case OScalars(n, xs) => GetScalars(b, i, n) == Some(xs)
       case ORefs(hs) =>
         && VecSize(b, i) == Some(|hs|)
         && forall k :: 0 <= k < |hs| ==>
              hs[k] < |offs| && VecGetRef(b, i, k) == Some(|b| - offs[hs[k]])
       case OTable(fs) =>
         && VTableOf(b, i).Some?
         && forall f: FieldId ::
              if f in fs then FieldReads(b, offs, i, f, fs[f]) else FieldOffset(b, i, f) == Some(0)
  }

  /** The layout a verifier insists on, stated by distances from the end: lengths, offsets and vtable
      links on multiples of 4, scalars on multiples of their size, vtables of even size. */
  predicate FieldAligned(o: nat, fo: nat, x: FieldVal, minalign: nat)
  {
    && fo <= o
    && match x
       case Sc(n, v, def) => n <= minalign && Multiple(o - fo, n)
       case Ref(h) => Multiple(o - fo, 4)
  }

  ghost predicate ObjAligned(b: seq<byte>, o: nat, obj: Obj, minalign: nat)
  {
    var i := |b| - o;
    && 0 <= i && Multiple(o, 4) && 4 <= minalign
    && match obj
       case OScalars(n, xs) => n <= minalign && 4 <= o && Multiple(o - 4, n)
       case OTable(fs) =>
         && VTableOf(b, i).Some?
         && var vt := VTableOf(b, i).value;
         && Multiple(|b| - vt, 2)
         && U(b, vt, 2).Some? && Multiple(U(b, vt, 2).value, 2) && vt + U(b, vt, 2).value <= |b|
         && forall f: FieldId :: f in fs && FieldOffset(b, i, f).Some? && FieldOffset(b, i, f).value != 0
              ==> FieldAligned(o, FieldOffset(b, i, f).value, fs[f], minalign)
       case _ => true
  }

  /** An object in place: what it reads as and how it is aligned. */
  ghost predicate ObjAt(b: seq<byte>, offs: seq<nat>, o: nat, obj: Obj, minalign: nat)
  {
    && 0 < o <= |b|
    && ObjReads(b, offs, o, obj)
    && ObjAligned(b, o, obj, minalign)
  }

  lemma {:induction false} FieldGrows(
      p: seq<byte>, b: seq<byte>, offs: seq<nat>, more: seq<nat>, t: int, f: FieldId, x: FieldVal)
    requires FieldReads(b, offs, t, f, x)
    ensures FieldReads(p + b, offs + more, |p| + t, f, x)
    ensures FieldOffset(b, t, f).Some?
  {
    match x
    case Sc(n, v, def) => GetFieldShift(p, b, t, f, n, def);
    case Ref(h) => GetPointerShift(p, b, t, f); FieldOffsetShift(p, b, t, f);
  }

  lemma {:induction false} TableGrows(
      p: seq<byte>, b: seq<byte>, offs: seq<nat>, more: seq<nat>, o: nat,
      fs: map<FieldId, FieldVal>, m: nat, m': nat)
    requires ObjAt(b, offs, o, OTable(fs), m) && m <= m'
    ensures ObjAt(p + b, offs + more, o, OTable(fs), m')
  {
    hide FieldReads, FieldOffset, VTableOf, U;
    var i := |b| - o;
    VTableOfShift(p, b, i);
    UShift(p, b, VTableOf(b, i).value, 2);
    forall f: FieldId
      ensures if f in fs then FieldReads(p + b, offs + more, |p| + i, f, fs[f])
              else FieldOffset(p + b, |p| + i, f) == Some(0)
      ensures f in fs ==> FieldOffset(p + b, |p| + i, f) == FieldOffset(b, i, f)
    {
      if f in fs {
        FieldGrows(p, b, offs, more, i, f, fs[f]);
      }
      FieldOffsetShift(p, b, i, f);
    }
  }

  lemma {:induction false} RefsGrow(
      p: seq<byte>, b: seq<byte>, offs: seq<nat>, more: seq<nat>, o: nat, hs: seq<nat>, m: nat, m': nat)
    requires ObjAt(b, offs, o, ORefs(hs), m) && m <= m'
    ensures ObjAt(p + b, offs + more, o, ORefs(hs), m')
  {
    var i := |b| - o;
    UShift(p, b, i, 4);
    forall k | 0 <= k < |hs|
      ensures VecGetRef(p + b, |p| + i, k) == Some(|p + b| - (offs + more)[hs[k]])
    {
      UShift(p, b, i + 4 + 4 * k, 4);
    }
  }

  /** Later growth of the buffer, and objects created later, change nothing about an object. */
  lemma {:induction false} ObjAtGrows(
      p: seq<byte>, b: seq<byte>, offs: seq<nat>, more: seq<nat>, o: nat, obj: Obj, m: nat, m': nat)
    requires ObjAt(b, offs, o, obj, m) && m <= m'
    ensures ObjAt(p + b, offs + more, o, obj, m')
  {
    hide U, VecFrom, GetString;
    var i := |b| - o;
    match obj
    case OStr(s) => GetStringShift(p, b, i);
    case OScalars(n, xs) =>
      UShift(p, b, i, 4);
      VecFromShift(p, b, i, n, 0, U(b, i, 4).value);
    case ORefs(hs) => RefsGrow(p, b, offs, more, o, hs, m, m');
    case OTable(fs) => TableGrows(p, b, offs, more, o, fs, m, m');
  }
}
