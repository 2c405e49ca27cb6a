/** The Verifier class, whose counters change as it goes: its methods compute what the functions say.

    Reads of the buffer carry the proof that they are inside it. The loops over vectors and the recursion
    over tables stop at the first check that fails, with the counters as they are at that point, which the
    specification states as well. */
module FlatVerifierClass {
  import opened Bytes
  import opened FlatReader
  import opened FlatSchema
  import V = FlatVerifier
  import opened FlatVerifier
  import opened FlatWellFormed

  class Verifier {
    const buf: seq<byte>
    const limits: Limits
    var depth: int
    var numTables: int

    /** The precondition is the constructor's assertion. */
    constructor (buf: seq<byte>, limits: Limits)
      requires |buf| < MAX_BUFFER_SIZE
      ensures this.buf == buf && this.limits == limits && State() == Counters(0, 0)
    {
      this.buf, this.limits := buf, limits;
      depth, numTables := 0, 0;
    }

    ghost function State(): Counters
      reads this
    {
      Counters(depth, numTables)
    }

    method VerifyComplexity() returns (ok: bool)
      modifies this
      ensures State() == Enter(old(State())) && ok == WithinLimits(limits, State())
    {
      depth := depth + 1;
      numTables := numTables + 1;
      ok := depth <= limits.maxDepth && numTables <= limits.maxTables;
    }

    method EndTable() returns (ok: bool)
      modifies this
      ensures ok && State() == Leave(old(State()))
    {
      depth := depth - 1;
      ok := true;
    }

    /** The second half of VerifyVectorOrString and of VerifyString is without effect on the counters. */
    method VerifyVectorOfStrings(v: nat) returns (ok: bool)
      requires VerifyVectorOrString(buf, v, 4)
      ensures ok == VerifyStrings(buf, v, 0, U(buf, v, 4).value)
    {
      hide VerifyString;
      var size := U(buf, v, 4).value;
      var i := 0;
      while i < size
        invariant i <= size
        invariant VerifyStrings(buf, v, 0, size) == VerifyStrings(buf, v, i, size)
      {
        if !VerifyString(buf, VecGetRef(buf, v, i).value) {
          return false;
        }
        i := i + 1;
      }
      return true;
    }

    method VerifyTableStart(t: nat) returns (ok: bool)
      requires |buf| < MAX_BUFFER_SIZE
      modifies this
      ensures ok <==> VerifyAt(buf, t, 4, true) && WithinLimits(limits, Enter(old(State()))) && VTableOk(buf, t, true)
      ensures State() == if VerifyAt(buf, t, 4, true) then Enter(old(State())) else old(State())
    {
      if !VerifyAt(buf, t, 4, true) {
        return false;
      }
      var within := VerifyComplexity();
      ok := within && VTableOk(buf, t, true);
    }

    /** A table's `Verify`: the start, each field in turn, the end. */
    method VerifyTable(sch: Schema, ti: nat, t: nat) returns (ok: bool)
      requires |buf| < MAX_BUFFER_SIZE
      modifies this
      ensures (ok, State()) == V.VerifyTable(sch, limits, buf, ti, t, old(State()))
      decreases |buf| - t, 2, 0
    {
      hide VTableOk, WithinLimits, V.VerifyField;
      ghost var st := State();
      ok := VerifyTableStart(t);
      if !ok { return; }
      var fields := FieldsOf(sch, ti);
      var k := 0;
      while k < |fields|
        invariant k <= |fields| && VTableOk(buf, t, true)
        invariant V.VerifyFields(sch, limits, buf, ti, t, 0, Enter(st))
               == V.VerifyFields(sch, limits, buf, ti, t, k, State())
      {
        ok := VerifyField(sch, fields[k], t);
        if !ok { return; }
        k := k + 1;
      }
      ok := EndTable();
    }

    method VerifyField(sch: Schema, f: Field, t: nat) returns (ok: bool)
      requires |buf| < MAX_BUFFER_SIZE && VTableOk(buf, t, true)
      modifies this
      ensures (ok, State()) == V.VerifyField(sch, limits, buf, f, t, old(State()))
      decreases |buf| - t, 1, 0
    {
      hide VTableOk, FieldOffset, V.VerifyTarget, V.VerifyOffset;
      FieldOffsetInBounds(buf, t, f.id);
      var fo := FieldOffset(buf, t, f.id).value;
      if f.ty.Scalar? {
        return fo == 0 || InRange(buf, t + fo, f.ty.size);
      }
      if fo == 0 {
        return !f.required;
      }
      var o := VerifyOffset(buf, t + fo);
      if o == 0 {
        return false;
      }
      ok := VerifyTarget(sch, f.ty, t + fo + o);
    }

    method VerifyTarget(sch: Schema, ty: FieldType, p: nat) returns (ok: bool)
      requires |buf| < MAX_BUFFER_SIZE && !ty.Scalar?
      modifies this
      ensures (ok, State()) == V.VerifyTarget(sch, limits, buf, ty, p, old(State()))
      decreases |buf| - p, 3, 0
    {
      hide V.VerifyTable, V.VerifyTables, VerifyString, VerifyStrings;
      match ty
      case Str => ok := VerifyString(buf, p);
      case ScalarVec(n) => ok := VerifyVectorOrString(buf, p, n);
      case StrVec =>
        ok := VerifyVectorOrString(buf, p, 4);
        if ok {
          ok := VerifyVectorOfStrings(p);
        }
      case Table(ti) => ok := VerifyTable(sch, ti, p);
      case TableVec(ti) =>
        ok := VerifyVectorOrString(buf, p, 4);
        if ok {
          ok := VerifyVectorOfTables(sch, ti, p);
        }
    }

    /** The tables of a vector, each behind the vector, so that the recursion ends. */
    method VerifyVectorOfTables(sch: Schema, ti: nat, v: nat) returns (ok: bool)
      requires |buf| < MAX_BUFFER_SIZE && VerifyVectorOrString(buf, v, 4)
      modifies this
      ensures (ok, State()) == V.VerifyTables(sch, limits, buf, ti, v, 0, U(buf, v, 4).value, old(State()))
      decreases |buf| - v, 2, 1
    {
      hide V.VerifyTable;
      ghost var st := State();
      var size := U(buf, v, 4).value;
      var i := 0;
      while i < size
        invariant i <= size && v + 4 + 4 * size <= |buf|
        invariant V.VerifyTables(sch, limits, buf, ti, v, 0, size, st)
               == V.VerifyTables(sch, limits, buf, ti, v, i, size, State())
      {
        ok := VerifyTable(sch, ti, VecGetRef(buf, v, i).value);
        if !ok { return; }
        i := i + 1;
      }
      ok := true;
    }

    /** VerifyBufferFromStart: the identifier, if one is asked for, then the root. */
    method VerifyBuffer(sch: Schema, id: Option<seq<byte>>, ti: nat, start: nat) returns (ok: bool)
      requires |buf| < MAX_BUFFER_SIZE && (id.None? || |buf| < 8 || start + 8 <= |buf|)
      modifies this
      ensures (ok, State()) == VerifyIdentified(sch, limits, buf, id, ti, start, old(State()))
      ensures ok <==> (id.Some? ==> |buf| >= 8 && HasIdentifier(buf, start, id.value))
                      && Acceptable(sch, limits, buf, ti, start, old(State()))
    {
      hide V.VerifyTable, V.VerifyOffset, HasIdentifier, Acceptable;
      AcceptsIff(sch, limits, buf, ti, start, State());
      if id.Some? {
        if |buf| < 8 || !HasIdentifier(buf, start, id.value) {
          return false;
        }
      }
      var o := VerifyOffset(buf, start);
      if o == 0 {
        return false;
      }
      ok := VerifyTable(sch, ti, start + o);
    }

    method VerifySizePrefixed(sch: Schema, id: Option<seq<byte>>, ti: nat) returns (ok: bool)
      requires |buf| < MAX_BUFFER_SIZE && (id.None? || |buf| < 8 || 12 <= |buf|)
      modifies this
      ensures (ok, State()) == VerifyPrefixedIdentified(sch, limits, buf, id, ti, old(State()))
    {
      hide VerifyIdentified;
      if !VerifyAt(buf, 0, 4, true) || U(buf, 0, 4).value != |buf| - 4 {
        return false;
      }
      ok := VerifyBuffer(sch, id, ti, 4);
    }
  }
}
