/** The readers of a serialized FlatBuffer: `Table`, `Vector` and `String`.

    A pointer into the buffer is an index of the byte sequence. Every accessor returns `None` as soon
    as one of the reads it makes falls outside the buffer. */
module FlatReader {
  import opened Bytes

  /** A pointer a table field may hold. */
  datatype Ptr = Null | At(pos: int)

  /** GetVTable: a table starts with the signed distance back to its vtable. */
  function VTableOf(b: seq<byte>, t: int): Option<int>
  {
    var so :- U(b, t, 4);
    Some(t - Signed(so, 4))
  }

  /** GetOptionalFieldOffset: 0 stands for an absent field. */
  function FieldOffset(b: seq<byte>, t: int, f: nat): (r: Option<nat>)
    ensures r.Some? ==> 0 <= t && t + 4 <= |b| && r.value < 0x1_0000
  {
    var vt :- VTableOf(b, t);
    var vtsize :- U(b, vt, 2);
    if f < vtsize then U(b, vt + f, 2) else Some(0)
  }

  function GetField(b: seq<byte>, t: int, f: nat, n: nat, def: nat): Option<nat>
  {
    var fo :- FieldOffset(b, t, f);
    if fo == 0 then Some(def) else U(b, t + fo, n)
  }

  function GetPointer(b: seq<byte>, t: int, f: nat): (r: Option<Ptr>)
    ensures r.Some? && r.value.At? ==> t < r.value.pos && 0 <= t < |b|
  {
    var fo :- FieldOffset(b, t, f);
    if fo == 0 then Some(Null)
    else
      var o :- U(b, t + fo, 4);
      Some(At(t + fo + o))
  }

  /** Vector::size, and Vector::Get for an element stored inline in `n` bytes. */
  function VecSize(b: seq<byte>, v: int): Option<nat>
  {
    U(b, v, 4)
  }

  function VecGet(b: seq<byte>, v: int, n: nat, i: nat): Option<nat>
  {
    U(b, v + 4 + n * i, n)
  }

  /** Vector::Get for an offset element: follow the offset from where it is stored. */
  function VecGetRef(b: seq<byte>, v: int, i: nat): (r: Option<int>)
    ensures r.Some? ==> v + 4 <= r.value && v + 4 < |b|
  {
    var o :- U(b, v + 4 + 4 * i, 4);
    Some(v + 4 + 4 * i + o)
  }

  /** String::str, together with the terminator String::c_str relies on. */
  function GetString(b: seq<byte>, s: int): Option<seq<byte>>
  {
    var n :- U(b, s, 4);
    if s + 4 + n < |b| && b[s + 4 + n] == 0 then Some(b[s + 4..s + 4 + n]) else None
  }

  /** All elements of a scalar vector from index `i` on. */
  function VecFrom(b: seq<byte>, v: int, n: nat, i: nat, size: nat): (r: Option<seq<nat>>)
    requires i <= size
    ensures r.Some? ==> |r.value| == size - i
    decreases size - i
  {
    if i == size then Some([])
    else
      var x :- VecGet(b, v, n, i);
      var rest :- VecFrom(b, v, n, i + 1, size);
      Some([x] + rest)
  }

  function GetScalars(b: seq<byte>, v: int, n: nat): Option<seq<nat>>
  {
    var size :- VecSize(b, v);
    VecFrom(b, v, n, 0, size)
  }

  // ---------------------------------------------------------------------------------------------
  // Everything in a FlatBuffer is relative, so what was read keeps its meaning when bytes are put
  // in front of the buffer: that is how the builder grows it.

  lemma {:induction false} VTableOfShift(p: seq<byte>, b: seq<byte>, t: int)
    requires VTableOf(b, t).Some?
    ensures VTableOf(p + b, |p| + t) == Some(|p| + VTableOf(b, t).value)
  {
    UShift(p, b, t, 4);
  }

  lemma {:induction false} FieldOffsetShift(p: seq<byte>, b: seq<byte>, t: int, f: nat)
    requires FieldOffset(b, t, f).Some?
    ensures FieldOffset(p + b, |p| + t, f) == FieldOffset(b, t, f)
  {
    VTableOfShift(p, b, t);
    var vt := VTableOf(b, t).value;
    UShift(p, b, vt, 2);
    UShift(p, b, vt + f, 2);
  }

  lemma {:induction false} GetFieldShift(p: seq<byte>, b: seq<byte>, t: int, f: nat, n: nat, def: nat)
    requires GetField(b, t, f, n, def).Some?
    ensures GetField(p + b, |p| + t, f, n, def) == GetField(b, t, f, n, def)
  {
    FieldOffsetShift(p, b, t, f);
    UShift(p, b, t + FieldOffset(b, t, f).value, n);
  }

  function ShiftPtr(k: nat, p: Ptr): Ptr
  {
    match p
    case Null => Null
    case At(i) => At(k + i)
  }

  lemma {:induction false} GetPointerShift(p: seq<byte>, b: seq<byte>, t: int, f: nat)
    requires GetPointer(b, t, f).Some?
    ensures GetPointer(p + b, |p| + t, f) == Some(ShiftPtr(|p|, GetPointer(b, t, f).value))
  {
    FieldOffsetShift(p, b, t, f);
    UShift(p, b, t + FieldOffset(b, t, f).value, 4);
  }

  lemma {:induction false} GetStringShift(p: seq<byte>, b: seq<byte>, s: int)
    requires GetString(b, s).Some?
    ensures GetString(p + b, |p| + s) == GetString(b, s)
  {
    UShift(p, b, s, 4);
    var n := U(b, s, 4).value;
    assert (p + b)[|p| + s + 4..|p| + s + 4 + n] == b[s + 4..s + 4 + n];
  }

  lemma {:induction false} ElementShift(p: seq<byte>, b: seq<byte>, v: nat, n: nat, i: nat)
    ensures VecGet(p + b, |p| + v, n, i) == VecGet(b, v, n, i)
  {
    hide U;
    var at: nat := n * i;
    UShift(p, b, v + 4 + at, n);
  }

  lemma {:induction false} VecFromShift(p: seq<byte>, b: seq<byte>, v: nat, n: nat, i: nat, size: nat)
    requires i <= size
    ensures VecFrom(p + b, |p| + v, n, i, size) == VecFrom(b, v, n, i, size)
    decreases size - i
  {
    hide U, LE, FromLE;
    if i < size {
      ElementShift(p, b, v, n, i);
      VecFromShift(p, b, v, n, i + 1, size);
    }
  }
}
