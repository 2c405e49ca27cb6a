/** Schemas, the trees they describe, and the traversal of a buffer by the generated accessors. */
module FlatSchema {
  import opened Bytes
  import opened FlatReader

  type ScalarSize = n: nat | n == 1 || n == 2 || n == 4 || n == 8 witness 1

  /** A vtable offset of a field: even, and after the two fixed entries of a vtable. */
  type FieldId = f: nat | f % 2 == 0 && 4 <= f < 0xFFFE witness 4

  datatype FieldType =
    | Scalar(size: ScalarSize, def: nat)
    | Str
    | ScalarVec(size: ScalarSize)
    | StrVec
    | Table(index: nat)
    | TableVec(index: nat)

  datatype Field = Field(id: FieldId, ty: FieldType, required: bool)

  /** A schema is the sequence of its table types; table types refer to each other by index, so
      recursive types such as `Object`, `Field` and `Type` of the reflection schema are expressible. */
  type Schema = seq<seq<Field>>

  /** The fields of a table type; an index outside the schema names a table without known fields. */
  function FieldsOf(sch: Schema, ti: nat): seq<Field>
  {
    if ti < |sch| then sch[ti] else []
  }

  datatype Tree =
    | Absent
    | ScalarV(v: nat)
    | StrV(s: seq<byte>)
    | ScalarVecV(xs: seq<nat>)
    | StrVecV(ss: seq<seq<byte>>)
    | TableV(fields: seq<Tree>)
    | TableVecV(tables: seq<Tree>)

  function StringsFrom(b: seq<byte>, v: int, i: nat, size: nat): (r: Option<seq<seq<byte>>>)
    requires i <= size
    decreases size - i
  {
    if i == size then Some([])
    else
      var p :- VecGetRef(b, v, i);
      var s :- GetString(b, p);
      var rest :- StringsFrom(b, v, i + 1, size);
      Some([s] + rest)
  }

  /** Reads the whole tree below the table at `t` through the accessors of its type. */
  function DecodeTable(sch: Schema, b: seq<byte>, ti: nat, t: int): (r: Option<Tree>)
    ensures r.Some? ==> r.value.TableV? && |r.value.fields| == |FieldsOf(sch, ti)|
    decreases |b| - t, 2, 0
  {
    // GetVTable is what every accessor starts with; a table type may have no field at all.
    var _ :- VTableOf(b, t);
    var fields :- DecodeFields(sch, b, ti, t, 0);
    Some(TableV(fields))
  }

  function DecodeFields(sch: Schema, b: seq<byte>, ti: nat, t: int, k: nat): (r: Option<seq<Tree>>)
    requires k <= |FieldsOf(sch, ti)|
    requires VTableOf(b, t).Some?
    ensures r.Some? ==> |r.value| == |FieldsOf(sch, ti)| - k
    decreases |b| - t, 1, |FieldsOf(sch, ti)| - k
  {
    if k == |FieldsOf(sch, ti)| then Some([])
    else
      var x :- DecodeField(sch, b, FieldsOf(sch, ti)[k], t);
      var rest :- DecodeFields(sch, b, ti, t, k + 1);
      Some([x] + rest)
  }

  /** Readers dereference a required field without asking whether it is there, so an absent one counts
      as a failed read as well. */
  function DecodeField(sch: Schema, b: seq<byte>, f: Field, t: int): Option<Tree>
    requires VTableOf(b, t).Some?
    decreases |b| - t, 0, 0
  {
    if f.ty.Scalar? then
      var v :- GetField(b, t, f.id, f.ty.size, f.ty.def);
      Some(ScalarV(v))
    else
      var ptr :- GetPointer(b, t, f.id);
      match ptr
      case Null => if f.required then None else Some(Absent)
      case At(p) => DecodeTarget(sch, b, f.ty, p)
  }

  function DecodeTarget(sch: Schema, b: seq<byte>, ty: FieldType, p: int): Option<Tree>
    requires !ty.Scalar?
    decreases |b| - p, 3, 0
  {
    match ty
    case Str =>
      var s :- GetString(b, p);
      Some(StrV(s))
    case ScalarVec(n) =>
      var xs :- GetScalars(b, p, n);
      Some(ScalarVecV(xs))
    case StrVec =>
      var size :- VecSize(b, p);
      var ss :- StringsFrom(b, p, 0, size);
      Some(StrVecV(ss))
    case Table(ti) =>
      DecodeTable(sch, b, ti, p)
    case TableVec(ti) =>
      var size :- VecSize(b, p);
      var ts :- DecodeTables(sch, b, ti, p, 0, size);
      Some(TableVecV(ts))
  }

  function DecodeTables(sch: Schema, b: seq<byte>, ti: nat, v: int, i: nat, size: nat)
    : (r: Option<seq<Tree>>)
    requires i <= size
    decreases |b| - v, 2, size - i
  {
    if i == size then Some([])
    else
      var p :- VecGetRef(b, v, i);
      var x :- DecodeTable(sch, b, ti, p);
      var rest :- DecodeTables(sch, b, ti, v, i + 1, size);
      Some([x] + rest)
  }

  /** GetRoot: the buffer starts with the offset of its root table. */
  function GetRoot(b: seq<byte>, start: nat): Option<nat>
  {
    var o :- U(b, start, 4);
    Some(start + o)
  }

  /** The number of tables visited below a tree, and how deeply they nest. */
  function Visits(t: Tree): (n: nat)
    ensures t.TableV? ==> n >= 1
  {
    match t
    case TableV(fs) => 1 + VisitsAll(fs)
    case TableVecV(ts) => VisitsAll(ts)
    case _ => 0
  }

  function VisitsAll(ts: seq<Tree>): nat
  {
    if ts == [] then 0 else Visits(ts[0]) + VisitsAll(ts[1..])
  }

  function Depth(t: Tree): (n: nat)
    ensures t.TableV? ==> n >= 1
  {
    match t
    case TableV(fs) => 1 + DepthAll(fs)
    case TableVecV(ts) => DepthAll(ts)
    case _ => 0
  }

  function DepthAll(ts: seq<Tree>): nat
  {
    if ts == [] then 0
    else
      var d, r := Depth(ts[0]), DepthAll(ts[1..]);
      if d > r then d else r
  }
}
