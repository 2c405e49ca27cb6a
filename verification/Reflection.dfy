/** The reflection schema, whose tables refer to each other and to themselves. */
module Reflection {
  import opened Bytes
  import opened FlatReader
  import opened FlatSchema
  import opened FlatVerifier
  import opened FlatSoundness
  import opened FlatSorted

  const TYPE: nat := 0
  const KEY_VALUE: nat := 1
  const ENUM_VAL: nat := 2
  const ENUM: nat := 3
  const FIELD: nat := 4
  const OBJECT: nat := 5
  const RPC_CALL: nat := 6
  const SERVICE: nat := 7
  const SCHEMA: nat := 8

  const TYPE_FIELDS: seq<Field> := [
    Field(4, Scalar(1, 0), false), Field(6, Scalar(1, 0), false), Field(8, Scalar(4, 0xFFFF_FFFF), false)]

  const KEY_VALUE_FIELDS: seq<Field> := [Field(4, Str, true), Field(6, Str, false)]

  const ENUM_VAL_FIELDS: seq<Field> := [
    Field(4, Str, true), Field(6, Scalar(8, 0), false), Field(8, Table(OBJECT), false),
    Field(10, Table(TYPE), false), Field(12, StrVec, false)]

  const ENUM_FIELDS: seq<Field> := [
    Field(4, Str, true), Field(6, TableVec(ENUM_VAL), true), Field(8, Scalar(1, 0), false),
    Field(10, Table(TYPE), true), Field(12, TableVec(KEY_VALUE), false), Field(14, StrVec, false)]

  const FIELD_FIELDS: seq<Field> := [
    Field(4, Str, true), Field(6, Table(TYPE), true), Field(8, Scalar(2, 0), false), Field(10, Scalar(2, 0), false),
    Field(12, Scalar(8, 0), false), Field(14, Scalar(8, 0), false), Field(16, Scalar(1, 0), false),
    Field(18, Scalar(1, 0), false), Field(20, Scalar(1, 0), false), Field(22, TableVec(KEY_VALUE), false),
    Field(24, StrVec, false)]

  const OBJECT_FIELDS: seq<Field> := [
    Field(4, Str, true), Field(6, TableVec(FIELD), true), Field(8, Scalar(1, 0), false), Field(10, Scalar(4, 0), false),
    Field(12, Scalar(4, 0), false), Field(14, TableVec(KEY_VALUE), false), Field(16, StrVec, false)]

  const RPC_CALL_FIELDS: seq<Field> := [
    Field(4, Str, true), Field(6, Table(OBJECT), true), Field(8, Table(OBJECT), true),
    Field(10, TableVec(KEY_VALUE), false), Field(12, StrVec, false)]

  const SERVICE_FIELDS: seq<Field> := [
    Field(4, Str, true), Field(6, TableVec(RPC_CALL), false), Field(8, TableVec(KEY_VALUE), false),
    Field(10, StrVec, false)]

  const SCHEMA_FIELDS: seq<Field> := [
    Field(4, TableVec(OBJECT), true), Field(6, TableVec(ENUM), true), Field(8, Str, false), Field(10, Str, false),
    Field(12, Table(OBJECT), false), Field(14, TableVec(SERVICE), false)]

  const REFLECTION: Schema := [
    TYPE_FIELDS, KEY_VALUE_FIELDS, ENUM_VAL_FIELDS, ENUM_FIELDS, FIELD_FIELDS, OBJECT_FIELDS, RPC_CALL_FIELDS, SERVICE_FIELDS,
    SCHEMA_FIELDS]

  lemma {:induction false} FieldsDecode(sch: Schema, b: seq<byte>, ti: nat, t: int, k: nat, j: nat)
    requires VTableOf(b, t).Some? && k <= j < |FieldsOf(sch, ti)| && DecodeFields(sch, b, ti, t, k).Some?
    ensures DecodeField(sch, b, FieldsOf(sch, ti)[j], t).Some?
    decreases j - k
  {
    hide DecodeField;
    if k < j {
      FieldsDecode(sch, b, ti, t, k + 1, j);
    }
  }

  lemma {:induction false} TablesDecode(sch: Schema, b: seq<byte>, ti: nat, v: int, i: nat, size: nat, j: nat)
    requires i <= j < size && DecodeTables(sch, b, ti, v, i, size).Some?
    ensures VecGetRef(b, v, j).Some? && DecodeTable(sch, b, ti, VecGetRef(b, v, j).value).Some?
    decreases j - i
  {
    hide DecodeTable, VecGetRef;
    if i < j {
      TablesDecode(sch, b, ti, v, i + 1, size, j);
    }
  }

  /** Which field a table type is sorted by. */
  function KeyFieldOf(ti: nat): Option<KeyField>
  {
    if ti == ENUM_VAL then Some(IntField(6))
    else if ti == FIELD || ti == ENUM || ti == OBJECT || ti == KEY_VALUE || ti == RPC_CALL || ti == SERVICE
    then Some(StringField(4))
    else None
  }

  /** The key of a table that was read can be read: a string key is a required field. */
  lemma {:induction false} KeysAreReadable(b: seq<byte>, ti: nat, t: int)
    requires KeyFieldOf(ti).Some? && DecodeTable(REFLECTION, b, ti, t).Some?
    ensures KeyOf(b, t, KeyFieldOf(ti).value).Some?
  {
    hide DecodeFields, GetField, GetPointer, GetString;
    var j := if ti == ENUM_VAL then 1 else 0;
    FieldsDecode(REFLECTION, b, ti, t, 0, j);
    assert FieldsOf(REFLECTION, ti)[j] == if ti == ENUM_VAL then Field(6, Scalar(8, 0), false) else Field(4, Str, true);
  }

  /** In a buffer the verifier accepts, every vector of tables with keys can be searched: the keys of all
      its elements can be read. */
  lemma {:induction false} VectorsHaveKeys(b: seq<byte>, ti: nat, v: int, size: nat) returns (keys: seq<Key>)
    requires KeyFieldOf(ti).Some? && VecSize(b, v) == Some(size)
    requires DecodeTables(REFLECTION, b, ti, v, 0, size).Some?
    ensures VectorKeys(b, v, KeyFieldOf(ti).value, keys)
  {
    hide DecodeTable, VecGetRef, KeyOf, DecodeTables, VecSize;
    var f := KeyFieldOf(ti).value;
    forall j: nat | j < size
      ensures ElementKey(b, v, f, j).Some?
    {
      TablesDecode(REFLECTION, b, ti, v, 0, size, j);
      KeysAreReadable(b, ti, VecGetRef(b, v, j).value);
    }
    keys := seq(size, j requires 0 <= j < size && ElementKey(b, v, f, j).Some? => ElementKey(b, v, f, j).value);
  }

  /** An accepted reflection buffer: everything below its root reads inside the buffer, the required
      objects and enums among it, and the recursion of the verifier ended with its depth restored. */
  lemma {:induction false} AcceptedReflectionIsReadable(lim: Limits, b: seq<byte>, start: nat, st: Counters)
    requires |b| < MAX_BUFFER_SIZE && VerifyBufferFromStart(REFLECTION, lim, b, SCHEMA, start, st).0
    ensures GetRoot(b, start).Some?
    ensures var root := GetRoot(b, start).value;
      && DecodeTable(REFLECTION, b, SCHEMA, root).Some?
      && GetPointer(b, root, 4).Some? && GetPointer(b, root, 4).value.At?
      && GetPointer(b, root, 6).Some? && GetPointer(b, root, 6).value.At?
    ensures VerifyBufferFromStart(REFLECTION, lim, b, SCHEMA, start, st).1.depth == st.depth
  {
    hide DecodeTable, VerifyBufferFromStart, GetRoot, GetPointer;
    VerifiedBufferIsReadable(REFLECTION, lim, b, SCHEMA, start, st);
    var root := GetRoot(b, start).value;
    RequiredFields(b, root);
  }

  lemma {:induction false} RequiredFields(b: seq<byte>, t: int)
    requires DecodeTable(REFLECTION, b, SCHEMA, t).Some?
    ensures GetPointer(b, t, 4).Some? && GetPointer(b, t, 4).value.At?
    ensures GetPointer(b, t, 6).Some? && GetPointer(b, t, 6).value.At?
  {
    hide DecodeFields, GetPointer, DecodeTarget;
    FieldsDecode(REFLECTION, b, SCHEMA, t, 0, 0);
    FieldsDecode(REFLECTION, b, SCHEMA, t, 0, 1);
    assert FieldsOf(REFLECTION, SCHEMA)[0] == Field(4, TableVec(OBJECT), true);
    assert FieldsOf(REFLECTION, SCHEMA)[1] == Field(6, TableVec(ENUM), true);
  }

  // ---------------------------------------------------------------------------------------------
  // The accessors of the nine table types, by the slots they read

  /** GetPointer of a slot: something readable, or null unless the field is required. */
  ghost predicate Points(b: seq<byte>, t: int, id: FieldId, required: bool, ty: FieldType)
    requires !ty.Scalar?
  {
    var p := GetPointer(b, t, id);
    && p.Some? && (required ==> p.value.At?)
    && (p.value.At? ==> DecodeTarget(REFLECTION, b, ty, p.value.pos).Some?)
  }

  ghost predicate IsString(b: seq<byte>, t: int, id: FieldId, required: bool)
  {
    var p := GetPointer(b, t, id);
    && p.Some? && (required ==> p.value.At?) && (p.value.At? ==> GetString(b, p.value.pos).Some?)
  }

  ghost predicate IsTable(b: seq<byte>, t: int, id: FieldId, required: bool, ti: nat)
  {
    Points(b, t, id, required, Table(ti))
  }

  ghost predicate AreTables(b: seq<byte>, t: int, id: FieldId, required: bool, ti: nat)
  {
    Points(b, t, id, required, TableVec(ti))
  }

  ghost predicate AreStrings(b: seq<byte>, t: int, id: FieldId)
  {
    Points(b, t, id, false, StrVec)
  }

  predicate IsScalar(b: seq<byte>, t: int, id: FieldId, n: ScalarSize, def: nat)
  {
    GetField(b, t, id, n, def).Some?
  }

  lemma {:induction false} SlotReads(b: seq<byte>, t: int, f: Field)
    requires VTableOf(b, t).Some? && DecodeField(REFLECTION, b, f, t).Some?
    ensures f.ty.Scalar? ==> IsScalar(b, t, f.id, f.ty.size, f.ty.def)
    ensures !f.ty.Scalar? ==> Points(b, t, f.id, f.required, f.ty)
    ensures f.ty.Str? ==> IsString(b, t, f.id, f.required)
  {
    hide VTableOf, GetField, GetPointer, GetString, GetScalars, StringsFrom, DecodeTable, DecodeTables, VecSize;
  }

  lemma {:induction false} SlotsRead(b: seq<byte>, ti: nat, t: int)
    requires DecodeTable(REFLECTION, b, ti, t).Some?
    ensures VTableOf(b, t).Some?
    ensures forall j :: 0 <= j < |FieldsOf(REFLECTION, ti)| ==>
      DecodeField(REFLECTION, b, FieldsOf(REFLECTION, ti)[j], t).Some?
  {
    hide VTableOf, DecodeFields, DecodeField, FieldsOf;
    forall j | 0 <= j < |FieldsOf(REFLECTION, ti)|
      ensures DecodeField(REFLECTION, b, FieldsOf(REFLECTION, ti)[j], t).Some?
    {
      FieldsDecode(REFLECTION, b, ti, t, 0, j);
    }
  }

  /** Slot by slot. */
  lemma {:induction false} AllSlotsRead(b: seq<byte>, ti: nat, t: int, fields: seq<Field>)
    requires DecodeTable(REFLECTION, b, ti, t).Some? && fields == FieldsOf(REFLECTION, ti)
    ensures forall j :: 0 <= j < |fields| && fields[j].ty.Scalar? ==>
      IsScalar(b, t, fields[j].id, fields[j].ty.size, fields[j].ty.def)
    ensures forall j :: 0 <= j < |fields| && !fields[j].ty.Scalar? ==>
      Points(b, t, fields[j].id, fields[j].required, fields[j].ty)
    ensures forall j :: 0 <= j < |fields| && fields[j].ty.Str? ==>
      IsString(b, t, fields[j].id, fields[j].required)
  {
    hide DecodeTable, DecodeField, VTableOf, IsScalar, Points, IsString, FieldsOf;
    SlotsRead(b, ti, t);
    forall j | 0 <= j < |fields|
      ensures fields[j].ty.Scalar? ==> IsScalar(b, t, fields[j].id, fields[j].ty.size, fields[j].ty.def)
      ensures !fields[j].ty.Scalar? ==> Points(b, t, fields[j].id, fields[j].required, fields[j].ty)
      ensures fields[j].ty.Str? ==> IsString(b, t, fields[j].id, fields[j].required)
    {
      SlotReads(b, t, fields[j]);
    }
  }

  /** Type and KeyValue. */
  lemma {:induction false} TypeReads(b: seq<byte>, t: int)
    requires DecodeTable(REFLECTION, b, 0, t).Some?
    ensures IsScalar(b, t, 4, 1, 0) && IsScalar(b, t, 6, 1, 0) && IsScalar(b, t, 8, 4, 0xFFFF_FFFF)
  {
    hide DecodeTable, IsScalar, Points, IsString;
    AllSlotsRead(b, 0, t, TYPE_FIELDS);
    var f := TYPE_FIELDS;
    assert f[0].id == 4 && f[1].id == 6 && f[2].id == 8;
  }

  lemma {:induction false} KeyValueReads(b: seq<byte>, t: int)
    requires DecodeTable(REFLECTION, b, 1, t).Some?
    ensures IsString(b, t, 4, true) && IsString(b, t, 6, false)
  {
    hide DecodeTable, IsScalar, Points, IsString;
    AllSlotsRead(b, 1, t, KEY_VALUE_FIELDS);
    var f := KEY_VALUE_FIELDS;
    assert f[0].id == 4 && f[1].id == 6;
  }

  lemma {:induction false} EnumValReads(b: seq<byte>, t: int)
    requires DecodeTable(REFLECTION, b, 2, t).Some?
    ensures IsString(b, t, 4, true) && IsScalar(b, t, 6, 8, 0) && IsTable(b, t, 8, false, 5)
    ensures IsTable(b, t, 10, false, 0) && AreStrings(b, t, 12)
  {
    hide DecodeTable, IsScalar, Points, IsString;
    AllSlotsRead(b, 2, t, ENUM_VAL_FIELDS);
    var f := ENUM_VAL_FIELDS;
    assert f[0].id == 4 && f[1].id == 6 && f[2].id == 8 && f[3].id == 10 && f[4].id == 12;
  }

  lemma {:induction false} EnumReads(b: seq<byte>, t: int)
    requires DecodeTable(REFLECTION, b, 3, t).Some?
    ensures IsString(b, t, 4, true) && AreTables(b, t, 6, true, 2) && IsScalar(b, t, 8, 1, 0)
    ensures IsTable(b, t, 10, true, 0) && AreTables(b, t, 12, false, 1) && AreStrings(b, t, 14)
  {
    hide DecodeTable, IsScalar, Points, IsString;
    AllSlotsRead(b, 3, t, ENUM_FIELDS);
    var f := ENUM_FIELDS;
    assert f[0].id == 4 && f[1].id == 6 && f[2].id == 8 && f[3].id == 10 && f[4].id == 12 && f[5].id == 14;
  }

  lemma {:induction false} FieldReads(b: seq<byte>, t: int)
    requires DecodeTable(REFLECTION, b, 4, t).Some?
    ensures IsString(b, t, 4, true) && IsTable(b, t, 6, true, 0) && IsScalar(b, t, 8, 2, 0)
    ensures IsScalar(b, t, 10, 2, 0) && IsScalar(b, t, 12, 8, 0) && IsScalar(b, t, 14, 8, 0)
    ensures IsScalar(b, t, 16, 1, 0) && IsScalar(b, t, 18, 1, 0) && IsScalar(b, t, 20, 1, 0)
    ensures AreTables(b, t, 22, false, 1) && AreStrings(b, t, 24)
  {
    hide DecodeTable, IsScalar, Points, IsString;
    AllSlotsRead(b, 4, t, FIELD_FIELDS);
    var f := FIELD_FIELDS;
    assert f[0].id == 4 && f[1].id == 6 && f[2].id == 8 && f[3].id == 10 && f[4].id == 12 && f[5].id == 14;
    assert f[6].id == 16 && f[7].id == 18 && f[8].id == 20 && f[9].id == 22 && f[10].id == 24;
  }

  lemma {:induction false} ObjectReads(b: seq<byte>, t: int)
    requires DecodeTable(REFLECTION, b, 5, t).Some?
    ensures IsString(b, t, 4, true) && AreTables(b, t, 6, true, 4) && IsScalar(b, t, 8, 1, 0)
    ensures IsScalar(b, t, 10, 4, 0) && IsScalar(b, t, 12, 4, 0) && AreTables(b, t, 14, false, 1) && AreStrings(b, t, 16)
  {
    hide DecodeTable, IsScalar, Points, IsString;
    AllSlotsRead(b, 5, t, OBJECT_FIELDS);
    var f := OBJECT_FIELDS;
    assert f[0].id == 4 && f[1].id == 6 && f[2].id == 8 && f[3].id == 10 && f[4].id == 12 && f[5].id == 14 && f[6].id == 16;
  }

  lemma {:induction false} RpcCallReads(b: seq<byte>, t: int)
    requires DecodeTable(REFLECTION, b, 6, t).Some?
    ensures IsString(b, t, 4, true) && IsTable(b, t, 6, true, 5) && IsTable(b, t, 8, true, 5)
    ensures AreTables(b, t, 10, false, 1) && AreStrings(b, t, 12)
  {
    hide DecodeTable, IsScalar, Points, IsString;
    AllSlotsRead(b, 6, t, RPC_CALL_FIELDS);
    var f := RPC_CALL_FIELDS;
    assert f[0].id == 4 && f[1].id == 6 && f[2].id == 8 && f[3].id == 10 && f[4].id == 12;
  }

  lemma {:induction false} ServiceReads(b: seq<byte>, t: int)
    requires DecodeTable(REFLECTION, b, 7, t).Some?
    ensures IsString(b, t, 4, true) && AreTables(b, t, 6, false, 6) && AreTables(b, t, 8, false, 1) && AreStrings(b, t, 10)
  {
    hide DecodeTable, IsScalar, Points, IsString;
    AllSlotsRead(b, 7, t, SERVICE_FIELDS);
    var f := SERVICE_FIELDS;
    assert f[0].id == 4 && f[1].id == 6 && f[2].id == 8 && f[3].id == 10;
  }

  /** Everything below the root of an accepted buffer, read by the numbers of the slots; each table that
      is found is again one of the nine, so this goes on to any depth. */
  lemma {:induction false} SchemaReads(b: seq<byte>, t: int)
    requires DecodeTable(REFLECTION, b, 8, t).Some?
    ensures AreTables(b, t, 4, true, 5) && AreTables(b, t, 6, true, 3) && IsString(b, t, 8, false)
    ensures IsString(b, t, 10, false) && IsTable(b, t, 12, false, 5) && AreTables(b, t, 14, false, 7)
  {
    hide DecodeTable, IsScalar, Points, IsString;
    AllSlotsRead(b, 8, t, SCHEMA_FIELDS);
    var f := SCHEMA_FIELDS;
    assert f[0].id == 4 && f[1].id == 6 && f[2].id == 8 && f[3].id == 10 && f[4].id == 12 && f[5].id == 14;
  }
}
