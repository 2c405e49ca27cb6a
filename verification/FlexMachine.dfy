/** The FlexBuffers Builder as a machine on values, and the machine on trees it implements. */
module FlexMachine {
  import opened Bytes
  import opened StringOrder
  import opened FlexWidth
  import opened FlexReader
  import opened FlexLayout
  import opened FlexPool
  import opened Sorting

  datatype Call =
    | CallNull
    | CallBool(v: bool)
    | CallInt(i: int)
    | CallUInt(u: int)
    | CallIndirectInt(i: int)
    | CallIndirectUInt(u: int)
    | CallKey(s: seq<byte>)
    | CallString(s: seq<byte>)
    | CallBlob(s: seq<byte>)
    | CallEndVector(start: nat, shape: Shape)
    | CallEndMap(start: nat)
    | CallForceMinimumBitWidth(w: BitWidth)

  datatype Flags = Flags(shareKeys: bool, shareStrings: bool)

  datatype Conf = Conf(
    buf: seq<byte>,
    stack: seq<Value>,
    keyPool: seq<nat>,
    strPool: seq<Pooled>,
    force: BitWidth,
    flags: Flags)

  function Fresh(flags: Flags): Conf
  {
    Conf([], [], [], [], 0, flags)
  }

  function Push(c: Conf, r: (seq<byte>, Value)): Conf
  {
    c.(buf := r.0, stack := c.stack + [r.1])
  }

  /** Key: serialize it, then take that back if the pool already holds it. */
  function AddKey(c: Conf, s: seq<byte>): Conf
  {
    var at := |c.buf|;
    var b := c.buf + s + [0];
    if !c.flags.shareKeys then Push(c, (b, Value(at, FBT_KEY, 0)))
    else match FindKey(b, c.keyPool, at)
      case Some(p) => Push(c, (c.buf, Value(p, FBT_KEY, 0)))
      case None => Push(c, (b, Value(at, FBT_KEY, 0))).(keyPool := c.keyPool + [at])
  }

  /** String: likewise, but the value keeps the width of the string that was asked for. */
  function AddString(c: Conf, s: seq<byte>): Conf
  {
    var (b, v) := CreateBlob(c.buf, s, [0], FBT_STRING);
    if !c.flags.shareStrings then Push(c, (b, v))
    else match FindString(b, c.strPool, Pooled(v.u, |s|))
      case Some(p) => Push(c, (c.buf, v.(u := p.at)))
      case None => Push(c, (b, v)).(strPool := c.strPool + [Pooled(v.u, |s|)])
  }

  /** A typed vector's assertion. */
  predicate OneType(vs: seq<Value>)
  {
    forall i :: 0 <= i < |vs| ==> vs[i].ty == ElementType(vs)
  }

  /** The assertions of EndVector and CreateVector about types and length. */
  predicate ShapeOk(vs: seq<Value>, shape: Shape)
  {
    && (shape != Untyped ==> OneType(vs) && IsTypedVectorElementType(ElementType(vs)))
    && (shape == Fixed ==> 2 <= |vs| <= 4)
  }

  function VectorElements(c: Conf, start: nat): Elements
    requires start <= |c.stack|
  {
    Elements(c.stack[start..], start + 1, 1, None)
  }

  function EndVector(c: Conf, start: nat, shape: Shape): Option<Conf>
  {
    if start > |c.stack| then None
    else
      var e := VectorElements(c, start);
      if ElementsOk(e, |c.buf|) && ShapeOk(e.vs, shape) then
        var (b, v) := CreateVector(c.buf, e, shape, c.force);
        Some(c.(buf := b, stack := c.stack[..start] + [v]))
      else None
  }

  /** Keys and values alternate on the stack. */
  function Evens<T>(s: seq<T>): (r: seq<T>)
    ensures |r| == |s| / 2 && forall i :: 0 <= i < |r| ==> r[i] == s[2 * i]
  {
    seq(|s| / 2, i requires 0 <= i < |s| / 2 => s[2 * i])
  }

  function Odds<T>(s: seq<T>): (r: seq<T>)
    ensures |r| == |s| / 2 && forall i :: 0 <= i < |r| ==> r[i] == s[2 * i + 1]
  {
    seq(|s| / 2, i requires 0 <= i < |s| / 2 => s[2 * i + 1])
  }

  /** EndMap's assertion that every other element is a key, which is a C string in the buffer. */
  predicate KeysInPlace(b: seq<byte>, vs: seq<Value>)
  {
    forall i :: 0 <= i < |vs| ==> vs[i].ty == FBT_KEY && CString(b, vs[i].u).Some?
  }

  function KeyStrings(b: seq<byte>, vs: seq<Value>): (r: seq<seq<byte>>)
    requires KeysInPlace(b, vs)
    ensures |r| == |vs| && forall i :: 0 <= i < |r| ==> CString(b, vs[i].u) == Some(r[i])
  {
    seq(|vs|, i requires 0 <= i < |vs| => CString(b, vs[i].u).value)
  }

  /** The vector of the keys, then the vector of the values with the keys in front of it. */
  function CreateMap(b: seq<byte>, start: nat, keys: seq<Value>, vals: seq<Value>, force: BitWidth)
    : (r: Option<(seq<byte>, Value)>)
  {
    var eKeys := Elements(keys, start + 1, 2, None);
    if ElementsOk(eKeys, |b|) && OneType(keys) && ElementType(keys) == FBT_KEY then
      var (b1, kv) := CreateVector(b, eKeys, Typed, force);
      var eVals := Elements(vals, start + 4, 2, Some(kv));
      if ElementsOk(eVals, |b1|) then Some(CreateVector(b1, eVals, Untyped, force)) else None
    else None
  }

  /** EndMap. Its sort asserts that no two keys are equal. */
  function EndMap(c: Conf, start: nat): Option<Conf>
  {
    if start > |c.stack| || (|c.stack| - start) % 2 != 0 then None
    else
      var keys, vals := Evens(c.stack[start..]), Odds(c.stack[start..]);
      if !KeysInPlace(c.buf, keys) then None
      else
        var ks := KeyStrings(c.buf, keys);
        if !Distinct(ks) then None
        else
          var order := Order(LexLess, ks, |ks|);
          var (b, v) :- CreateMap(c.buf, start, Pick(keys, order), Pick(vals, order), c.force);
          Some(c.(buf := b, stack := c.stack[..start] + [v]))
  }

  /** One call; `None` when an assertion of the builder fails. */
  function Exec(c: Conf, call: Call): Option<Conf>
  {
    match call
    case CallNull => Some(Push(c, (c.buf, Value(0, FBT_NULL, 0))))
    case CallBool(v) => Some(Push(c, (c.buf, Value(if v then 1 else 0, FBT_BOOL, 0))))
    case CallInt(i) => Some(Push(c, (c.buf, Value(i, FBT_INT, WidthI(i)))))
    case CallUInt(u) => if u < 0 then None else Some(Push(c, (c.buf, Value(u, FBT_UINT, WidthU(u)))))
    case CallIndirectInt(i) =>
      if !IsInt64(i) then None else Some(Push(c, PushIndirect(c.buf, i, FBT_INDIRECT_INT, WidthI(i))))
    case CallIndirectUInt(u) =>
      if u < 0 then None else Some(Push(c, PushIndirect(c.buf, u, FBT_INDIRECT_UINT, WidthU(u))))
    case CallKey(s) => Some(AddKey(c, s))
    case CallString(s) => Some(AddString(c, s))
    case CallBlob(s) => Some(Push(c, CreateBlob(c.buf, s, [], FBT_BLOB)))
    case CallEndVector(start, shape) => EndVector(c, start, shape)
    case CallEndMap(start) => EndMap(c, start)
    case CallForceMinimumBitWidth(w) => Some(c.(force := w))
  }

  function Run(c: Conf, calls: seq<Call>): Option<Conf>
    decreases |calls|
  {
    if calls == [] then Some(c)
    else
      var c1 :- Exec(c, calls[0]);
      Run(c1, calls[1..])
  }

  /** The least width asked for after these calls. */
  function MinimumAfter(initially: BitWidth, calls: seq<Call>): BitWidth
    decreases |calls|
  {
    if calls == [] then initially
    else MinimumAfter(if calls[0].CallForceMinimumBitWidth? then calls[0].w else initially, calls[1..])
  }

  /** Over every run the builder remembers the last one asked for. */
  lemma {:induction false} RunMinimum(c: Conf, calls: seq<Call>, c': Conf)
    requires Run(c, calls) == Some(c')
    ensures c'.force == MinimumAfter(c.force, calls)
    decreases |calls|
  {
    if calls != [] {
      hide Exec;
      var c1 := Exec(c, calls[0]).value;
      StepMinimum(c, calls[0], c1);
      RunMinimum(c1, calls[1..], c');
    }
  }

  lemma {:induction false} StepMinimum(c: Conf, call: Call, c': Conf)
    requires Exec(c, call) == Some(c')
    ensures c'.force == if call.CallForceMinimumBitWidth? then call.w else c.force
  {
    hide CreateVector, ElementsOk, ShapeOk, KeysInPlace, CreateMap, FindString, FindKey, CreateBlob, PushIndirect;
  }

  /** What the assertions refuse: a typed vector of elements of two types, a tuple of other than two to four, a map
      with a key twice. */
  lemma {:induction false} MixedTypesRefused(c: Conf, start: nat, shape: Shape, i: nat)
    requires shape != Untyped && start + i < |c.stack| && c.stack[start + i].ty != c.stack[start].ty
    ensures EndVector(c, start, shape).None?
  {
    hide ElementsOk, CreateVector;
    var vs := c.stack[start..];
    assert vs[i] == c.stack[start + i] && vs[0] == c.stack[start];
  }

  lemma {:induction false} TupleLengthRefused(c: Conf, start: nat)
    requires start <= |c.stack| && !(2 <= |c.stack| - start <= 4)
    ensures EndVector(c, start, Fixed).None?
  {
    hide ElementsOk, CreateVector, OneType;
  }

  lemma {:induction false} DuplicateKeyRefused(c: Conf, start: nat, i: nat, j: nat)
    requires start + 2 * i < start + 2 * j < |c.stack|
    requires CString(c.buf, c.stack[start + 2 * i].u) == CString(c.buf, c.stack[start + 2 * j].u)
    ensures EndMap(c, start).None?
  {
    hide CString, CreateMap, Order;
    var vs := c.stack[start..];
    var keys := Evens(vs);
    if (|c.stack| - start) % 2 == 0 && KeysInPlace(c.buf, keys) {
      assert keys[i] == c.stack[start + 2 * i] && keys[j] == c.stack[start + 2 * j];
      var ks := KeyStrings(c.buf, keys);
      assert ks[i] == ks[j];
    }
  }

  // ---------------------------------------------------------------------------------------------
  // The machine on trees

  /** A stack of trees, and the strings the pool has seen. */
  datatype Abs = Abs(trees: seq<Tree>, strings: set<seq<byte>>)

  const ABS_FRESH := Abs([], {})

  /** The type an element of a typed vector has. */
  function TreeType(t: Tree): FlexType
  {
    match t
    case Int(_) => FBT_INT
    case UInt(_) => FBT_UINT
    case Bool(_) => FBT_BOOL
    case Key(_) => FBT_KEY
    case String(_) => FBT_STRING
    case _ => FBT_NULL
  }

  function TreesType(ts: seq<Tree>): FlexType
  {
    if ts == [] then FBT_KEY else TreeType(ts[0])
  }

  function Entries(ts: seq<Tree>): (es: seq<Entry>)
    requires KeyTreesAt(Evens(ts))
    ensures |es| == |ts| / 2
    ensures forall i :: 0 <= i < |es| ==> es[i] == Entry(Evens(ts)[i].s, Odds(ts)[i])
  {
    seq(|ts| / 2, i requires 0 <= i < |ts| / 2 => Entry(Evens(ts)[i].s, Odds(ts)[i]))
  }

  predicate KeyTreesAt(ts: seq<Tree>)
  {
    forall i :: 0 <= i < |ts| ==> ts[i].Key?
  }

  function TreeKeys(ts: seq<Tree>): (r: seq<seq<byte>>)
    requires KeyTreesAt(ts)
    ensures |r| == |ts| && forall i :: 0 <= i < |r| ==> r[i] == ts[i].s
  {
    seq(|ts|, i requires 0 <= i < |ts| => ts[i].s)
  }

  function ContainerOf(shape: Shape, ts: seq<Tree>): Tree
  {
    match shape
    case Untyped => Vector(ts)
    case Typed => TypedVector(TreesType(ts), ts)
    case Fixed => FixedVector(TreesType(ts), ts)
  }

  /** What callers owe the builder: numbers of 64 bits; matched starts; in a typed vector elements of one
      type, and strings only if their size takes one byte, because that is what the reader assumes; in a
      tuple two to four numbers; in a map keys and values in turn, without duplicate keys; and, when
      strings are shared, no two that differ only behind a NUL. */
  predicate Legal(a: Abs, flags: Flags, call: Call)
  {
    match call
    case CallInt(i) => IsInt64(i)
    case CallUInt(u) => IsUInt64(u)
    case CallIndirectInt(i) => IsInt64(i)
    case CallIndirectUInt(u) => IsUInt64(u)
    case CallString(s) =>
      && |s| < 0x1_0000_0000_0000_0000
      && (flags.shareStrings ==> forall x :: x in a.strings && Cut(x) == Cut(s) ==> x == s)
    case CallBlob(s) => |s| < 0x1_0000_0000_0000_0000
    case CallEndVector(start, shape) => start <= |a.trees| && LegalVector(a.trees[start..], shape)
    case CallEndMap(start) => start <= |a.trees| && LegalMap(a.trees[start..])
    case _ => true
  }

  predicate LegalVector(ts: seq<Tree>, shape: Shape)
  {
    match shape
    case Untyped => true
    case Typed =>
      && IsTypedVectorElementType(TreesType(ts))
      && (forall i :: 0 <= i < |ts| ==> TreeType(ts[i]) == TreesType(ts))
      && (forall i :: 0 <= i < |ts| ==> ts[i].String? ==> |ts[i].s| < 0x100)
    case Fixed =>
      && 2 <= |ts| <= 4 && FBT_INT <= TreesType(ts) <= FBT_UINT
      && (forall i :: 0 <= i < |ts| ==> TreeType(ts[i]) == TreesType(ts))
  }

  predicate LegalMap(ts: seq<Tree>)
  {
    |ts| % 2 == 0 && KeyTreesAt(Evens(ts)) && Distinct(TreeKeys(Evens(ts)))
  }

  function AbsStep(a: Abs, flags: Flags, call: Call): Abs
    requires Legal(a, flags, call)
  {
    match call
    case CallNull => a.(trees := a.trees + [Null])
    case CallBool(v) => a.(trees := a.trees + [Bool(v)])
    case CallInt(i) => a.(trees := a.trees + [Int(i)])
    case CallUInt(u) => a.(trees := a.trees + [UInt(u)])
    case CallIndirectInt(i) => a.(trees := a.trees + [IndirectInt(i)])
    case CallIndirectUInt(u) => a.(trees := a.trees + [IndirectUInt(u)])
    case CallKey(s) => a.(trees := a.trees + [Key(Cut(s))])
    case CallString(s) =>
      Abs(a.trees + [String(s)], if flags.shareStrings then a.strings + {s} else a.strings)
    case CallBlob(s) => a.(trees := a.trees + [Blob(s)])
    case CallEndVector(start, shape) =>
      a.(trees := a.trees[..start] + [ContainerOf(shape, a.trees[start..])])
    case CallEndMap(start) => a.(trees := a.trees[..start] + [Map(Entries(a.trees[start..]))])
    case CallForceMinimumBitWidth(w) => a
  }

  predicate LegalRun(a: Abs, flags: Flags, calls: seq<Call>)
    decreases |calls|
  {
    calls == [] || (Legal(a, flags, calls[0]) && LegalRun(AbsStep(a, flags, calls[0]), flags, calls[1..]))
  }

  function AbsRun(a: Abs, flags: Flags, calls: seq<Call>): Abs
    requires LegalRun(a, flags, calls)
    decreases |calls|
  {
    if calls == [] then a else AbsRun(AbsStep(a, flags, calls[0]), flags, calls[1..])
  }
}
