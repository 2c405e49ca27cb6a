/** Whole runs of the builder: laying out bytes refines remembering what was asked for. */
module FlatRun {
  import opened Bytes
  import opened FlatReader
  import opened FlatSchema
  import opened FlatLayout
  import opened FlatObjects
  import opened FlatCreate
  import opened FlatTable
  import opened FlatEndTable

  /** One call of the builder. Objects are named by the order of their creation. */
  datatype Step =
    | CallString(s: seq<byte>)
    | CallSharedString(s: seq<byte>)
    | CallScalars(n: ScalarSize, xs: seq<nat>)
    | CallOffsets(hs: seq<nat>)
    | CallStartTable
    | CallAddElement(id: FieldId, n: ScalarSize, v: nat, def: nat)
    | CallAddOffset(id: FieldId, h: nat)
    | CallEndTable
    | CallForceDefaults(on: bool)
    | CallDedupVtables(on: bool)

  /** The builder with the offsets it returned so far and the start of the open table. */
  datatype Conf = Conf(st: State, offs: seq<nat>, start: nat)

  /** What the caller meant: the objects so far, which of them were asked for as shared strings, and
      the fields of the open table. Nothing here depends on layout, sharing or forced defaults. */
  datatype Abs = Abs(objs: seq<Obj>, shared: set<nat>, open: bool, pend: map<FieldId, FieldVal>)

  const ABS_INITIAL := Abs([], {}, false, map[])

  function AbsStep(a: Abs, step: Step): Abs
  {
    match step
    case CallString(s) => a.(objs := a.objs + [OStr(s)])
    case CallSharedString(s) => a.(objs := a.objs + [OStr(s)], shared := a.shared + {|a.objs|})
    case CallScalars(n, xs) => a.(objs := a.objs + [OScalars(n, xs)])
    case CallOffsets(hs) => a.(objs := a.objs + [ORefs(hs)])
    case CallStartTable => a.(open := true, pend := map[])
    case CallAddElement(id, n, v, def) => a.(pend := a.pend[id := Sc(n, v, def)])
    case CallAddOffset(id, h) => a.(pend := a.pend[id := Ref(h)])
    case CallEndTable => a.(objs := a.objs + [OTable(a.pend)], open := false, pend := map[])
    case CallForceDefaults(on) => a
    case CallDedupVtables(on) => a
  }

  /** What callers owe the builder: values of the stated sizes, offsets it returned, fields only inside
      a table and each of them once. */
  predicate Legal(a: Abs, step: Step)
  {
    match step
    case CallString(s) => !a.open
    case CallSharedString(s) => !a.open
    case CallScalars(n, xs) => !a.open && forall k :: 0 <= k < |xs| ==> xs[k] < Pow256(n)
    case CallOffsets(hs) => !a.open && forall k :: 0 <= k < |hs| ==> hs[k] < |a.objs|
    case CallStartTable => !a.open
    case CallAddElement(id, n, v, def) => a.open && id !in a.pend && v < Pow256(n)
    case CallAddOffset(id, h) => a.open && id !in a.pend && h < |a.objs|
    case CallEndTable => a.open
    case _ => true
  }

  /** One call on the builder; `None` when an assertion of the builder fails. */
  function Exec(c: Conf, step: Step): (r: Option<Conf>)
    ensures r.Some? ==> |r.value.st.bytes| < MAX_BUFFER_SIZE
  {
    var notNested := !c.st.nested && c.st.fields == [];
    match step
    case CallString(s) =>
      if notNested then Created(c, CreateString(c.st, s)) else None
    case CallSharedString(s) =>
      if notNested && |CreateString(c.st, s).0.bytes| < MAX_BUFFER_SIZE
      then Created(c, CreateSharedString(c.st, s)) else None
    case CallScalars(n, xs) =>
      if notNested then Created(c, CreateScalars(c.st, n, xs)) else None
    case CallOffsets(hs) =>
      if notNested && forall k :: 0 <= k < |hs| ==> ValidHandle(c, hs[k])
      then Created(c, CreateOffsets(c.st, Targets(c.offs, hs))) else None
    case CallStartTable =>
      if notNested then Within(c.(st := StartTable(c.st), start := |c.st.bytes|)) else None
    case CallAddElement(id, n, v, def) =>
      Within(c.(st := AddScalar(c.st, id, n, v, def)))
    case CallAddOffset(id, h) =>
      if ValidHandle(c, h) then Within(c.(st := AddOffset(c.st, id, c.offs[h]))) else None
    case CallEndTable =>
      if c.st.nested && CanEnd(c.st, c.start) && DistinctIds(c.st.fields)
      then Created(c, EndTable(c.st, c.start)) else None
    case CallForceDefaults(on) => Within(c.(st := c.st.(forceDefaults := on)))
    case CallDedupVtables(on) => Within(c.(st := c.st.(dedup := on)))
  }

  /** ReferTo's assertion. */
  predicate ValidHandle(c: Conf, h: nat)
  {
    h < |c.offs| && 0 < c.offs[h] <= |c.st.bytes|
  }

  function Within(c: Conf): (r: Option<Conf>)
    ensures r.Some? ==> r.value == c && |c.st.bytes| < MAX_BUFFER_SIZE
  {
    if |c.st.bytes| < MAX_BUFFER_SIZE then Some(c) else None
  }

  function Created(c: Conf, r: (State, nat)): (r': Option<Conf>)
    ensures r'.Some? ==> |r'.value.st.bytes| < MAX_BUFFER_SIZE
  {
    Within(c.(st := r.0, offs := c.offs + [r.1]))
  }

  function Run(c: Conf, steps: seq<Step>): Option<Conf>
    decreases |steps|
  {
    if steps == [] then Some(c)
    else
      var c1 :- Exec(c, steps[0]);
      Run(c1, steps[1..])
  }

  function AbsRun(a: Abs, steps: seq<Step>): Abs
    decreases |steps|
  {
    if steps == [] then a else AbsRun(AbsStep(a, steps[0]), steps[1..])
  }

  predicate LegalRun(a: Abs, steps: seq<Step>)
    decreases |steps|
  {
    steps == [] || (Legal(a, steps[0]) && LegalRun(AbsStep(a, steps[0]), steps[1..]))
  }

  // ---------------------------------------------------------------------------------------------
  // The invariant

  ghost predicate ObjsInPlace(b: seq<byte>, offs: seq<nat>, objs: seq<Obj>, minalign: nat)
  {
    && |offs| == |objs|
    && forall h :: 0 <= h < |objs| ==>
         RefsBelow(objs[h], h) && ObjAt(b, offs, offs[h], objs[h], minalign)
  }

  ghost predicate VTablesInPlace(b: seq<byte>, vtables: seq<nat>)
  {
    forall o :: o in vtables ==> Multiple(o, 2) && o <= |b|
  }

  ghost predicate SharedIn(pool: seq<nat>, offs: seq<nat>, objs: seq<Obj>, h: nat)
  {
    h < |objs| && h < |offs| && objs[h].OStr? && offs[h] in pool
  }

  ghost predicate SharedAt(offs: seq<nat>, shared: set<nat>, p: nat)
  {
    exists h :: h in shared && h < |offs| && offs[h] == p
  }

  /** Pooling is exact: among shared strings, equal offsets and equal contents are the same thing. */
  ghost predicate PoolExact(pool: seq<nat>, offs: seq<nat>, objs: seq<Obj>, shared: set<nat>)
  {
    && (forall h :: h in shared ==> SharedIn(pool, offs, objs, h))
    && (forall p :: p in pool ==> SharedAt(offs, shared, p))
    && (forall h, k :: h in shared && k in shared ==> (objs[h] == objs[k] <==> offs[h] == offs[k]))
  }

  ghost predicate Inv(c: Conf, a: Abs)
  {
    && IsAlign(c.st.minalign)
    && ObjsInPlace(c.st.bytes, c.offs, a.objs, c.st.minalign)
    && VTablesInPlace(c.st.bytes, c.st.vtables)
    && PoolExact(c.st.pool, c.offs, a.objs, a.shared)
    && c.st.nested == a.open
    && (if a.open
        then Pending(c.st, c.offs, c.start, a.pend) && RefsBelow(OTable(a.pend), |a.objs|)
        else c.st.fields == [] && c.st.maxVoffset == 0)
  }

  lemma {:induction false} ObjsGrow(b': seq<byte>, b: seq<byte>, offs: seq<nat>, objs: seq<Obj>, m: nat, m': nat)
    requires ObjsInPlace(b, offs, objs, m) && Extends(b', b) && m <= m'
    ensures ObjsInPlace(b', offs, objs, m')
  {
    hide ObjAt;
    forall h | 0 <= h < |objs|
      ensures ObjAt(b', offs, offs[h], objs[h], m')
    {
      ObjAtGrows(Prefix(b', b), b, offs, [], offs[h], objs[h], m, m');
      assert offs + [] == offs;
    }
  }

  lemma {:induction false} ObjsAppend(b: seq<byte>, offs: seq<nat>, objs: seq<Obj>, o: nat, obj: Obj, m: nat)
    requires ObjsInPlace(b, offs, objs, m)
    requires RefsBelow(obj, |objs|) && ObjAt(b, offs, o, obj, m)
    ensures ObjsInPlace(b, offs + [o], objs + [obj], m)
  {
    hide ObjAt, RefsBelow;
    forall h | 0 <= h < |objs + [obj]|
      ensures RefsBelow((objs + [obj])[h], h)
      ensures ObjAt(b, offs + [o], (offs + [o])[h], (objs + [obj])[h], m)
    {
      if h < |objs| {
        ObjAtGrows([], b, offs, [o], offs[h], objs[h], m, m);
      } else {
        ObjAtGrows([], b, offs, [o], o, obj, m, m);
      }
      assert [] + b == b;
    }
  }

  lemma {:induction false} PoolUnshared(pool: seq<nat>, offs: seq<nat>, objs: seq<Obj>, shared: set<nat>, o: nat, obj: Obj)
    requires PoolExact(pool, offs, objs, shared)
    requires |offs| == |objs|
    ensures PoolExact(pool, offs + [o], objs + [obj], shared)
  {
    var offs', objs' := offs + [o], objs + [obj];
    forall h | h in shared
      ensures SharedIn(pool, offs', objs', h) && offs'[h] == offs[h] && objs'[h] == objs[h]
    {
      assert SharedIn(pool, offs, objs, h);
    }
    forall p | p in pool
      ensures SharedAt(offs', shared, p)
    {
      assert SharedAt(offs, shared, p);
      var h :| h in shared && h < |offs| && offs[h] == p;
      assert offs'[h] == p;
    }
  }

  /** A step that puts a new object in front of what is there. */
  lemma {:induction false} CreatedInv(c: Conf, a: Abs, c': Conf, o: nat, obj: Obj)
    requires Inv(c, a) && !a.open && RefsBelow(obj, |a.objs|)
    requires Extends(c'.st.bytes, c.st.bytes) && c'.offs == c.offs + [o]
    requires ObjAt(c'.st.bytes, c.offs, o, obj, c'.st.minalign)
    requires c.st.minalign <= c'.st.minalign && IsAlign(c'.st.minalign)
    requires c'.st == c.st.(bytes := c'.st.bytes, minalign := c'.st.minalign)
    ensures Inv(c', a.(objs := a.objs + [obj]))
  {
    assert |c.offs| == |a.objs|;
    hide ObjAt, Extends, RefsBelow, PoolExact, ObjsInPlace, Multiple;
    ObjsGrow(c'.st.bytes, c.st.bytes, c.offs, a.objs, c.st.minalign, c'.st.minalign);
    ObjsAppend(c'.st.bytes, c.offs, a.objs, o, obj, c'.st.minalign);
    PoolUnshared(c.st.pool, c.offs, a.objs, a.shared, o, obj);
    ExtendsLength(c'.st.bytes, c.st.bytes);
  }

  lemma {:induction false} StringInv(c: Conf, a: Abs, s: seq<byte>, c': Conf)
    requires Inv(c, a) && Legal(a, CallString(s)) && Exec(c, CallString(s)) == Some(c')
    ensures Inv(c', AbsStep(a, CallString(s)))
  {
    hide Inv, ObjAt, Extends, CreateString, PreAlign;
    var (st', o) := CreateString(c.st, s);
    CreateStringLayout(c.st, s, PreAlign(c.st, |s| + 1, 4), st', o);
    CreateStringReads(c.st, c.offs, s, st', o);
    MinalignOk(c, a, 4);
    CreatedInv(c, a, c', o, OStr(s));
  }

  lemma {:induction false} MinalignOk(c: Conf, a: Abs, n: nat)
    requires Inv(c, a) && IsAlign(n)
    ensures IsAlign(Max(c.st.minalign, n)) && IsAlign(Max(Max(c.st.minalign, 4), n))
  {
  }

  lemma {:induction false} ScalarsInv(c: Conf, a: Abs, n: ScalarSize, xs: seq<nat>, c': Conf)
    requires Inv(c, a) && Legal(a, CallScalars(n, xs)) && Exec(c, CallScalars(n, xs)) == Some(c')
    ensures Inv(c', AbsStep(a, CallScalars(n, xs)))
  {
    hide Inv, ObjAt, Extends, CreateScalars, PreAlign, Elems;
    var (st', o) := CreateScalars(c.st, n, xs);
    var e := Elems(xs, n);
    CreateScalarsLayout(c.st, n, xs, e, PreAlign(PreAlign(c.st, |e|, 4), |e|, n), st', o);
    LengthBelowBuffer(xs, n, e, PreAlign(PreAlign(c.st, |e|, 4), |e|, n).bytes, st'.bytes);
    CreateScalarsReads(c.st, c.offs, n, xs, st', o);
    MinalignOk(c, a, n);
    CreatedInv(c, a, c', o, OScalars(n, xs));
  }

  lemma {:induction false} LengthBelowBuffer(xs: seq<nat>, n: ScalarSize, e: seq<byte>, p: seq<byte>, b: seq<byte>)
    requires e == Elems(xs, n) && b == LE(|xs|, 4) + (e + p)
    ensures |xs| <= |b|
  {
    ElemsLength(xs, n);
    assert n * |xs| >= |xs|;
  }

  lemma {:induction false} OffsetsInv(c: Conf, a: Abs, hs: seq<nat>, c': Conf)
    requires Inv(c, a) && Legal(a, CallOffsets(hs)) && Exec(c, CallOffsets(hs)) == Some(c')
    ensures Inv(c', AbsStep(a, CallOffsets(hs)))
  {
    hide Inv, ObjAt, Extends, CreateOffsets;
    var (st', o) := CreateOffsets(c.st, Targets(c.offs, hs));
    CreateOffsetsLayout(c.st, Targets(c.offs, hs), st', o);
    CreateOffsetsReads(c.st, c.offs, hs, st', o);
    MinalignOk(c, a, 4);
    CreatedInv(c, a, c', o, ORefs(hs));
  }

  /** The content of a shared string is what its offset reads as in the pool's comparisons. */
  lemma {:induction false} SharedContent(b: seq<byte>, offs: seq<nat>, objs: seq<Obj>, m: nat, h: nat)
    requires ObjsInPlace(b, offs, objs, m) && h < |objs| && objs[h].OStr?
    ensures Content(b, offs[h]) == objs[h].s
  {
    assert ObjAt(b, offs, offs[h], objs[h], m);
  }

  lemma {:induction false} SharedStringInv(c: Conf, a: Abs, s: seq<byte>, c': Conf)
    requires Inv(c, a) && Legal(a, CallSharedString(s)) && Exec(c, CallSharedString(s)) == Some(c')
    ensures Inv(c', AbsStep(a, CallSharedString(s)))
  {
    hide ObjAt, Extends, CreateString, PreAlign, PoolExact, ObjsInPlace, FindString, VTablesInPlace;
    var (st1, o) := CreateString(c.st, s);
    CreateStringLayout(c.st, s, PreAlign(c.st, |s| + 1, 4), st1, o);
    CreateStringReads(c.st, c.offs, s, st1, o);
    MinalignOk(c, a, 4);
    var c1 := c.(st := st1, offs := c.offs + [o]);
    CreatedInv(c, a, c1, o, OStr(s));
    match FindString(st1.bytes, c.st.pool, o)
    case Some(p) => SharedHit(c, a, s, c1, p, c');
    case None => SharedMiss(c, a, s, c1, c');
  }

  /** A hit: the serialized bytes are those from before the call, and the old string stands for the
      new one. */
  lemma {:induction false} SharedHit(c: Conf, a: Abs, s: seq<byte>, c1: Conf, p: nat, c': Conf)
    requires Inv(c, a) && !a.open && Inv(c1, a.(objs := a.objs + [OStr(s)]))
    requires c1.offs == c.offs + [|c1.st.bytes|] && c1.st == c.st.(bytes := c1.st.bytes, minalign := Max(c.st.minalign, 4))
    requires FindString(c1.st.bytes, c.st.pool, |c1.st.bytes|) == Some(p)
    requires c' == c.(st := c1.st.(bytes := c.st.bytes), offs := c.offs + [p])
    ensures Inv(c', AbsStep(a, CallSharedString(s)))
    ensures c'.st == c.st
  {
    hide ObjAt, Extends, FindString, VTablesInPlace, Content;
    var n := |a.objs|;
    assert SharedAt(c.offs, a.shared, p);
    var h :| h in a.shared && h < |c.offs| && c.offs[h] == p;
    assert SharedIn(c.st.pool, c.offs, a.objs, h);
    SharedContent(c1.st.bytes, c1.offs, a.objs + [OStr(s)], c1.st.minalign, h);
    SharedContent(c1.st.bytes, c1.offs, a.objs + [OStr(s)], c1.st.minalign, n);
    assert a.objs[h] == OStr(s);
    MinalignAtLeast4(c, a, h);
    ObjsAppend(c.st.bytes, c.offs, a.objs, p, OStr(s), c.st.minalign);
    PoolHit(c.st.pool, c.offs, a.objs, a.shared, h);
  }

  lemma {:induction false} MinalignAtLeast4(c: Conf, a: Abs, h: nat)
    requires Inv(c, a) && h < |a.objs|
    ensures 4 <= c.st.minalign && Max(c.st.minalign, 4) == c.st.minalign
  {
    assert ObjAt(c.st.bytes, c.offs, c.offs[h], a.objs[h], c.st.minalign);
  }

  lemma {:induction false} PoolHit(pool: seq<nat>, offs: seq<nat>, objs: seq<Obj>, shared: set<nat>, h0: nat)
    requires PoolExact(pool, offs, objs, shared) && |offs| == |objs| && h0 in shared
    ensures h0 < |offs| &&
      PoolExact(pool, offs + [offs[h0]], objs + [objs[h0]], shared + {|objs|})
  {
    assert SharedIn(pool, offs, objs, h0);
    var offs', objs' := offs + [offs[h0]], objs + [objs[h0]];
    forall h | h in shared + {|objs|}
      ensures SharedIn(pool, offs', objs', h)
    {
      if h in shared {
        assert SharedIn(pool, offs, objs, h);
      }
    }
    forall p | p in pool
      ensures SharedAt(offs', shared + {|objs|}, p)
    {
      assert SharedAt(offs, shared, p);
      var h :| h in shared && h < |offs| && offs[h] == p;
      assert offs'[h] == p;
    }
    forall h, k | h in shared + {|objs|} && k in shared + {|objs|}
      ensures objs'[h] == objs'[k] <==> offs'[h] == offs'[k]
    {
      var h1, k1 := if h in shared then h else h0, if k in shared then k else h0;
      assert SharedIn(pool, offs, objs, h1) && SharedIn(pool, offs, objs, k1);
      assert objs'[h] == objs[h1] && offs'[h] == offs[h1] && objs'[k] == objs[k1] && offs'[k] == offs[k1];
    }
  }

  lemma {:induction false} SharedMiss(c: Conf, a: Abs, s: seq<byte>, c1: Conf, c': Conf)
    requires Inv(c, a) && !a.open && Inv(c1, a.(objs := a.objs + [OStr(s)]))
    requires c1.offs == c.offs + [|c1.st.bytes|] && c1.st == c.st.(bytes := c1.st.bytes, minalign := Max(c.st.minalign, 4))
    requires FindString(c1.st.bytes, c.st.pool, |c1.st.bytes|) == None
    requires c' == c1.(st := c1.st.(pool := c.st.pool + [|c1.st.bytes|]))
    ensures Inv(c', AbsStep(a, CallSharedString(s)))
  {
    hide ObjAt, Extends, FindString, VTablesInPlace, Content;
    var n, o, objs' := |a.objs|, |c1.st.bytes|, a.objs + [OStr(s)];
    SharedContent(c1.st.bytes, c1.offs, objs', c1.st.minalign, n);
    forall h | h in a.shared
      ensures SharedIn(c.st.pool, c.offs, a.objs, h) && a.objs[h] != OStr(s) && c.offs[h] != o
    {
      assert SharedIn(c.st.pool, c.offs, a.objs, h);
      SharedContent(c1.st.bytes, c1.offs, objs', c1.st.minalign, h);
      assert objs'[h] == a.objs[h] && c1.offs[h] == c.offs[h];
    }
    PoolMiss(c.st.pool, c.offs, a.objs, a.shared, o, OStr(s));
  }

  lemma {:induction false} PoolMiss(pool: seq<nat>, offs: seq<nat>, objs: seq<Obj>, shared: set<nat>, o: nat, obj: Obj)
    requires PoolExact(pool, offs, objs, shared) && |offs| == |objs| && obj.OStr?
    requires forall h :: h in shared ==> SharedIn(pool, offs, objs, h) && objs[h] != obj && offs[h] != o
    ensures PoolExact(pool + [o], offs + [o], objs + [obj], shared + {|objs|})
  {
    var pool', offs', objs', n := pool + [o], offs + [o], objs + [obj], |objs|;
    forall h | h in shared + {n}
      ensures SharedIn(pool', offs', objs', h)
      ensures h in shared ==> offs'[h] == offs[h] && objs'[h] == objs[h]
    {
      if h in shared {
        assert SharedIn(pool, offs, objs, h);
      }
    }
    forall p | p in pool'
      ensures SharedAt(offs', shared + {n}, p)
    {
      if p in pool {
        assert SharedAt(offs, shared, p);
        var h :| h in shared && h < |offs| && offs[h] == p;
        assert offs'[h] == p;
      } else {
        assert offs'[n] == p;
      }
    }
    forall h, k | h in shared + {n} && k in shared + {n}
      ensures objs'[h] == objs'[k] <==> offs'[h] == offs'[k]
    {
      if h in shared {
        assert SharedIn(pool, offs, objs, h);
      }
      if k in shared {
        assert SharedIn(pool, offs, objs, k);
      }
    }
  }

  /** A step inside a table: the buffer grows and one more field is pending. */
  lemma {:induction false} FieldInv(c: Conf, a: Abs, c': Conf, id: FieldId, x: FieldVal)
    requires Inv(c, a) && a.open && (x.Ref? ==> x.h < |a.objs|)
    requires Extends(c'.st.bytes, c.st.bytes) && c'.offs == c.offs && c'.start == c.start
    requires Pending(c'.st, c.offs, c.start, a.pend[id := x])
    requires c.st.minalign <= c'.st.minalign && IsAlign(c'.st.minalign)
    requires c'.st.nested && c'.st.vtables == c.st.vtables && c'.st.pool == c.st.pool
    ensures Inv(c', a.(pend := a.pend[id := x]))
  {
    hide ObjAt, Extends, Pending, PoolExact, ObjsInPlace, Multiple;
    ObjsGrow(c'.st.bytes, c.st.bytes, c.offs, a.objs, c.st.minalign, c'.st.minalign);
    ExtendsLength(c'.st.bytes, c.st.bytes);
  }

  lemma {:induction false} AddElementInv(c: Conf, a: Abs, id: FieldId, n: ScalarSize, v: nat, def: nat, c': Conf)
    requires Inv(c, a) && Legal(a, CallAddElement(id, n, v, def))
    requires Exec(c, CallAddElement(id, n, v, def)) == Some(c')
    ensures Inv(c', AbsStep(a, CallAddElement(id, n, v, def)))
  {
    AddScalarPending(c.st, c'.st, c.offs, c.start, a.pend, id, n, v, def);
    AddScalarFrame(c.st, id, n, v, def);
    MinalignOk(c, a, n);
    hide Inv, Extends, Pending, AddScalar;
    FieldInv(c, a, c', id, Sc(n, v, def));
  }

  lemma {:induction false} AddScalarFrame(st: State, id: FieldId, n: ScalarSize, v: nat, def: nat)
    ensures var st' := AddScalar(st, id, n, v, def);
      && (st'.minalign == st.minalign || st'.minalign == Max(st.minalign, n))
      && st'.nested == st.nested && st'.vtables == st.vtables && st'.pool == st.pool
  {
  }

  lemma {:induction false} AddOffsetInv(c: Conf, a: Abs, id: FieldId, h: nat, c': Conf)
    requires Inv(c, a) && Legal(a, CallAddOffset(id, h)) && Exec(c, CallAddOffset(id, h)) == Some(c')
    ensures Inv(c', AbsStep(a, CallAddOffset(id, h)))
  {
    AddOffsetPending(c.st, c'.st, c.offs, c.start, a.pend, id, h);
    MinalignOk(c, a, 4);
    hide Inv, Extends, Pending, PreAlign;
    FieldInv(c, a, c', id, Ref(h));
  }

  lemma {:induction false} StartTableInv(c: Conf, a: Abs, c': Conf)
    requires Inv(c, a) && Legal(a, CallStartTable) && Exec(c, CallStartTable) == Some(c')
    ensures Inv(c', AbsStep(a, CallStartTable))
  {
    hide ObjsInPlace, PoolExact;
    assert Pending(c'.st, c'.offs, c'.start, map[]);
  }

  lemma {:induction false} EndTableInv(c: Conf, a: Abs, c': Conf)
    requires Inv(c, a) && Legal(a, CallEndTable) && Exec(c, CallEndTable) == Some(c')
    ensures Inv(c', AbsStep(a, CallEndTable))
  {
    hide ObjAt, Extends, Pending, PoolExact, ObjsInPlace, Multiple, CanEnd, EndTable, NewVTable,
         SharedVTable, PreAlign, TableLoc, VTableOf;
    var (st', t) := EndTable(c.st, c.start);
    EndTableReads(c.st, c.offs, c.start, a.pend, st', t);
    match SharedVTable(c.st, c.start) {
      case Some(o) => EndTableShared(c.st, c.start, st', t, o);
      case None => EndTableNew(c.st, c.start, st', t);
    }
    ExtendsLength(st'.bytes, c.st.bytes);
    MinalignOk(c, a, 4);
    ObjsGrow(st'.bytes, c.st.bytes, c.offs, a.objs, c.st.minalign, st'.minalign);
    ObjsAppend(st'.bytes, c.offs, a.objs, t, OTable(a.pend), st'.minalign);
    SameSizes(c, a);
    PoolUnshared(c.st.pool, c.offs, a.objs, a.shared, t, OTable(a.pend));
  }

  lemma {:induction false} SameSizes(c: Conf, a: Abs)
    requires Inv(c, a)
    ensures |c.offs| == |a.objs|
  {
  }

  /** Every step of the builder keeps the invariant. */
  lemma {:induction false} StepInv(c: Conf, a: Abs, step: Step, c': Conf)
    requires Inv(c, a) && Legal(a, step) && Exec(c, step) == Some(c')
    ensures Inv(c', AbsStep(a, step))
  {
    match step
    case CallString(s) => StringInv(c, a, s, c');
    case CallSharedString(s) => SharedStringInv(c, a, s, c');
    case CallScalars(n, xs) => ScalarsInv(c, a, n, xs, c');
    case CallOffsets(hs) => OffsetsInv(c, a, hs, c');
    case CallStartTable => StartTableInv(c, a, c');
    case CallAddElement(id, n, v, def) => AddElementInv(c, a, id, n, v, def, c');
    case CallAddOffset(id, h) => AddOffsetInv(c, a, id, h, c');
    case CallEndTable => EndTableInv(c, a, c');
    case CallForceDefaults(on) => hide ObjsInPlace, PoolExact, LocHolds;
    case CallDedupVtables(on) => hide ObjsInPlace, PoolExact, LocHolds;
  }

  lemma {:induction false} RunInv(c: Conf, a: Abs, steps: seq<Step>, c': Conf)
    requires Inv(c, a) && LegalRun(a, steps) && Run(c, steps) == Some(c')
    ensures Inv(c', AbsRun(a, steps))
    decreases |steps|
  {
    if steps != [] {
      var c1 := Exec(c, steps[0]).value;
      StepInv(c, a, steps[0], c1);
      RunInv(c1, AbsStep(a, steps[0]), steps[1..], c');
    }
  }

  /** A fresh builder, with its two switches set either way. */
  function Fresh(forceDefaults: bool, dedup: bool): Conf
  {
    Conf(INITIAL.(forceDefaults := forceDefaults, dedup := dedup), [], 0)
  }

  lemma {:induction false} FreshInv(forceDefaults: bool, dedup: bool)
    ensures Inv(Fresh(forceDefaults, dedup), ABS_INITIAL)
  {
  }

  /** The main theorem about runs: whatever was called, in whatever order, every object created reads
      back as what it was created from, and sits where the verifier wants it. */
  lemma {:induction false} EveryObjectReadsBack(forceDefaults: bool, dedup: bool, steps: seq<Step>, c: Conf, h: nat)
    requires LegalRun(ABS_INITIAL, steps) && Run(Fresh(forceDefaults, dedup), steps) == Some(c)
    requires h < |AbsRun(ABS_INITIAL, steps).objs|
    ensures h < |c.offs| && ObjAt(c.st.bytes, c.offs, c.offs[h], AbsRun(ABS_INITIAL, steps).objs[h], c.st.minalign)
  {
    FreshInv(forceDefaults, dedup);
    RunInv(Fresh(forceDefaults, dedup), ABS_INITIAL, steps, c);
  }

  /** Pooling is exact over every run. */
  lemma {:induction false} PoolingIsExact(forceDefaults: bool, dedup: bool, steps: seq<Step>, c: Conf, h: nat, k: nat)
    requires LegalRun(ABS_INITIAL, steps) && Run(Fresh(forceDefaults, dedup), steps) == Some(c)
    requires h in AbsRun(ABS_INITIAL, steps).shared && k in AbsRun(ABS_INITIAL, steps).shared
    ensures h < |c.offs| && k < |c.offs| && h < |AbsRun(ABS_INITIAL, steps).objs| && k < |AbsRun(ABS_INITIAL, steps).objs|
    ensures c.offs[h] == c.offs[k]
       <==> AbsRun(ABS_INITIAL, steps).objs[h] == AbsRun(ABS_INITIAL, steps).objs[k]
  {
    FreshInv(forceDefaults, dedup);
    RunInv(Fresh(forceDefaults, dedup), ABS_INITIAL, steps, c);
    var a := AbsRun(ABS_INITIAL, steps);
    assert SharedIn(c.st.pool, c.offs, a.objs, h) && SharedIn(c.st.pool, c.offs, a.objs, k);
  }
}
