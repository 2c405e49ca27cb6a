/** Whole runs of the FlexBuffers builder: laying out bytes implements the machine on trees. */
module FlexRun {
  import opened Bytes
  import opened StringOrder
  import opened FlexWidth
  import opened FlexReader
  import opened FlexLayout
  import opened FlexDenote
  import opened FlexVector
  import opened FlexContainers
  import opened FlexPool
  import opened Sorting
  import opened FlexLeaves
  import opened FlexMachine

  /** Every pooled key is a C string in the buffer, and no two are the same. */
  ghost predicate KeyPoolOk(b: seq<byte>, pool: seq<nat>)
  {
    && (forall i :: 0 <= i < |pool| ==> CString(b, pool[i]).Some?)
    && (forall i, j :: 0 <= i < j < |pool| ==> CString(b, pool[i]) != CString(b, pool[j]))
  }

  /** A pooled string with its size in front and its terminator behind it. */
  ghost predicate PooledOk(b: seq<byte>, p: Pooled, strings: set<seq<byte>>)
  {
    && p.at + p.len < |b| && b[p.at + p.len] == 0
    && b[p.at..p.at + p.len] in strings
    && StringAt(b, p.at, ByteWidth(WidthU(p.len))) == Some(b[p.at..p.at + p.len])
  }

  ghost predicate StrPoolOk(b: seq<byte>, pool: seq<Pooled>, strings: set<seq<byte>>)
  {
    forall p :: p in pool ==> PooledOk(b, p, strings)
  }

  ghost predicate Inv(c: Conf, a: Abs)
  {
    && AllDenote(c.buf, c.stack, a.trees)
    && KeyPoolOk(c.buf, c.keyPool)
    && StrPoolOk(c.buf, c.strPool, a.strings)
  }

  lemma {:induction false} AllDenotePrefix(b: seq<byte>, b': seq<byte>, vs: seq<Value>, ts: seq<Tree>)
    requires AllDenote(b, vs, ts) && IsPrefix(b, b')
    ensures AllDenote(b', vs, ts)
  {
    hide Denotes, IsPrefix;
    forall i | 0 <= i < |vs|
      ensures Denotes(b', vs[i], ts[i])
    {
      DenotesPrefix(b, b', vs[i], ts[i]);
    }
  }

  lemma {:induction false} KeyPoolPrefix(b: seq<byte>, b': seq<byte>, pool: seq<nat>)
    requires KeyPoolOk(b, pool) && IsPrefix(b, b')
    ensures KeyPoolOk(b', pool)
  {
    hide CString, IsPrefix;
    forall i | 0 <= i < |pool|
      ensures CString(b', pool[i]) == CString(b, pool[i])
    {
      CStringPrefix(b, b', pool[i]);
    }
  }

  lemma {:induction false} PrefixSlice(b: seq<byte>, b': seq<byte>, at: nat, len: nat)
    requires IsPrefix(b, b') && at + len < |b|
    ensures b'[at..at + len] == b[at..at + len] && b'[at + len] == b[at + len]
  {
    assert b' == b + b'[|b|..];
  }

  lemma {:induction false} PooledPrefix(b: seq<byte>, b': seq<byte>, p: Pooled, strings: set<seq<byte>>)
    requires PooledOk(b, p, strings) && IsPrefix(b, b')
    ensures PooledOk(b', p, strings)
  {
    hide BlobAt, StringAt;
    StringHasBlob(b, p.at, ByteWidth(WidthU(p.len)));
    BlobPrefix(b, b', p.at, ByteWidth(WidthU(p.len)));
    PrefixSlice(b, b', p.at, p.len);
  }

  lemma {:induction false} StrPoolPrefix(b: seq<byte>, b': seq<byte>, pool: seq<Pooled>, strings: set<seq<byte>>)
    requires StrPoolOk(b, pool, strings) && IsPrefix(b, b')
    ensures StrPoolOk(b', pool, strings)
  {
    hide PooledOk, IsPrefix;
    forall p | p in pool
      ensures PooledOk(b', p, strings)
    {
      PooledPrefix(b, b', p, strings);
    }
  }

  /** What is in the buffer stays; a new value lies on top. */
  lemma {:induction false} PushInv(c: Conf, a: Abs, b: seq<byte>, v: Value, t: Tree)
    requires Inv(c, a) && IsPrefix(c.buf, b) && Denotes(b, v, t)
    ensures Inv(Push(c, (b, v)), a.(trees := a.trees + [t]))
  {
    hide Denotes, IsPrefix, KeyPoolOk, StrPoolOk;
    AllDenotePrefix(c.buf, b, c.stack, a.trees);
    KeyPoolPrefix(c.buf, b, c.keyPool);
    StrPoolPrefix(c.buf, b, c.strPool, a.strings);
  }

  lemma {:induction false} PrefixSelf(b: seq<byte>)
    ensures IsPrefix(b, b)
  {
  }

  // ---------------------------------------------------------------------------------------------
  // Keys

  /** The pool finds a key if and only if it holds one with the same characters. */
  lemma {:induction false} FindKeyIsExact(b: seq<byte>, s: seq<byte>, b': seq<byte>, pool: seq<nat>)
    requires KeyPoolOk(b, pool) && b' == b + s + [0]
    ensures match FindKey(b', pool, |b|)
      case Some(p) => p in pool && CString(b, p) == Some(Cut(s))
      case None => forall p :: p in pool ==> CString(b, p) != Some(Cut(s))
  {
    hide CString, Cut, SameKey;
    KeyDenotes(b, s, b');
    forall p | p in pool
      ensures CString(b, p) == Some(Cut(s)) <==> SameKey(b', p, |b|)
    {
      CStringPrefix(b, b', p);
      SameKeyIffEqual(b', p, |b|);
    }
  }

  lemma {:induction false} KeyAtDenotes(b: seq<byte>, p: nat, s: seq<byte>)
    requires CString(b, p) == Some(s)
    ensures Denotes(b, Value(p, FBT_KEY, 0), Key(s))
  {
  }

  lemma {:induction false} KeyPoolAdd(b: seq<byte>, pool: seq<nat>, p: nat)
    requires KeyPoolOk(b, pool) && CString(b, p).Some?
    requires forall q :: q in pool ==> CString(b, q) != CString(b, p)
    ensures KeyPoolOk(b, pool + [p])
  {
    hide CString;
  }

  lemma {:induction false} KeyInv(c: Conf, a: Abs, s: seq<byte>)
    requires Inv(c, a)
    ensures Inv(AddKey(c, s), a.(trees := a.trees + [Key(Cut(s))]))
  {
    hide Denotes, IsPrefix, AllDenote, KeyPoolOk, StrPoolOk, CString, Cut, FindKey;
    var b := c.buf + s + [0];
    KeyDenotes(c.buf, s, b);
    PushInv(c, a, b, Value(|c.buf|, FBT_KEY, 0), Key(Cut(s)));
    FindKeyIsExact(c.buf, s, b, c.keyPool);
    if c.flags.shareKeys {
      match FindKey(b, c.keyPool, |c.buf|)
      case Some(p) =>
        PrefixSelf(c.buf);
        KeyAtDenotes(c.buf, p, Cut(s));
        PushInv(c, a, c.buf, Value(p, FBT_KEY, 0), Key(Cut(s)));
      case None =>
        KeysStay(c.buf, b, c.keyPool);
        KeyPoolPrefix(c.buf, b, c.keyPool);
        KeyPoolAdd(b, c.keyPool, |c.buf|);
    }
  }

  lemma {:induction false} KeysStay(b: seq<byte>, b': seq<byte>, pool: seq<nat>)
    requires KeyPoolOk(b, pool) && IsPrefix(b, b')
    ensures forall p :: p in pool ==> CString(b', p) == CString(b, p)
  {
    hide CString, IsPrefix;
    forall p | p in pool
      ensures CString(b', p) == CString(b, p)
    {
      CStringPrefix(b, b', p);
    }
  }

  // ---------------------------------------------------------------------------------------------
  // Strings

  /** A string the pool finds agrees with the one asked for up to the first NUL. */
  lemma {:induction false} FindStringIsExact(
      c: Conf, strings: set<seq<byte>>, s: seq<byte>, b: seq<byte>, v: Value)
    requires StrPoolOk(c.buf, c.strPool, strings) && |s| < 0x1_0000_0000_0000_0000
    requires (b, v) == CreateBlob(c.buf, s, [0], FBT_STRING)
    ensures match FindString(b, c.strPool, Pooled(v.u, |s|))
      case Some(p) =>
        && p in c.strPool && PooledOk(c.buf, p, strings)
        && Cut(c.buf[p.at..p.at + p.len]) == Cut(s)
      case None => forall p :: p in c.strPool ==>
        PooledOk(c.buf, p, strings) && Cut(c.buf[p.at..p.at + p.len]) != Cut(s)
  {
    hide Cut, SameString, StringAt, IsPrefix, CreateBlob;
    StringDenotes(c.buf, s, b, v);
    forall p | p in c.strPool
      ensures PooledOk(c.buf, p, strings)
      ensures Cut(c.buf[p.at..p.at + p.len]) == Cut(s) <==> SameString(b, p, Pooled(v.u, |s|))
    {
      assert PooledOk(c.buf, p, strings);
      PooledStays(c.buf, b, p, strings);
      SameStringIffSameCut(b, p, Pooled(v.u, |s|), c.buf[p.at..p.at + p.len], s);
    }
  }

  lemma {:induction false} PooledStays(b: seq<byte>, b': seq<byte>, p: Pooled, strings: set<seq<byte>>)
    requires PooledOk(b, p, strings) && IsPrefix(b, b')
    ensures StringHere(b', p.at, b[p.at..p.at + p.len])
  {
    hide StringAt;
    PrefixSlice(b, b', p.at, p.len);
  }

  lemma {:induction false} PooledDenotes(b: seq<byte>, p: Pooled, strings: set<seq<byte>>, s: seq<byte>)
    requires PooledOk(b, p, strings) && b[p.at..p.at + p.len] == s
    ensures Denotes(b, Value(p.at, FBT_STRING, WidthU(|s|)), String(s))
  {
    hide StringAt;
  }

  lemma {:induction false} MoreStrings(b: seq<byte>, pool: seq<Pooled>, strings: set<seq<byte>>, s: seq<byte>)
    requires StrPoolOk(b, pool, strings)
    ensures StrPoolOk(b, pool, strings + {s})
  {
    hide StringAt;
    forall p | p in pool
      ensures PooledOk(b, p, strings + {s})
    {
      assert PooledOk(b, p, strings);
    }
  }

  lemma {:induction false} StringInv(c: Conf, a: Abs, s: seq<byte>)
    requires Inv(c, a) && Legal(a, c.flags, CallString(s))
    ensures Inv(AddString(c, s), AbsStep(a, c.flags, CallString(s)))
  {
    hide Denotes, IsPrefix, AllDenote, KeyPoolOk, StrPoolOk, Cut, FindString, StringHere, PooledOk, StringAt, CreateBlob;
    var (b, v) := CreateBlob(c.buf, s, [0], FBT_STRING);
    StringDenotes(c.buf, s, b, v);
    PushInv(c, a, b, v, String(s));
    FindStringIsExact(c, a.strings, s, b, v);
    MoreStrings(c.buf, c.strPool, a.strings, s);
    MoreStrings(b, c.strPool, a.strings, s);
    if c.flags.shareStrings {
      match FindString(b, c.strPool, Pooled(v.u, |s|))
      case Some(p) =>
        PooledContents(c.buf, p, a.strings);
        PrefixSelf(c.buf);
        PooledDenotes(c.buf, p, a.strings, s);
        PushInv(c, a, c.buf, v.(u := p.at), String(s));
      case None =>
        PooledNew(b, v, s, a.strings);
        StrPoolAdd(b, c.strPool, a.strings + {s}, Pooled(v.u, |s|));
    }
  }

  lemma {:induction false} PooledContents(b: seq<byte>, p: Pooled, strings: set<seq<byte>>)
    requires PooledOk(b, p, strings)
    ensures p.at + p.len < |b| && b[p.at..p.at + p.len] in strings
  {
  }

  lemma {:induction false} PooledNew(b: seq<byte>, v: Value, s: seq<byte>, strings: set<seq<byte>>)
    requires v.u >= 0 && v.minWidth == WidthU(|s|)
    requires StringHere(b, v.u, s) && StringAt(b, v.u, ByteWidth(v.minWidth)) == Some(s)
    ensures PooledOk(b, Pooled(v.u, |s|), strings + {s})
  {
    hide StringAt;
  }

  lemma {:induction false} StrPoolAdd(b: seq<byte>, pool: seq<Pooled>, strings: set<seq<byte>>, p: Pooled)
    requires StrPoolOk(b, pool, strings) && PooledOk(b, p, strings)
    ensures StrPoolOk(b, pool + [p], strings)
  {
    hide PooledOk;
  }

  // ---------------------------------------------------------------------------------------------
  // Vectors

  lemma {:induction false} AllDenoteSlice(b: seq<byte>, vs: seq<Value>, ts: seq<Tree>, start: nat)
    requires AllDenote(b, vs, ts) && start <= |vs|
    ensures AllDenote(b, vs[start..], ts[start..]) && AllDenote(b, vs[..start], ts[..start])
  {
    hide Denotes;
    forall i | 0 <= i < |vs| - start
      ensures Denotes(b, vs[start..][i], ts[start..][i])
    {
      assert vs[start..][i] == vs[start + i] && ts[start..][i] == ts[start + i];
    }
  }

  /** A container replaces its elements on the stack. */
  lemma {:induction false} ContainerInv(c: Conf, a: Abs, start: nat, b: seq<byte>, v: Value, t: Tree)
    requires Inv(c, a) && start <= |c.stack| && IsPrefix(c.buf, b) && Denotes(b, v, t)
    ensures start <= |a.trees|
    ensures Inv(c.(buf := b, stack := c.stack[..start] + [v]), a.(trees := a.trees[..start] + [t]))
  {
    hide Denotes, IsPrefix, KeyPoolOk, StrPoolOk;
    AllDenoteSlice(c.buf, c.stack, a.trees, start);
    AllDenotePrefix(c.buf, b, c.stack[..start], a.trees[..start]);
    KeyPoolPrefix(c.buf, b, c.keyPool);
    StrPoolPrefix(c.buf, b, c.strPool, a.strings);
  }

  /** A call of CreateVector, taken apart. */
  lemma {:induction false} CreateVectorParts(
      b: seq<byte>, e: Elements, shape: Shape, force: BitWidth, all: seq<byte>, v: Value)
      returns (w: BitWidth, head: seq<byte>, elems: seq<byte>)
    requires ElementsOk(e, |b|) && ShapeOk(e.vs, shape) && HeadWords(e, shape) <= e.index && 1 <= e.step
    requires (all, v) == CreateVector(b, e, shape, force)
    ensures Created(b, e, shape, force, w, head, elems, all)
    ensures v == Value(|head|,
      if e.keys.Some? then FBT_MAP else if shape == Untyped then FBT_VECTOR
      else ToTypedVector(ElementType(e.vs), if shape == Fixed then |e.vs| else 0), w)
  {
    hide VectorWidth, VectorHead, WriteElems, MaxWidth, ElemWidthOf, Writable, Placed, StoredPackedType, HeadWords;
    w := VectorWidth(e, |b|, force);
    head := VectorHead(b, e, shape, w);
    HeadWritable(b, e, shape, w, head);
    elems := WriteElems(head, e.vs, ByteWidth(w));
    assert e.step * |e.vs| >= |e.vs|;
  }

  /** What typed vectors and tuples rely on: the type of the value is that of the tree, and the width the
      reader assumes is the right one, unless the tree is a string whose size takes more than a byte. */
  lemma {:induction false} DenotesType(b: seq<byte>, v: Value, t: Tree)
    requires Denotes(b, v, t) && TreeType(t) != FBT_NULL
    ensures v.ty == TreeType(t)
    ensures WidthOk(v, t, 1) <==> !(t.String? && |t.s| >= 0x100)
  {
    hide CString, StringAt;
  }

  lemma {:induction false} TypesMatch(b: seq<byte>, vs: seq<Value>, ts: seq<Tree>)
    requires AllDenote(b, vs, ts) && TreesType(ts) != FBT_NULL
    requires forall i :: 0 <= i < |ts| ==> TreeType(ts[i]) == TreesType(ts)
    requires forall i :: 0 <= i < |ts| ==> ts[i].String? ==> |ts[i].s| < 0x100
    ensures SameType(vs, ts, TreesType(ts)) && ElementType(vs) == TreesType(ts) && OneType(vs)
  {
    hide Denotes, WidthOk, TreeType;
    forall i | 0 <= i < |vs|
      ensures vs[i].ty == TreesType(ts) && WidthOk(vs[i], ts[i], 1)
    {
      DenotesType(b, vs[i], ts[i]);
    }
  }

  lemma {:induction false} VectorInv(c: Conf, a: Abs, start: nat, shape: Shape, c': Conf)
    requires Inv(c, a) && start <= |a.trees| && LegalVector(a.trees[start..], shape)
    requires EndVector(c, start, shape) == Some(c')
    ensures Inv(c', a.(trees := a.trees[..start] + [ContainerOf(shape, a.trees[start..])]))
  {
    hide Denotes, IsPrefix, KeyPoolOk, StrPoolOk, CreateVector, SameType, ElementsOk, Created, TreeType;
    AllDenoteSlice(c.buf, c.stack, a.trees, start);
    var e, ts := VectorElements(c, start), a.trees[start..];
    var (b, v) := CreateVector(c.buf, e, shape, c.force);
    var w, head, elems := CreateVectorParts(c.buf, e, shape, c.force, b, v);
    match shape {
      case Untyped => UntypedVectorDenotes(c.buf, e, ts, c.force, w, head, elems, b);
      case Typed =>
        TypesMatch(c.buf, e.vs, ts);
        TypedVectorDenotes(c.buf, e, ts, TreesType(ts), c.force, w, head, elems, b);
      case Fixed =>
        NoStrings(ts);
        TypesMatch(c.buf, e.vs, ts);
        FixedVectorDenotes(c.buf, e, ts, TreesType(ts), c.force, w, head, elems, b);
    }
    ContainerInv(c, a, start, b, v, ContainerOf(shape, ts));
  }

  lemma {:induction false} NoStrings(ts: seq<Tree>)
    requires FBT_INT <= TreesType(ts) <= FBT_UINT
    requires forall i :: 0 <= i < |ts| ==> TreeType(ts[i]) == TreesType(ts)
    ensures forall i :: 0 <= i < |ts| ==> !ts[i].String?
  {
  }

  // ---------------------------------------------------------------------------------------------
  // Maps

  lemma {:induction false} HalvesDenote(b: seq<byte>, vs: seq<Value>, ts: seq<Tree>)
    requires AllDenote(b, vs, ts)
    ensures AllDenote(b, Evens(vs), Evens(ts)) && AllDenote(b, Odds(vs), Odds(ts))
  {
    hide Denotes;
  }

  lemma {:induction false} PickDenote(b: seq<byte>, vs: seq<Value>, ts: seq<Tree>, order: seq<nat>)
    requires AllDenote(b, vs, ts) && forall j :: 0 <= j < |order| ==> order[j] < |vs|
    ensures AllDenote(b, Pick(vs, order), Pick(ts, order))
  {
    hide Denotes;
  }

  /** The strings the sort compares are those of the trees. */
  lemma {:induction false} KeyStringsAreTreeKeys(b: seq<byte>, vs: seq<Value>, ts: seq<Tree>)
    requires AllDenote(b, vs, ts) && KeyTreesAt(ts)
    ensures KeysInPlace(b, vs) && KeyStrings(b, vs) == TreeKeys(ts)
  {
    hide CString;
    forall i | 0 <= i < |vs|
      ensures vs[i].ty == FBT_KEY && CString(b, vs[i].u) == Some(ts[i].s)
    {
      assert Denotes(b, vs[i], ts[i]);
    }
  }

  lemma {:induction false} PickKeyTrees(ts: seq<Tree>, order: seq<nat>)
    requires KeyTreesAt(ts) && forall j :: 0 <= j < |order| ==> order[j] < |ts|
    ensures Pick(ts, order) == KeyTrees(Pick(TreeKeys(ts), order))
  {
  }

  lemma {:induction false} SortedEntries(ts: seq<Tree>, order: seq<nat>)
    requires LegalMap(ts) && order == Order(LexLess, TreeKeys(Evens(ts)), |Evens(ts)|)
    ensures EntriesOf(Entries(ts), Pick(TreeKeys(Evens(ts)), order), Pick(Odds(ts), order))
  {
    hide Order, LexLess, Distinct;
    var ks, vals, es := TreeKeys(Evens(ts)), Odds(ts), Entries(ts);
    var ks', vals' := Pick(ks, order), Pick(vals, order);
    forall e | 0 <= e < |es|
      ensures EntryIn(es[e], ks', vals')
    {
      var i := OrderIsOnto(LexLess, ks, e);
      assert es[e] == Entry(ks[e], vals[e]);
      assert ks'[i] == ks[e] && vals'[i] == vals[e];
    }
    forall i | 0 <= i < |ks'|
      ensures KeyIn(es, Some(ks'[i]))
    {
      assert es[order[i]].key == ks'[i];
    }
  }

  /** The two vectors of a map, built one after the other. */
  lemma {:induction false} CreateMapDenotes(
      b: seq<byte>, start: nat, keys: seq<Value>, vals: seq<Value>, force: BitWidth,
      ks: seq<seq<byte>>, ts: seq<Tree>, es: seq<Entry>, all: seq<byte>, v: Value)
    requires CreateMap(b, start, keys, vals, force) == Some((all, v))
    requires AllDenote(b, keys, KeyTrees(ks)) && AllDenote(b, vals, ts)
    requires StrictlySorted(LexLess, ks) && EntriesOf(es, ks, ts)
    ensures Denotes(all, v, Map(es)) && IsPrefix(b, all)
  {
    hide Denotes, IsPrefix, CreateVector, SameType, ElementsOk, Created, EntriesOf, StrictlySorted;
    var eKeys := Elements(keys, start + 1, 2, None);
    var (b1, kv) := CreateVector(b, eKeys, Typed, force);
    var w1, head1, elems1 := CreateVectorParts(b, eKeys, Typed, force, b1, kv);
    KeysMatch(b, keys, ks);
    TypedVectorDenotes(b, eKeys, KeyTrees(ks), FBT_KEY, force, w1, head1, elems1, b1);
    AllDenotePrefix(b, b1, vals, ts);
    var eVals := Elements(vals, start + 4, 2, Some(kv));
    var w, head, elems := CreateVectorParts(b1, eVals, Untyped, force, all, v);
    MapDenotes(b1, eVals, ks, ts, es, force, w, head, elems, all);
    PrefixTrans(b, b1, all);
  }

  lemma {:induction false} KeysMatch(b: seq<byte>, vs: seq<Value>, ks: seq<seq<byte>>)
    requires AllDenote(b, vs, KeyTrees(ks))
    ensures SameType(vs, KeyTrees(ks), FBT_KEY) && ElementType(vs) == FBT_KEY && OneType(vs)
  {
    hide Denotes, WidthOk;
    forall i | 0 <= i < |vs|
      ensures vs[i].ty == FBT_KEY && WidthOk(vs[i], KeyTrees(ks)[i], 1)
    {
      DenotesType(b, vs[i], KeyTrees(ks)[i]);
    }
  }

  lemma {:induction false} MapInv(c: Conf, a: Abs, start: nat, c': Conf)
    requires Inv(c, a) && start <= |a.trees| && LegalMap(a.trees[start..])
    requires EndMap(c, start) == Some(c')
    ensures Inv(c', a.(trees := a.trees[..start] + [Map(Entries(a.trees[start..]))]))
  {
    hide Denotes, IsPrefix, KeyPoolOk, StrPoolOk, CreateMap, AllDenote, Order, Distinct, KeysInPlace, EntriesOf;
    SameLength(c.buf, c.stack, a.trees);
    AllDenoteSlice(c.buf, c.stack, a.trees, start);
    var vs, ts := c.stack[start..], a.trees[start..];
    HalvesDenote(c.buf, vs, ts);
    KeyStringsAreTreeKeys(c.buf, Evens(vs), Evens(ts));
    var ks := TreeKeys(Evens(ts));
    var order := Order(LexLess, ks, |ks|);
    PickDenote(c.buf, Evens(vs), Evens(ts), order);
    PickDenote(c.buf, Odds(vs), Odds(ts), order);
    PickKeyTrees(Evens(ts), order);
    LexLessIsStrictTotalOrder();
    OrderSorts(LexLess, ks, |ks|);
    SortedEntries(ts, order);
    var (b, v) := CreateMap(c.buf, start, Pick(Evens(vs), order), Pick(Odds(vs), order), c.force).value;
    CreateMapDenotes(c.buf, start, Pick(Evens(vs), order), Pick(Odds(vs), order), c.force,
                     Pick(ks, order), Pick(Odds(ts), order), Entries(ts), b, v);
    ContainerInv(c, a, start, b, v, Map(Entries(ts)));
  }

  // ---------------------------------------------------------------------------------------------
  // Runs

  lemma {:induction false} StepInv(c: Conf, a: Abs, call: Call, c': Conf)
    requires Inv(c, a) && Legal(a, c.flags, call) && Exec(c, call) == Some(c')
    ensures Inv(c', AbsStep(a, c.flags, call)) && c'.flags == c.flags
  {
    hide Inv, IsPrefix, CreateBlob, PushIndirect, LegalVector, LegalMap, CreateVector, CreateMap, AddKey, AddString, ReadsAt;
    PrefixSelf(c.buf);
    match call
    case CallNull => PushInv(c, a, c.buf, Value(0, FBT_NULL, 0), Null);
    case CallBool(x) => PushInv(c, a, c.buf, Value(if x then 1 else 0, FBT_BOOL, 0), Bool(x));
    case CallInt(i) => PushInv(c, a, c.buf, Value(i, FBT_INT, WidthI(i)), Int(i));
    case CallUInt(u) => PushInv(c, a, c.buf, Value(u, FBT_UINT, WidthU(u)), UInt(u));
    case CallIndirectInt(i) =>
      var (b, v) := PushIndirect(c.buf, i, FBT_INDIRECT_INT, WidthI(i));
      IndirectIntDenotes(c.buf, i, b, v);
      PushInv(c, a, b, v, IndirectInt(i));
    case CallIndirectUInt(u) =>
      var (b, v) := PushIndirect(c.buf, u, FBT_INDIRECT_UINT, WidthU(u));
      IndirectUIntDenotes(c.buf, u, b, v);
      PushInv(c, a, b, v, IndirectUInt(u));
    case CallKey(s) =>
      KeyInv(c, a, s);
      SameFlags(c, s);
    case CallString(s) =>
      StringInv(c, a, s);
      SameFlags(c, s);
    case CallBlob(s) =>
      var (b, v) := CreateBlob(c.buf, s, [], FBT_BLOB);
      BlobDenotes(c.buf, s, b, v);
      PushInv(c, a, b, v, Blob(s));
    case CallEndVector(start, shape) => VectorInv(c, a, start, shape, c');
    case CallEndMap(start) => MapInv(c, a, start, c');
    case CallForceMinimumBitWidth(w) => ForceInv(c, a, w);
  }

  lemma {:induction false} SameFlags(c: Conf, s: seq<byte>)
    ensures AddKey(c, s).flags == c.flags && AddString(c, s).flags == c.flags
  {
  }

  lemma {:induction false} ForceInv(c: Conf, a: Abs, w: BitWidth)
    requires Inv(c, a)
    ensures Inv(c.(force := w), a)
  {
  }

  /** After any run, every element on the stack stands for the tree the caller described. */
  lemma {:induction false} RunInv(c: Conf, a: Abs, calls: seq<Call>, c': Conf)
    requires Inv(c, a) && LegalRun(a, c.flags, calls) && Run(c, calls) == Some(c')
    ensures Inv(c', AbsRun(a, c.flags, calls))
    decreases |calls|
  {
    hide Inv, Legal, AbsStep, Exec;
    if calls != [] {
      var c1 := Exec(c, calls[0]).value;
      StepInv(c, a, calls[0], c1);
      RunInv(c1, AbsStep(a, c.flags, calls[0]), calls[1..], c');
    }
  }
}
