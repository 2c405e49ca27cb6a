/** Vectors, typed vectors, tuples and maps: what CreateVector returns stands for the whole container.

    The elements are known to read one by one; here they are put together with the size in front, the packed
    types behind, the one type of a typed vector, and for a map the vector of its keys, which is sorted, and
    whose entries are found at the same positions as the values. */
module FlexContainers {
  import opened Bytes
  import opened StringOrder
  import opened FlexWidth
  import opened FlexReader
  import opened FlexLayout
  import opened FlexDenote
  import opened FlexVector
  import opened Sorting

  /** The parts of one CreateVector call, named. */
  ghost predicate Created(
      b: seq<byte>, e: Elements, shape: Shape, force: BitWidth,
      w: BitWidth, head: seq<byte>, elems: seq<byte>, all: seq<byte>)
  {
    && ElementsOk(e, |b|) && HeadWords(e, shape) <= e.index && 1 <= e.step
    && |e.vs| < 0x1_0000_0000_0000_0000
    && w == VectorWidth(e, |b|, force) && head == VectorHead(b, e, shape, w)
    && AllWritable(e.vs, |head|) && elems == WriteElems(head, e.vs, ByteWidth(w))
    && all == if shape == Untyped then elems + Types(e.vs, w) else elems
  }

  lemma {:induction false} CreatedPrefixes(
      b: seq<byte>, e: Elements, shape: Shape, force: BitWidth,
      w: BitWidth, head: seq<byte>, elems: seq<byte>, all: seq<byte>)
    requires Created(b, e, shape, force, w, head, elems, all)
    ensures IsPrefix(b, head) && IsPrefix(head, elems) && IsPrefix(elems, all) && IsPrefix(b, all)
    ensures IsPrefix(head, all)
    ensures shape != Fixed ==> SizeAt(all, |head|, ByteWidth(w)) == Some(|e.vs|)
  {
    hide IsPrefix, VectorHead, VectorWidth, WriteElems, SizeAt, ByteWidth, PaddingBytes, HeadWords;
    HeadSize(b, e, shape, w, head);
    ElemsPrefix(head, e.vs, ByteWidth(w), elems);
    PrefixAppend(elems, if shape == Untyped then Types(e.vs, w) else []);
    assert elems + [] == elems;
    PrefixTrans(b, head, elems);
    PrefixTrans(b, elems, all);
    PrefixTrans(head, elems, all);
    VectorWidthCovers(e, |b|, force, w);
    if shape != Fixed {
      HeadSizeReads(b, e, shape, w, head);
      SizePrefix(head, all, |head|, ByteWidth(w));
    }
  }

  lemma {:induction false} SizePrefix(b: seq<byte>, b': seq<byte>, p: int, n: nat)
    requires IsPrefix(b, b') && SizeAt(b, p, n).Some?
    ensures SizeAt(b', p, n) == SizeAt(b, p, n)
  {
    UPrefix(b, b', p - n, n);
  }

  /** Element `j` of an untyped vector: the packed type behind the elements gives its type and width. */
  lemma {:induction false} UntypedElem(
      b: seq<byte>, e: Elements, ts: seq<Tree>, force: BitWidth,
      w: BitWidth, head: seq<byte>, elems: seq<byte>, all: seq<byte>, j: nat)
    requires Created(b, e, Untyped, force, w, head, elems, all) && AllDenote(b, e.vs, ts) && j < |ts|
    ensures VectorAt(all, |head|, ByteWidth(w), j).Some?
    ensures Reads(all, VectorAt(all, |head|, ByteWidth(w), j).value, ts[j])
  {
    hide Denotes, Reads, ByteWidth, LE, IsPrefix, VectorHead, VectorWidth, PaddingBytes, WriteElems, HeadWords,
         Writable, Placed, StoredPackedType, U, Types, RefOfPacked;
    var n := ByteWidth(w);
    CreatedPrefixes(b, e, Untyped, force, w, head, elems, all);
    TypesRead(elems, e.vs, w, j);
    Swap(|e.vs|, n);
    var width := ByteWidth(StoredWidth(e.vs[j], w));
    StoredWidthOk(e.vs[j], ts[j], w);
    VectorElemReads(b, e, ts, Untyped, force, w, head, elems, all, j, width);
    PackedTypeReads(|head| + j * n, n, e.vs[j], w);
  }

  lemma {:induction false} Swap(a: nat, n: nat)
    ensures a * n == n * a
  {
  }

  lemma {:induction false} StoredWidthOk(v: Value, t: Tree, w: BitWidth)
    ensures WidthOk(v, t, ByteWidth(StoredWidth(v, w)))
  {
  }

  lemma {:induction false} UntypedVectorDenotes(
      b: seq<byte>, e: Elements, ts: seq<Tree>, force: BitWidth,
      w: BitWidth, head: seq<byte>, elems: seq<byte>, all: seq<byte>)
    requires Created(b, e, Untyped, force, w, head, elems, all) && AllDenote(b, e.vs, ts)
    ensures Denotes(all, Value(|head|, FBT_VECTOR, w), Vector(ts))
    ensures IsPrefix(b, all)
  {
    hide Created, Reads, ByteWidth, VectorAt, AllDenote;
    CreatedPrefixes(b, e, Untyped, force, w, head, elems, all);
    SameLength(b, e.vs, ts);
    forall j | 0 <= j < |ts|
      ensures VectorAt(all, |head|, ByteWidth(w), j).Some?
      ensures Reads(all, VectorAt(all, |head|, ByteWidth(w), j).value, ts[j])
    {
      UntypedElem(b, e, ts, force, w, head, elems, all, j);
    }
  }

  lemma {:induction false} SameLength(b: seq<byte>, vs: seq<Value>, ts: seq<Tree>)
    requires AllDenote(b, vs, ts)
    ensures |vs| == |ts|
  {
  }

  /** All elements of a typed vector have one type, and their readers need no width of their own. */
  predicate SameType(vs: seq<Value>, ts: seq<Tree>, ty: nat)
  {
    && |vs| == |ts|
    && forall i :: 0 <= i < |vs| ==> vs[i].ty == ty && WidthOk(vs[i], ts[i], 1)
  }

  lemma {:induction false} TypedVectorDenotes(
      b: seq<byte>, e: Elements, ts: seq<Tree>, ty: FlexType, force: BitWidth,
      w: BitWidth, head: seq<byte>, elems: seq<byte>, all: seq<byte>)
    requires Created(b, e, Typed, force, w, head, elems, all) && AllDenote(b, e.vs, ts)
    requires SameType(e.vs, ts, ty) && IsTypedVectorElementType(ty)
    ensures Denotes(all, Value(|head|, ToTypedVector(ty, 0), w), TypedVector(ty, ts))
    ensures IsPrefix(b, all)
  {
    hide Created, Reads, ByteWidth, AllDenote, SizeAt, Denotes, ToTypedVector, WidthOk, IsInline, IsTypedVector;
    CreatedPrefixes(b, e, Typed, force, w, head, elems, all);
    forall j | 0 <= j < |ts|
      ensures Reads(all, Ref(|head| + j * ByteWidth(w), ByteWidth(w), 1, ty), ts[j])
    {
      CreatedElemReads(b, e, ts, Typed, force, w, head, elems, all, j, 1);
    }
    TypedVectorTypeRoundTrip(ty);
    TypedDenotes(all, |head|, w, ToTypedVector(ty, 0), ty, ts);
  }

  lemma {:induction false} CreatedElemReads(
      b: seq<byte>, e: Elements, ts: seq<Tree>, shape: Shape, force: BitWidth,
      w: BitWidth, head: seq<byte>, elems: seq<byte>, all: seq<byte>, j: nat, width: nat)
    requires Created(b, e, shape, force, w, head, elems, all) && AllDenote(b, e.vs, ts)
    requires j < |ts| && WidthOk(e.vs[j], ts[j], width)
    ensures Reads(all, Ref(|head| + j * ByteWidth(w), ByteWidth(w), width, e.vs[j].ty), ts[j])
  {
    hide Denotes, Reads, ByteWidth, IsPrefix, VectorHead, VectorWidth, WriteElems, HeadWords, WidthOk, SizeAt;
    CreatedPrefixes(b, e, shape, force, w, head, elems, all);
    VectorElemReads(b, e, ts, shape, force, w, head, elems, all, j, width);
  }

  lemma {:induction false} TypedDenotes(
      all: seq<byte>, p: nat, w: BitWidth, vty: FlexType, ty: FlexType, ts: seq<Tree>)
    requires IsTypedVector(vty) && ToTypedVectorElementType(vty) == ty && p <= |all|
    requires SizeAt(all, p, ByteWidth(w)) == Some(|ts|)
    requires forall j :: 0 <= j < |ts| ==> Reads(all, Ref(p + j * ByteWidth(w), ByteWidth(w), 1, ty), ts[j])
    ensures Denotes(all, Value(p, vty, w), TypedVector(ty, ts))
  {
    hide Reads, ByteWidth, SizeAt;
  }

  lemma {:induction false} FixedVectorDenotes(
      b: seq<byte>, e: Elements, ts: seq<Tree>, ty: FlexType, force: BitWidth,
      w: BitWidth, head: seq<byte>, elems: seq<byte>, all: seq<byte>)
    requires Created(b, e, Fixed, force, w, head, elems, all) && AllDenote(b, e.vs, ts)
    requires SameType(e.vs, ts, ty) && FBT_INT <= ty <= FBT_FLOAT && 2 <= |ts| <= 4
    ensures Denotes(all, Value(|head|, ToTypedVector(ty, |ts|), w), FixedVector(ty, ts))
    ensures IsPrefix(b, all)
  {
    hide Created, Reads, ByteWidth, AllDenote, WidthOk;
    CreatedPrefixes(b, e, Fixed, force, w, head, elems, all);
    FixedTypeRoundTripIffNumbers(ty, |ts|);
    forall j | 0 <= j < |ts|
      ensures Reads(all, FixedTypedVectorAt(|head|, ByteWidth(w), ty, |ts|, j), ts[j])
    {
      CreatedElemReads(b, e, ts, Fixed, force, w, head, elems, all, j, 1);
    }
  }

  // ---------------------------------------------------------------------------------------------
  // Maps

  function KeyTrees(ks: seq<seq<byte>>): (r: seq<Tree>)
    ensures |r| == |ks| && forall i :: 0 <= i < |ks| ==> r[i] == Key(ks[i])
  {
    seq(|ks|, i requires 0 <= i < |ks| => Key(ks[i]))
  }

  predicate EntryIn(x: Entry, ks: seq<seq<byte>>, ts: seq<Tree>)
  {
    exists i :: 0 <= i < |ks| && i < |ts| && x == Entry(ks[i], ts[i])
  }

  /** The entries, in any order, of a map with these keys and values. */
  predicate EntriesOf(es: seq<Entry>, ks: seq<seq<byte>>, ts: seq<Tree>)
  {
    && |es| == |ks| == |ts|
    && (forall e :: 0 <= e < |es| ==> EntryIn(es[e], ks, ts))
    && (forall i :: 0 <= i < |ks| ==> KeyIn(es, Some(ks[i])))
  }

  /** Key `i` of a key vector, through the accessors of the map. */
  lemma {:induction false} KeyOfVector(b: seq<byte>, p: nat, n: nat, ks: seq<seq<byte>>, i: nat)
    requires ReadsAt(b, p, n, FBT_VECTOR_KEY, TypedVector(FBT_KEY, KeyTrees(ks))) && i < |ks|
    ensures KeyAt(b, KeyVector(p, n), i) == Some(ks[i])
  {
    hide U, CString, Indirect;
    var ts := KeyTrees(ks);
    var r := TypedVectorAt(b, p, n, FBT_KEY, i).value;
    assert TypedVectorAt(b, p, n, FBT_KEY, i).Some? && Reads(b, r, ts[i]);
    assert ts[i] == Key(ks[i]);
    KeyBehind(b, r, ks[i]);
  }

  lemma {:induction false} KeyBehind(b: seq<byte>, r: Ref, s: seq<byte>)
    requires Reads(b, r, Key(s))
    ensures Indirect(b, r.data, r.parent).Some? && CString(b, Indirect(b, r.data, r.parent).value) == Some(s)
  {
    hide U, CString, Indirect;
  }

  lemma {:induction false} KeysOfVectorSorted(b: seq<byte>, p: nat, n: nat, ks: seq<seq<byte>>)
    requires ReadsAt(b, p, n, FBT_VECTOR_KEY, TypedVector(FBT_KEY, KeyTrees(ks))) && StrictlySorted(LexLess, ks)
    ensures KeysSorted(b, KeyVector(p, n), |ks|)
    ensures SizeAt(b, p, n) == Some(|ks|)
  {
    hide KeyAt, Reads, SizeAt, LexLess;
    forall i | 0 <= i < |ks|
      ensures KeyAt(b, KeyVector(p, n), i) == Some(ks[i])
    {
      KeyOfVector(b, p, n, ks, i);
    }
  }

  lemma {:induction false} MapDenotes(
      b: seq<byte>, e: Elements, ks: seq<seq<byte>>, ts: seq<Tree>, es: seq<Entry>, force: BitWidth,
      w: BitWidth, head: seq<byte>, elems: seq<byte>, all: seq<byte>)
    requires Created(b, e, Untyped, force, w, head, elems, all) && AllDenote(b, e.vs, ts)
    requires e.keys.Some? && e.keys.value.ty == FBT_VECTOR_KEY
    requires Denotes(b, e.keys.value, TypedVector(FBT_KEY, KeyTrees(ks))) && StrictlySorted(LexLess, ks)
    requires EntriesOf(es, ks, ts)
    ensures Denotes(all, Value(|head|, FBT_MAP, w), Map(es))
    ensures IsPrefix(b, all)
  {
    hide Created, Reads, ByteWidth, VectorAt, AllDenote, SizeAt, KeysOf, KeysSorted, IsPrefix, StrictlySorted,
         KeyAt, EntriesOf, EntryReads, ReadsAt, KeysFrom;
    var kv := e.keys.value;
    var k := KeyVector(kv.u, ByteWidth(kv.minWidth));
    CreatedPrefixes(b, e, Untyped, force, w, head, elems, all);
    SameLength(b, e.vs, ts);
    MapKeysRead(b, e, force, w, head, elems, all);
    DenotesPrefix(b, all, kv, TypedVector(FBT_KEY, KeyTrees(ks)));
    KeysOfVectorSorted(all, kv.u, ByteWidth(kv.minWidth), ks);
    forall j | 0 <= j < |es|
      ensures HasEntry(all, |head|, ByteWidth(w), k, |es|, es[j])
    {
      var i := EntryIndex(es, ks, ts, j);
      KeyOfVector(all, kv.u, ByteWidth(kv.minWidth), ks, i);
      UntypedElem(b, e, ts, force, w, head, elems, all, i);
      EntryFrom(all, |head|, ByteWidth(w), k, i, es[j]);
    }
    EntryCount(es, ks, ts);
    KeysFromEntries(all, kv.u, ByteWidth(kv.minWidth), ks, ts, es);
    MapFrom(all, |head|, ByteWidth(w), k, es);
    PrefixLength(head, all);
    PlacedDenotes(all, Value(|head|, FBT_MAP, w), Map(es));
  }

  lemma {:induction false} PrefixLength(b: seq<byte>, b': seq<byte>)
    requires IsPrefix(b, b')
    ensures |b| <= |b'|
  {
  }

  lemma {:induction false} PlacedDenotes(b: seq<byte>, v: Value, t: Tree)
    requires !IsInline(v.ty) && 0 <= v.u <= |b| && ReadsAt(b, v.u, ByteWidth(v.minWidth), v.ty, t)
    requires !t.String?
    ensures Denotes(b, v, t)
  {
    hide ByteWidth;
  }

  lemma {:induction false} KeysFromEntries(
      b: seq<byte>, p: nat, n: nat, ks: seq<seq<byte>>, ts: seq<Tree>, es: seq<Entry>)
    requires ReadsAt(b, p, n, FBT_VECTOR_KEY, TypedVector(FBT_KEY, KeyTrees(ks))) && EntriesOf(es, ks, ts)
    ensures KeysFrom(b, KeyVector(p, n), es)
  {
    hide KeyAt, ReadsAt, EntryIn, KeyIn;
    forall i | 0 <= i < |es|
      ensures KeyIn(es, KeyAt(b, KeyVector(p, n), i))
    {
      KeyOfVector(b, p, n, ks, i);
      assert KeyIn(es, Some(ks[i]));
    }
  }

  lemma {:induction false} EntryCount(es: seq<Entry>, ks: seq<seq<byte>>, ts: seq<Tree>)
    requires EntriesOf(es, ks, ts)
    ensures |es| == |ks| == |ts|
  {
  }

  lemma {:induction false} MapFrom(b: seq<byte>, p: nat, n: nat, k: KeyVector, es: seq<Entry>)
    requires SizeAt(b, p, n) == Some(|es|) && KeysOf(b, p, n) == Some(k) && SizeAt(b, k.p, k.n) == Some(|es|)
    requires KeysSorted(b, k, |es|) && KeysFrom(b, k, es)
    requires forall e :: 0 <= e < |es| ==> HasEntry(b, p, n, k, |es|, es[e])
    ensures ReadsAt(b, p, n, FBT_MAP, Map(es))
  {
    hide SizeAt, KeysOf, KeysSorted, KeysFrom, HasEntry;
  }

  ghost function EntryIndex(es: seq<Entry>, ks: seq<seq<byte>>, ts: seq<Tree>, j: nat): (i: nat)
    requires EntriesOf(es, ks, ts) && j < |es|
    ensures i < |ks| && i < |ts| && i < |es| && es[j] == Entry(ks[i], ts[i])
  {
    assert EntryIn(es[j], ks, ts);
    var i :| 0 <= i < |ks| && i < |ts| && es[j] == Entry(ks[i], ts[i]);
    i
  }

  lemma {:induction false} EntryFrom(b: seq<byte>, p: nat, n: nat, k: KeyVector, i: nat, e: Entry)
    requires KeyAt(b, k, i) == Some(e.key) && VectorAt(b, p, n, i).Some?
    requires Reads(b, VectorAt(b, p, n, i).value, e.val)
    ensures EntryReads(b, p, n, k, i, e)
  {
    hide KeyAt, VectorAt, Reads;
  }

  lemma {:induction false} MapKeysRead(
      b: seq<byte>, e: Elements, force: BitWidth, w: BitWidth, head: seq<byte>, elems: seq<byte>, all: seq<byte>)
    requires Created(b, e, Untyped, force, w, head, elems, all) && e.keys.Some?
    ensures KeysOf(all, |head|, ByteWidth(w))
         == Some(KeyVector(e.keys.value.u, ByteWidth(e.keys.value.minWidth)))
  {
    hide IsPrefix, VectorHead, VectorWidth, WriteElems, SizeAt, ByteWidth, PaddingBytes, KeysOf, HeadWords;
    CreatedPrefixes(b, e, Untyped, force, w, head, elems, all);
    KeysOffsetFits(b, e, force, w);
    HeadKeysRead(b, e, w, head);
    KeysOfPrefix(head, all, |head|, ByteWidth(w));
  }

  lemma {:induction false} KeysOfPrefix(b: seq<byte>, b': seq<byte>, p: int, n: nat)
    requires IsPrefix(b, b') && KeysOf(b, p, n).Some?
    ensures KeysOf(b', p, n) == KeysOf(b, p, n)
  {
    hide U, IsPrefix;
    UPrefix(b, b', p - 3 * n, n);
    UPrefix(b, b', p - 2 * n, n);
  }
}
