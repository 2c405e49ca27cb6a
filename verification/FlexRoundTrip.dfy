/** Finish and GetRoot: what was built is what is read. */
module FlexRoundTrip {
  import opened Bytes
  import opened StringOrder
  import opened FlexWidth
  import opened FlexReader
  import opened FlexLayout
  import opened FlexDenote
  import opened FlexVector
  import opened FlexContainers
  import opened Sorting
  import opened FlexMachine
  import opened FlexRun

  lemma {:induction false} FinishTail(a: seq<byte>, packed: byte, n: byte, b: seq<byte>)
    requires b == a + [packed] + [n] && n <= |a|
    ensures GetRoot(b) == Some(RefOfPacked(|a| - n, n, packed))
  {
  }

  /** The root reads as the tree its value stands for. */
  lemma {:induction false} FinishReads(b: seq<byte>, v: Value, t: Tree, fin: seq<byte>)
    requires Denotes(b, v, t) && Addressable(|b|, 0)
    requires Writable(v, |b|) && fin == Finish(b, v)
    ensures GetRoot(fin).Some? && Reads(fin, GetRoot(fin).value, t)
  {
    hide Denotes, Reads, LE, IsPrefix, WidthOk, StoreFits, RefOfPacked, StoredPackedType, ElemWidthOf, Bits64,
         PaddingBytes, ByteWidth, LeastFit;
    var w := ElemWidthOf(v, |b|, 0);
    var n := ByteWidth(w);
    var a := Align(b, w);
    var stored := WriteAny(a, v, n);
    var width := ByteWidth(StoredWidth(v, 0));
    PrefixAppend(b, Zeros(PaddingBytes(|b|, n)));
    DenotesPrefix(b, a, v, t);
    ElementFits(v, |b|, 0, 0, w, |a|);
    StoredWidthOk(v, t, 0);
    StoredReads(a, v, t, w, stored, width);
    FinishTail(stored, StoredPackedType(v, 0), n, fin);
    PackedTypeReads(|a|, n, v, 0);
    PrefixAppend(stored, [StoredPackedType(v, 0), n]);
    assert stored + [StoredPackedType(v, 0)] + [n] == stored + [StoredPackedType(v, 0), n];
    ReadsPrefix(stored, fin, Ref(|a|, n, width, v.ty), t);
  }

  lemma {:induction false} FreshInv(flags: Flags)
    ensures Inv(Fresh(flags), ABS_FRESH)
  {
  }

  /** The main theorem: whatever was called, if one element is left, navigating from the root of the
      finished buffer yields the tree the calls describe. */
  lemma {:induction false} RunRoundTrip(flags: Flags, calls: seq<Call>, c: Conf)
    requires LegalRun(ABS_FRESH, flags, calls) && Run(Fresh(flags), calls) == Some(c)
    requires |c.stack| == 1 && Addressable(|c.buf|, 0)
    ensures |AbsRun(ABS_FRESH, flags, calls).trees| == 1 && Writable(c.stack[0], |c.buf|)
    ensures var fin := Finish(c.buf, c.stack[0]);
      GetRoot(fin).Some? && Reads(fin, GetRoot(fin).value, AbsRun(ABS_FRESH, flags, calls).trees[0])
  {
    hide Denotes, Reads, ReadsAt, KeyPoolOk, StrPoolOk, Finish, AbsRun, Run, Exec, GetRoot;
    FreshInv(flags);
    RunInv(Fresh(flags), ABS_FRESH, calls, c);
    var a := AbsRun(ABS_FRESH, flags, calls);
    assert Denotes(c.buf, c.stack[0], a.trees[0]);
    DenotesWritable(c.buf, c.stack[0], a.trees[0]);
    FinishReads(c.buf, c.stack[0], a.trees[0], Finish(c.buf, c.stack[0]));
  }

  // ---------------------------------------------------------------------------------------------
  // No assertion of the builder fails

  /** Room enough that every offset measured during one call stays below 2 to the 64. */
  predicate Roomy(c: Conf)
  {
    |c.buf| + 64 * (|c.stack| + 2) < 0x1_0000_0000_0000_0000
  }

  lemma {:induction false} AllDenoteWritable(b: seq<byte>, vs: seq<Value>, ts: seq<Tree>)
    requires AllDenote(b, vs, ts)
    ensures AllWritable(vs, |b|) && AllPlaced(vs, |b|)
  {
    hide Denotes, Writable, Placed;
    forall i | 0 <= i < |vs|
      ensures Writable(vs[i], |b|) && Placed(vs[i], |b|)
    {
      DenotesWritable(b, vs[i], ts[i]);
      WritablePlaced(vs[i], |b|);
    }
  }

  lemma {:induction false} WritablePlaced(v: Value, size: nat)
    requires Writable(v, size)
    ensures Placed(v, size)
  {
  }

  lemma {:induction false} EndVectorSucceeds(c: Conf, a: Abs, start: nat, shape: Shape)
    requires Inv(c, a) && Roomy(c) && start <= |a.trees| && LegalVector(a.trees[start..], shape)
    ensures EndVector(c, start, shape).Some?
  {
    hide Denotes, IsPrefix, KeyPoolOk, StrPoolOk, CreateVector, TreeType, WidthOk, Placed, Writable;
    AllDenoteSlice(c.buf, c.stack, a.trees, start);
    var e, ts := VectorElements(c, start), a.trees[start..];
    AllDenoteWritable(c.buf, e.vs, ts);
    if shape == Typed {
      TypesMatch(c.buf, e.vs, ts);
    } else if shape == Fixed {
      NoStrings(ts);
      TypesMatch(c.buf, e.vs, ts);
    }
  }

  /** The size of what CreateVector appends to the buffer. */
  lemma {:induction false} CreatedSize(
      b: seq<byte>, e: Elements, shape: Shape, force: BitWidth, all: seq<byte>, v: Value)
    requires ElementsOk(e, |b|) && ShapeOk(e.vs, shape) && (all, v) == CreateVector(b, e, shape, force)
    ensures |all| <= |b| + 8 + 8 * 3 + 9 * |e.vs|
  {
    hide VectorWidth, VectorHead, WriteElems, Types, ElementsOk, ShapeOk, PaddingBytes, HeadWords;
    var w := VectorWidth(e, |b|, force);
    var head := VectorHead(b, e, shape, w);
    HeadWritable(b, e, shape, w, head);
    HeadSize(b, e, shape, w, head);
    Products(HeadWords(e, shape), |e.vs|, ByteWidth(w));
    FewWords(e, shape);
  }

  lemma {:induction false} Products(words: nat, count: nat, n: nat)
    requires n <= 8
    ensures words * n <= 8 * words && n * count <= 8 * count
  {
  }

  lemma {:induction false} CreateMapSucceeds(
      b: seq<byte>, start: nat, keys: seq<Value>, vals: seq<Value>, force: BitWidth,
      ks: seq<seq<byte>>, ts: seq<Tree>)
    requires AllDenote(b, keys, KeyTrees(ks)) && AllDenote(b, vals, ts) && |keys| == |vals|
    requires |b| + 64 * (start + 2 * |keys| + 2) < 0x1_0000_0000_0000_0000
    ensures CreateMap(b, start, keys, vals, force).Some?
  {
    hide Denotes, IsPrefix, CreateVector, SameType, Created, Writable, Placed;
    var eKeys := Elements(keys, start + 1, 2, None);
    AllDenoteWritable(b, keys, KeyTrees(ks));
    KeysMatch(b, keys, ks);
    var (b1, kv) := CreateVector(b, eKeys, Typed, force);
    var w1, head1, elems1 := CreateVectorParts(b, eKeys, Typed, force, b1, kv);
    TypedVectorDenotes(b, eKeys, KeyTrees(ks), FBT_KEY, force, w1, head1, elems1, b1);
    CreatedSize(b, eKeys, Typed, force, b1, kv);
    AllDenotePrefix(b, b1, vals, ts);
    AllDenoteWritable(b1, vals, ts);
    ContainerPlaced(b1, kv, FBT_KEY, KeyTrees(ks));
  }

  lemma {:induction false} ContainerPlaced(b: seq<byte>, v: Value, ty: FlexType, ts: seq<Tree>)
    requires Denotes(b, v, TypedVector(ty, ts))
    ensures Placed(v, |b|) && !IsInline(v.ty)
  {
  }

  lemma {:induction false} EndMapSucceeds(c: Conf, a: Abs, start: nat)
    requires Inv(c, a) && Roomy(c) && start <= |a.trees| && LegalMap(a.trees[start..])
    ensures EndMap(c, start).Some?
  {
    hide Denotes, IsPrefix, KeyPoolOk, StrPoolOk, CreateMap, AllDenote, Order, KeysInPlace;
    SameLength(c.buf, c.stack, a.trees);
    AllDenoteSlice(c.buf, c.stack, a.trees, start);
    var vs, ts := c.stack[start..], a.trees[start..];
    HalvesDenote(c.buf, vs, ts);
    KeyStringsAreTreeKeys(c.buf, Evens(vs), Evens(ts));
    var ks := TreeKeys(Evens(ts));
    var order := Order(LexLess, ks, |ks|);
    PickDenote(c.buf, Evens(vs), Evens(ts), order);
    PickDenote(c.buf, Odds(vs), Odds(ts), order);
    PickKeyTrees(Evens(ts), order);
    CreateMapSucceeds(c.buf, start, Pick(Evens(vs), order), Pick(Odds(vs), order), c.force,
                      Pick(ks, order), Pick(Odds(ts), order));
  }

  /** A legal call never trips an assertion of the builder. */
  lemma {:induction false} StepSucceeds(c: Conf, a: Abs, call: Call)
    requires Inv(c, a) && Roomy(c) && Legal(a, c.flags, call)
    ensures Exec(c, call).Some?
  {
    hide Inv, Roomy, LegalVector, LegalMap, EndVector, EndMap, AddKey, AddString, CreateBlob, PushIndirect;
    match call
    case CallEndVector(start, shape) => EndVectorSucceeds(c, a, start, shape);
    case CallEndMap(start) => EndMapSucceeds(c, a, start);
    case _ =>
  }

  /** There is room at every state a run goes through. */
  predicate RoomyRun(c: Conf, calls: seq<Call>)
    decreases |calls|
  {
    Roomy(c) && (calls != [] && Exec(c, calls[0]).Some? ==> RoomyRun(Exec(c, calls[0]).value, calls[1..]))
  }

  lemma {:induction false} RunSucceeds(c: Conf, a: Abs, calls: seq<Call>)
    requires Inv(c, a) && LegalRun(a, c.flags, calls) && RoomyRun(c, calls)
    ensures Run(c, calls).Some?
    decreases |calls|
  {
    hide Inv, Roomy, Legal, AbsStep, Exec;
    if calls != [] {
      assert Roomy(c);
      StepSucceeds(c, a, calls[0]);
      var c1 := Exec(c, calls[0]).value;
      StepInv(c, a, calls[0], c1);
      RunSucceeds(c1, AbsStep(a, c.flags, calls[0]), calls[1..]);
    }
  }
}
