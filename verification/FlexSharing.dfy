/** Sharing of keys and strings: when two of them get the same place in the buffer. */
module FlexSharing {
  import opened Bytes
  import opened StringOrder
  import opened FlexWidth
  import opened FlexReader
  import opened FlexLayout
  import opened FlexDenote
  import opened FlexVector
  import opened FlexPool
  import opened FlexLeaves
  import opened FlexMachine
  import opened FlexRun
  import opened FlexRoundTrip
  import opened FlexContainers
  import Sorting

  /** Every key on the stack is one the pool knows. */
  predicate KeysPooled(c: Conf)
  {
    forall i :: 0 <= i < |c.stack| && c.stack[i].ty == FBT_KEY ==> c.stack[i].u >= 0 && c.stack[i].u in c.keyPool
  }

  lemma {:induction false} ContainerPooled(c: Conf, start: nat, b: seq<byte>, v: Value)
    requires KeysPooled(c) && start <= |c.stack| && v.ty != FBT_KEY
    ensures KeysPooled(c.(buf := b, stack := c.stack[..start] + [v]))
  {
  }

  lemma {:induction false} VectorType(b: seq<byte>, e: Elements, shape: Shape, force: BitWidth)
    requires ElementsOk(e, |b|) && ShapeOk(e.vs, shape)
    ensures CreateVector(b, e, shape, force).1.ty != FBT_KEY
  {
    hide VectorWidth, VectorHead, WriteElems, Types, ElementsOk, OneType;
  }

  lemma {:induction false} AddKeyPooled(c: Conf, s: seq<byte>)
    requires KeysPooled(c) && c.flags.shareKeys
    ensures KeysPooled(AddKey(c, s))
  {
    hide SameKey;
  }

  lemma {:induction false} LeafPooled(c: Conf, call: Call, c': Conf)
    requires KeysPooled(c) && Exec(c, call) == Some(c')
    requires !call.CallKey? && !call.CallEndVector? && !call.CallEndMap?
    ensures KeysPooled(c')
  {
    hide FindString, CreateBlob, WidthI, WidthU, FindKey;
  }

  lemma {:induction false} MapPooled(c: Conf, start: nat, c': Conf)
    requires KeysPooled(c) && EndMap(c, start) == Some(c')
    ensures KeysPooled(c')
  {
    hide KeysPooled, CreateVector, ElementsOk, KeysInPlace;
    var keys, vals := Evens(c.stack[start..]), Odds(c.stack[start..]);
    var ks := KeyStrings(c.buf, keys);
    var order := Sorting.Order(LexLess, ks, |ks|);
    var eKeys := Elements(Sorting.Pick(keys, order), start + 1, 2, None);
    var (b1, kv) := CreateVector(c.buf, eKeys, Typed, c.force);
    var eVals := Elements(Sorting.Pick(vals, order), start + 4, 2, Some(kv));
    VectorType(b1, eVals, Untyped, c.force);
    var (b, v) := CreateVector(b1, eVals, Untyped, c.force);
    ContainerPooled(c, start, b, v);
  }

  lemma {:induction false} VectorPooled(c: Conf, start: nat, shape: Shape, c': Conf)
    requires KeysPooled(c) && EndVector(c, start, shape) == Some(c')
    ensures KeysPooled(c')
  {
    hide KeysPooled, CreateVector, ElementsOk;
    VectorType(c.buf, VectorElements(c, start), shape, c.force);
    var (b, v) := CreateVector(c.buf, VectorElements(c, start), shape, c.force);
    ContainerPooled(c, start, b, v);
  }

  lemma {:induction false} StepPooled(c: Conf, call: Call, c': Conf)
    requires KeysPooled(c) && c.flags.shareKeys && Exec(c, call) == Some(c')
    ensures KeysPooled(c')
  {
    hide KeysPooled, AddKey, EndVector, EndMap;
    match call
    case CallKey(s) => AddKeyPooled(c, s);
    case CallEndVector(start, shape) => VectorPooled(c, start, shape, c');
    case CallEndMap(start) => MapPooled(c, start, c');
    case _ => LeafPooled(c, call, c');
  }

  lemma {:induction false} RunPooled(c: Conf, a: Abs, calls: seq<Call>, c': Conf)
    requires Inv(c, a) && KeysPooled(c) && c.flags.shareKeys
    requires LegalRun(a, c.flags, calls) && Run(c, calls) == Some(c')
    ensures KeysPooled(c')
    decreases |calls|
  {
    hide KeysPooled, Exec, Inv, Legal, AbsStep;
    if calls != [] {
      var c1 := Exec(c, calls[0]).value;
      StepPooled(c, calls[0], c1);
      StepInv(c, a, calls[0], c1);
      RunPooled(c1, AbsStep(a, c.flags, calls[0]), calls[1..], c');
    }
  }

  /** What the keys asked for over a run read as, in order; and the places the calls return for them. */
  function KeysAsked(calls: seq<Call>): seq<seq<byte>>
  {
    if calls == [] then []
    else (if calls[0].CallKey? then [Cut(calls[0].s)] else []) + KeysAsked(calls[1..])
  }

  function KeyPlaces(c: Conf, calls: seq<Call>): seq<int>
    decreases |calls|
  {
    if calls == [] then []
    else
      (if calls[0].CallKey? then [KeyPlace(c, calls[0].s)] else [])
      + match Exec(c, calls[0])
        case None => []
        case Some(c1) => KeyPlaces(c1, calls[1..])
  }

  function KeyPlace(c: Conf, s: seq<byte>): int
  {
    AddKey(c, s).stack[|c.stack|].u
  }

  /** The pool holds this place, and the key is there. */
  predicate KeyIsAt(c: Conf, at: int, key: seq<byte>)
  {
    at >= 0 && at in c.keyPool && CString(c.buf, at) == Some(key)
  }

  lemma {:induction false} KeyIsPlaced(c: Conf, a: Abs, s: seq<byte>)
    requires Inv(c, a) && c.flags.shareKeys
    ensures KeyIsAt(AddKey(c, s), KeyPlace(c, s), Cut(s))
  {
    hide CString, Cut, FindKey, Denotes, AllDenote, StrPoolOk, IsPrefix;
    var b := c.buf + s + [0];
    KeyDenotes(c.buf, s, b);
    FindKeyIsExact(c.buf, s, b, c.keyPool);
  }

  /** The pool forgets nothing. */
  lemma {:induction false} StepKeepsKey(c: Conf, a: Abs, call: Call, c': Conf, at: int, key: seq<byte>)
    requires Inv(c, a) && Legal(a, c.flags, call) && Exec(c, call) == Some(c') && KeyIsAt(c, at, key)
    ensures KeyIsAt(c', at, key)
  {
    hide Inv, IsPrefix, CString, CreateVector, ElementsOk, ShapeOk, KeysInPlace, CreateMap, FindString, FindKey,
         CreateBlob, PushIndirect, LegalVector, LegalMap;
    StepAppends(c, a, call, c');
    CStringPrefix(c.buf, c'.buf, at);
  }

  lemma {:induction false} RunKeepsKey(c: Conf, a: Abs, calls: seq<Call>, c': Conf, at: int, key: seq<byte>)
    requires Inv(c, a) && LegalRun(a, c.flags, calls) && Run(c, calls) == Some(c') && KeyIsAt(c, at, key)
    ensures KeyIsAt(c', at, key)
    decreases |calls|
  {
    hide Exec, Inv, Legal, AbsStep, KeyIsAt;
    if calls != [] {
      var c1 := Exec(c, calls[0]).value;
      StepKeepsKey(c, a, calls[0], c1, at, key);
      StepInv(c, a, calls[0], c1);
      RunKeepsKey(c1, AbsStep(a, c.flags, calls[0]), calls[1..], c', at, key);
    }
  }

  lemma {:induction false} RunPlaces(c: Conf, a: Abs, calls: seq<Call>, c': Conf)
    requires Inv(c, a) && c.flags.shareKeys && LegalRun(a, c.flags, calls) && Run(c, calls) == Some(c')
    ensures |KeyPlaces(c, calls)| == |KeysAsked(calls)|
    ensures forall i :: 0 <= i < |KeysAsked(calls)| ==> KeyIsAt(c', KeyPlaces(c, calls)[i], KeysAsked(calls)[i])
    decreases |calls|
  {
    hide Inv, Legal, AbsStep, KeyIsAt, AddKey, KeyPlace;
    if calls != [] {
      var c1, a1 := Exec(c, calls[0]).value, AbsStep(a, c.flags, calls[0]);
      StepInv(c, a, calls[0], c1);
      RunPlaces(c1, a1, calls[1..], c');
      if calls[0].CallKey? {
        KeyIsPlaced(c, a, calls[0].s);
        RunKeepsKey(c1, a1, calls[1..], c', KeyPlace(c, calls[0].s), Cut(calls[0].s));
      }
    }
  }

  lemma {:induction false} SamePlaceIff(c: Conf, a: Abs, p: int, k: seq<byte>, q: int, l: seq<byte>)
    requires Inv(c, a) && KeyIsAt(c, p, k) && KeyIsAt(c, q, l)
    ensures p == q <==> k == l
  {
    hide CString, AllDenote, StrPoolOk;
  }

  /** Sharing of keys is exact over every run: of all keys asked for, wherever they have gone since, two have
      the same place in the buffer if and only if they are the same key. */
  lemma {:induction false} KeySharingIsExact(flags: Flags, calls: seq<Call>, c: Conf, i: nat, j: nat)
    requires flags.shareKeys && LegalRun(ABS_FRESH, flags, calls) && Run(Fresh(flags), calls) == Some(c)
    requires i < |KeysAsked(calls)| && j < |KeysAsked(calls)|
    ensures |KeyPlaces(Fresh(flags), calls)| == |KeysAsked(calls)|
    ensures KeyPlaces(Fresh(flags), calls)[i] == KeyPlaces(Fresh(flags), calls)[j]
       <==> KeysAsked(calls)[i] == KeysAsked(calls)[j]
  {
    hide Run, LegalRun, AbsRun, KeyIsAt, KeyPlaces, KeysAsked, Inv;
    FreshInv(flags);
    RunInv(Fresh(flags), ABS_FRESH, calls, c);
    RunPlaces(Fresh(flags), ABS_FRESH, calls, c);
    var ps, ks := KeyPlaces(Fresh(flags), calls), KeysAsked(calls);
    SamePlaceIff(c, AbsRun(ABS_FRESH, flags, calls), ps[i], ks[i], ps[j], ks[j]);
  }

  /** And so of the keys that are left on the stack. */
  lemma {:induction false} KeysOnStackShared(flags: Flags, calls: seq<Call>, c: Conf, i: nat, j: nat)
    requires flags.shareKeys && LegalRun(ABS_FRESH, flags, calls) && Run(Fresh(flags), calls) == Some(c)
    requires i < |c.stack| && j < |c.stack| && |c.stack| == |AbsRun(ABS_FRESH, flags, calls).trees|
    requires AbsRun(ABS_FRESH, flags, calls).trees[i].Key? && AbsRun(ABS_FRESH, flags, calls).trees[j].Key?
    ensures c.stack[i].u == c.stack[j].u
       <==> AbsRun(ABS_FRESH, flags, calls).trees[i] == AbsRun(ABS_FRESH, flags, calls).trees[j]
  {
    hide Run, LegalRun, AbsRun, CString;
    var a := AbsRun(ABS_FRESH, flags, calls);
    FreshInv(flags);
    RunInv(Fresh(flags), ABS_FRESH, calls, c);
    RunPooled(Fresh(flags), ABS_FRESH, calls, c);
    assert Denotes(c.buf, c.stack[i], a.trees[i]) && Denotes(c.buf, c.stack[j], a.trees[j]);
  }

  /** A key the pool holds costs nothing: the buffer is as it was. */
  lemma {:induction false} SharedKeyLeavesBuffer(c: Conf, a: Abs, s: seq<byte>)
    requires Inv(c, a) && c.flags.shareKeys
    ensures AddKey(c, s).buf == c.buf <==> exists p :: p in c.keyPool && CString(c.buf, p) == Some(Cut(s))
  {
    hide CString, Cut, FindKey;
    FindKeyIsExact(c.buf, s, c.buf + s + [0], c.keyPool);
  }

  lemma {:induction false} UnsharedKey(c: Conf, s: seq<byte>)
    requires !c.flags.shareKeys
    ensures KeyPlace(c, s) == |c.buf| && |AddKey(c, s).buf| == |c.buf| + |s| + 1
  {
  }

  /** With sharing off, over every run, each key is written to a place of its own, one behind the other. */
  lemma {:induction false} UnsharedKeysAscend(c: Conf, a: Abs, calls: seq<Call>, c': Conf)
    requires Inv(c, a) && !c.flags.shareKeys && LegalRun(a, c.flags, calls) && Run(c, calls) == Some(c')
    ensures |KeyPlaces(c, calls)| == |KeysAsked(calls)|
    ensures forall i :: 0 <= i < |KeysAsked(calls)| ==> |c.buf| <= KeyPlaces(c, calls)[i]
    ensures forall i, j :: 0 <= i < j < |KeysAsked(calls)| ==> KeyPlaces(c, calls)[i] < KeyPlaces(c, calls)[j]
    decreases |calls|
  {
    hide Inv, Legal, AbsStep, AddKey, KeyPlace, IsPrefix;
    if calls != [] {
      var c1, a1 := Exec(c, calls[0]).value, AbsStep(a, c.flags, calls[0]);
      StepInv(c, a, calls[0], c1);
      StepAppends(c, a, calls[0], c1);
      PrefixLength(c.buf, c1.buf);
      UnsharedKeysAscend(c1, a1, calls[1..], c');
      var rest, first := KeyPlaces(c1, calls[1..]), KeyPlace(c, if calls[0].CallKey? then calls[0].s else []);
      if calls[0].CallKey? {
        UnsharedKey(c, calls[0].s);
        FirstBelow(first, rest, |c1.buf|);
      }
    }
  }

  lemma {:induction false} FirstBelow(x: int, rest: seq<int>, low: int)
    requires x < low && forall i :: 0 <= i < |rest| ==> low <= rest[i]
    requires forall i, j :: 0 <= i < j < |rest| ==> rest[i] < rest[j]
    ensures var all := [x] + rest;
      && (forall i :: 0 <= i < |all| ==> x <= all[i])
      && (forall i, j :: 0 <= i < j < |all| ==> all[i] < all[j])
  {
  }

  lemma {:induction false} PrefixLength(b: seq<byte>, b': seq<byte>)
    requires IsPrefix(b, b')
    ensures |b| <= |b'|
  {
  }

  // ---------------------------------------------------------------------------------------------
  // Strings

  function Contents(b: seq<byte>, p: Pooled): seq<byte>
    requires p.at + p.len <= |b|
  {
    b[p.at..p.at + p.len]
  }

  /** The pool holds a string that agrees with `s` up to the first NUL, but is another one. */
  predicate Clashes(c: Conf, s: seq<byte>)
  {
    exists p :: p in c.strPool && p.at + p.len <= |c.buf|
             && Cut(Contents(c.buf, p)) == Cut(s) && Contents(c.buf, p) != s
  }

  /** The pool holds at most one string of each kind it can tell apart. */
  predicate PoolDistinct(c: Conf)
  {
    AllDistinct(c.buf, c.strPool)
  }

  predicate AllDistinct(b: seq<byte>, pool: seq<Pooled>)
  {
    forall p, q :: p in pool && q in pool && SameCut(b, p, q) ==> p == q
  }

  predicate SameCut(b: seq<byte>, p: Pooled, q: Pooled)
  {
    && p.at + p.len <= |b| && q.at + q.len <= |b|
    && Cut(Contents(b, p)) == Cut(Contents(b, q))
  }

  /** No call changes what is already in the buffer. */
  lemma {:induction false} StepAppends(c: Conf, a: Abs, call: Call, c': Conf)
    requires Inv(c, a) && Legal(a, c.flags, call) && Exec(c, call) == Some(c')
    ensures IsPrefix(c.buf, c'.buf)
  {
    hide IsPrefix, CreateBlob, PushIndirect, LegalVector, LegalMap, CreateVector, CreateMap, FindKey, FindString,
         Inv, Denotes, ElementsOk;
    PrefixSelf(c.buf);
    match call
    case CallIndirectInt(i) =>
      IndirectIntDenotes(c.buf, i, c'.buf, PushIndirect(c.buf, i, FBT_INDIRECT_INT, WidthI(i)).1);
    case CallIndirectUInt(u) =>
      IndirectUIntDenotes(c.buf, u, c'.buf, PushIndirect(c.buf, u, FBT_INDIRECT_UINT, WidthU(u)).1);
    case CallKey(s) => KeyDenotes(c.buf, s, c.buf + s + [0]);
    case CallString(s) =>
      var (b, v) := CreateBlob(c.buf, s, [0], FBT_STRING);
      StringDenotes(c.buf, s, b, v);
    case CallBlob(s) =>
      var (b, v) := CreateBlob(c.buf, s, [], FBT_BLOB);
      BlobDenotes(c.buf, s, b, v);
    case CallEndVector(start, shape) =>
      var (b, v) := CreateVector(c.buf, VectorElements(c, start), shape, c.force);
      VectorAppends(c.buf, VectorElements(c, start), shape, c.force, b, v);
    case CallEndMap(start) => MapAppends(c, start, c');
    case _ =>
  }

  lemma {:induction false} VectorAppends(
      b: seq<byte>, e: Elements, shape: Shape, force: BitWidth, all: seq<byte>, v: Value)
    requires ElementsOk(e, |b|) && ShapeOk(e.vs, shape) && HeadWords(e, shape) <= e.index && 1 <= e.step
    requires (all, v) == CreateVector(b, e, shape, force)
    ensures IsPrefix(b, all)
  {
    hide IsPrefix, CreateVector, Created, ElementsOk;
    var w, head, elems := CreateVectorParts(b, e, shape, force, all, v);
    CreatedPrefixes(b, e, shape, force, w, head, elems, all);
  }

  lemma {:induction false} MapAppends(c: Conf, start: nat, c': Conf)
    requires EndMap(c, start) == Some(c')
    ensures IsPrefix(c.buf, c'.buf)
  {
    hide IsPrefix, CreateVector, ElementsOk, KeysInPlace;
    var keys, vals := Evens(c.stack[start..]), Odds(c.stack[start..]);
    var ks := KeyStrings(c.buf, keys);
    var order := Sorting.Order(LexLess, ks, |ks|);
    var eKeys := Elements(Sorting.Pick(keys, order), start + 1, 2, None);
    var (b1, kv) := CreateVector(c.buf, eKeys, Typed, c.force);
    VectorAppends(c.buf, eKeys, Typed, c.force, b1, kv);
    var eVals := Elements(Sorting.Pick(vals, order), start + 4, 2, Some(kv));
    var (b, v) := CreateVector(b1, eVals, Untyped, c.force);
    VectorAppends(b1, eVals, Untyped, c.force, b, v);
    PrefixTrans(c.buf, b1, b);
  }

  lemma {:induction false} ContentsStay(b: seq<byte>, b': seq<byte>, p: Pooled, strings: set<seq<byte>>)
    requires PooledOk(b, p, strings) && IsPrefix(b, b')
    ensures p.at + p.len <= |b| && p.at + p.len <= |b'| && Contents(b', p) == Contents(b, p)
  {
    hide StringAt;
    PrefixSlice(b, b', p.at, p.len);
  }

  lemma {:induction false} DistinctStays(c: Conf, a: Abs, c': Conf)
    requires Inv(c, a) && PoolDistinct(c) && IsPrefix(c.buf, c'.buf) && c'.strPool == c.strPool
    ensures PoolDistinct(c')
  {
    hide IsPrefix, PooledOk, Contents, Cut, Denotes, AllDenote, KeyPoolOk;
    forall p, q | p in c.strPool && q in c.strPool && SameCut(c'.buf, p, q)
      ensures p == q
    {
      ContentsStay(c.buf, c'.buf, p, a.strings);
      ContentsStay(c.buf, c'.buf, q, a.strings);
      assert SameCut(c.buf, p, q);
    }
  }

  lemma {:induction false} AddStringDistinct(c: Conf, a: Abs, s: seq<byte>)
    requires Inv(c, a) && PoolDistinct(c) && |s| < 0x1_0000_0000_0000_0000
    ensures PoolDistinct(AddString(c, s))
  {
    hide IsPrefix, PooledOk, Cut, Denotes, AllDenote, KeyPoolOk, FindString, CreateBlob, AllDistinct, StringHere;
    var (b, v) := CreateBlob(c.buf, s, [0], FBT_STRING);
    StringDenotes(c.buf, s, b, v);
    FindStringIsExact(c, a.strings, s, b, v);
    DistinctStays(c, a, c.(buf := b));
    PrefixSelf(c.buf);
    if c.flags.shareStrings {
      match FindString(b, c.strPool, Pooled(v.u, |s|))
      case Some(p) => DistinctStays(c, a, AddString(c, s));
      case None => DistinctNew(c, a, s, b, v);
    } else {
      DistinctStays(c, a, AddString(c, s));
    }
  }

  lemma {:induction false} DistinctNew(c: Conf, a: Abs, s: seq<byte>, b: seq<byte>, v: Value)
    requires Inv(c, a) && AllDistinct(b, c.strPool) && IsPrefix(c.buf, b)
    requires v.u >= 0 && StringHere(b, v.u, s)
    requires forall p :: p in c.strPool ==>
      PooledOk(c.buf, p, a.strings) && Cut(c.buf[p.at..p.at + p.len]) != Cut(s)
    ensures AllDistinct(b, c.strPool + [Pooled(v.u, |s|)])
  {
    hide IsPrefix, StringAt, Cut, Denotes, AllDenote, KeyPoolOk;
    var r := Pooled(v.u, |s|);
    forall p | p in c.strPool
      ensures !SameCut(b, p, r) && !SameCut(b, r, p)
    {
      ContentsStay(c.buf, b, p, a.strings);
    }
    assert forall p, q :: p in c.strPool && q in c.strPool && SameCut(b, p, q) ==> p == q;
  }

  lemma {:induction false} StepDistinct(c: Conf, a: Abs, call: Call, c': Conf)
    requires Inv(c, a) && PoolDistinct(c) && Legal(a, c.flags, call) && Exec(c, call) == Some(c')
    ensures PoolDistinct(c')
  {
    hide Inv, PoolDistinct, IsPrefix, CreateVector, ElementsOk, ShapeOk, KeysInPlace, CreateMap, AddString,
         FindKey, CreateBlob, PushIndirect;
    if call.CallString? {
      AddStringDistinct(c, a, call.s);
    } else {
      StepAppends(c, a, call, c');
      DistinctStays(c, a, c');
    }
  }

  /** In every run the pool tells its strings apart. */
  lemma {:induction false} RunDistinct(c: Conf, a: Abs, calls: seq<Call>, c': Conf)
    requires Inv(c, a) && PoolDistinct(c)
    requires LegalRun(a, c.flags, calls) && Run(c, calls) == Some(c')
    ensures PoolDistinct(c')
    decreases |calls|
  {
    hide PoolDistinct, Exec, Inv, Legal, AbsStep;
    if calls != [] {
      var c1 := Exec(c, calls[0]).value;
      StepDistinct(c, a, calls[0], c1);
      StepInv(c, a, calls[0], c1);
      RunDistinct(c1, AbsStep(a, c.flags, calls[0]), calls[1..], c');
    }
  }

  /** The pool holds this string, which it cannot tell from `s`. */
  predicate Agrees(c: Conf, p: Pooled, s: seq<byte>)
  {
    p in c.strPool && p.at + p.len <= |c.buf| && Cut(Contents(c.buf, p)) == Cut(s)
  }

  /** With sharing on, a string reads back if and only if whatever the pool takes for it reads as it, with the
      width its own size calls for. */
  lemma {:induction false} SharedStringReadsIff(c: Conf, a: Abs, s: seq<byte>)
    requires Inv(c, a) && PoolDistinct(c) && c.flags.shareStrings && |s| < 0x1_0000_0000_0000_0000
    ensures Denotes(AddString(c, s).buf, AddString(c, s).stack[|c.stack|], String(s))
       <==> forall p :: Agrees(c, p, s) ==> StringAt(c.buf, p.at, ByteWidth(WidthU(|s|))) == Some(s)
  {
    hide Denotes, IsPrefix, AllDenote, KeyPoolOk, Cut, FindString, CreateBlob, StringAt, ByteWidth, WidthU;
    var (b, v) := CreateBlob(c.buf, s, [0], FBT_STRING);
    StringDenotes(c.buf, s, b, v);
    FindStringIsExact(c, a.strings, s, b, v);
    match FindString(b, c.strPool, Pooled(v.u, |s|))
    case None =>
      assert forall p :: p in c.strPool ==> !Agrees(c, p, s);
    case Some(q) =>
      assert Agrees(c, q, s);
      forall p | Agrees(c, p, s)
        ensures p == q
      {
        assert SameCut(c.buf, p, q);
      }
      DenotesAtWidth(c.buf, q.at, s);
  }

  /** A string costs nothing if and only if the pool holds one that agrees with it. */
  lemma {:induction false} SharedStringLeavesBuffer(c: Conf, a: Abs, s: seq<byte>)
    requires Inv(c, a) && c.flags.shareStrings && |s| < 0x1_0000_0000_0000_0000
    ensures AddString(c, s).buf == c.buf <==> exists p :: Agrees(c, p, s)
  {
    hide Denotes, IsPrefix, AllDenote, KeyPoolOk, Cut, FindString, CreateBlob, StringAt, ByteWidth, WidthU;
    var (b, v) := CreateBlob(c.buf, s, [0], FBT_STRING);
    StringDenotes(c.buf, s, b, v);
    BlobAligned(c.buf, s, [0], FBT_STRING, b, v);
    FindStringIsExact(c, a.strings, s, b, v);
    StringGrows(c.buf, s, b, v);
    match FindString(b, c.strPool, Pooled(v.u, |s|))
    case None =>
      assert forall p :: p in c.strPool ==> !Agrees(c, p, s);
    case Some(q) =>
      assert Agrees(c, q, s);
  }

  lemma {:induction false} StringGrows(b: seq<byte>, s: seq<byte>, b': seq<byte>, v: Value)
    requires (b', v) == CreateBlob(b, s, [0], FBT_STRING)
    ensures |b'| > |b|
  {
  }

  /** With sharing off every string is written, behind everything else. */
  lemma {:induction false} UnsharedStringIsWritten(c: Conf, s: seq<byte>)
    requires !c.flags.shareStrings
    ensures var c' := AddString(c, s);
      && |c'.stack| == |c.stack| + 1 && c'.stack[|c.stack|].u > |c.buf|
      && |c'.buf| == c'.stack[|c.stack|].u + |s| + 1 && c'.strPool == c.strPool
  {
    hide WidthU;
    var (b, v) := CreateBlob(c.buf, s, [0], FBT_STRING);
    BlobAligned(c.buf, s, [0], FBT_STRING, b, v);
  }

  lemma {:induction false} DenotesAtWidth(b: seq<byte>, at: nat, s: seq<byte>)
    requires at <= |b|
    ensures Denotes(b, Value(at, FBT_STRING, WidthU(|s|)), String(s))
       <==> StringAt(b, at, ByteWidth(WidthU(|s|))) == Some(s)
  {
    hide StringAt, ByteWidth, WidthU;
  }

  /** It does if the pool holds none that differs from it only behind a NUL. */
  lemma {:induction false} SharedStringReadsBack(c: Conf, a: Abs, s: seq<byte>)
    requires Inv(c, a) && PoolDistinct(c) && c.flags.shareStrings && |s| < 0x1_0000_0000_0000_0000
    requires !Clashes(c, s)
    ensures Denotes(AddString(c, s).buf, AddString(c, s).stack[|c.stack|], String(s))
  {
    hide Denotes, IsPrefix, AllDenote, KeyPoolOk, Cut, StringAt, ByteWidth, WidthU, AddString, PoolDistinct;
    SharedStringReadsIff(c, a, s);
    forall p | Agrees(c, p, s)
      ensures StringAt(c.buf, p.at, ByteWidth(WidthU(|s|))) == Some(s)
    {
      assert PooledOk(c.buf, p, a.strings) && Contents(c.buf, p) == s;
    }
  }

  /** And only then, if the size of one it clashes with takes as many bytes as its own. */
  lemma {:induction false} SharedStringReadsBackIff(c: Conf, a: Abs, s: seq<byte>)
    requires Inv(c, a) && PoolDistinct(c) && c.flags.shareStrings && |s| < 0x1_0000_0000_0000_0000
    requires forall p :: Agrees(c, p, s) ==> WidthU(p.len) == WidthU(|s|)
    ensures Denotes(AddString(c, s).buf, AddString(c, s).stack[|c.stack|], String(s)) <==> !Clashes(c, s)
  {
    hide Denotes, IsPrefix, AllDenote, KeyPoolOk, Cut, StringAt, ByteWidth, WidthU, AddString, PoolDistinct;
    SharedStringReadsIff(c, a, s);
    forall p | Agrees(c, p, s)
      ensures StringAt(c.buf, p.at, ByteWidth(WidthU(|s|))) == Some(Contents(c.buf, p))
    {
      assert PooledOk(c.buf, p, a.strings);
    }
    if Clashes(c, s) {
      var p :| p in c.strPool && p.at + p.len <= |c.buf| && Cut(Contents(c.buf, p)) == Cut(s) && Contents(c.buf, p) != s;
      assert Agrees(c, p, s);
    } else {
      SharedStringReadsBack(c, a, s);
    }
  }

  /** Two strings that differ behind a NUL: the second one reads as the first. */
  lemma {:induction false} SharingConfusesStringsWithNul()
    ensures var c := AddString(AddString(Fresh(Flags(false, true)), [97, 0, 98]), [97, 0, 99]);
      && |c.stack| == 2 && Denotes(c.buf, c.stack[1], String([97, 0, 98]))
      && !Denotes(c.buf, c.stack[1], String([97, 0, 99]))
  {
    hide Denotes, IsPrefix, CreateBlob, StringAt;
    var flags := Flags(false, true);
    var s, t: seq<byte> := [97, 0, 98], [97, 0, 99];
    var c0 := Fresh(flags);
    FreshInv(flags);
    StringInv(c0, ABS_FRESH, s);
    var c1 := AddString(c0, s);
    var (b1, v1) := CreateBlob([], s, [0], FBT_STRING);
    StringDenotes([], s, b1, v1);
    assert c1.strPool == [Pooled(v1.u, 3)];
    var p := Pooled(v1.u, 3);
    assert Contents(c1.buf, p) == s;
    CutPair(s, t);
    SharedStringReadsBackIff(c1, AbsStep(ABS_FRESH, flags, CallString(s)), t);
    SharedStringTop(c1, AbsStep(ABS_FRESH, flags, CallString(s)), t, p);
  }

  lemma {:induction false} CutPair(s: seq<byte>, t: seq<byte>)
    requires s == [97, 0, 98] && t == [97, 0, 99]
    ensures Cut(s) == Cut(t)
  {
    assert s[1..][0] == 0 && t[1..][0] == 0;
  }

  lemma {:induction false} DenotesPooledSelf(b: seq<byte>, p: Pooled, strings: set<seq<byte>>)
    requires PooledOk(b, p, strings)
    ensures Denotes(b, Value(p.at, FBT_STRING, WidthU(p.len)), String(Contents(b, p)))
  {
    hide StringAt, WidthU;
  }

  /** On a hit the new element reads as the pooled string. */
  lemma {:induction false} SharedStringTop(c: Conf, a: Abs, s: seq<byte>, p: Pooled)
    requires Inv(c, a) && PoolDistinct(c) && c.flags.shareStrings && |s| < 0x1_0000_0000_0000_0000
    requires p in c.strPool && WidthU(p.len) == WidthU(|s|)
    requires p.at + p.len <= |c.buf| && Cut(Contents(c.buf, p)) == Cut(s)
    ensures Denotes(AddString(c, s).buf, AddString(c, s).stack[|c.stack|], String(Contents(c.buf, p)))
    ensures AddString(c, s).buf == c.buf
  {
    hide Denotes, IsPrefix, AllDenote, KeyPoolOk, Cut, FindString, CreateBlob, WidthU;
    var (b, v) := CreateBlob(c.buf, s, [0], FBT_STRING);
    StringDenotes(c.buf, s, b, v);
    FindStringIsExact(c, a.strings, s, b, v);
    var q := FindString(b, c.strPool, Pooled(v.u, |s|)).value;
    assert Contents(c.buf, q) == c.buf[q.at..q.at + q.len];
    assert SameCut(c.buf, q, p);
    DenotesPooledSelf(c.buf, p, a.strings);
  }
}
