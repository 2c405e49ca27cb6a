/** Every tree can be built, and is read back: the calls that build a tree bottom-up. */
module FlexTrees {
  import opened Bytes
  import opened FlexWidth
  import opened FlexReader
  import opened FlexLayout
  import opened FlexPool
  import opened FlexMachine
  import opened FlexRun
  import opened FlexRoundTrip

  /** The trees the format can hold: numbers of 64 bits, keys without NUL, distinct keys in a map,
      typed vectors and tuples of elements their readers support, and, when strings are shared, strings
      without NUL. */
  predicate Buildable(t: Tree, flags: Flags)
    decreases t
  {
    match t
    case Null => true
    case Bool(_) => true
    case Int(i) => IsInt64(i)
    case UInt(u) => IsUInt64(u)
    case IndirectInt(i) => IsInt64(i)
    case IndirectUInt(u) => IsUInt64(u)
    case Key(s) => NulFree(s)
    case String(s) => |s| < 0x1_0000_0000_0000_0000 && (flags.shareStrings ==> NulFree(s))
    case Blob(s) => |s| < 0x1_0000_0000_0000_0000
    case Vector(ts) => forall i :: 0 <= i < |ts| ==> Buildable(ts[i], flags)
    case TypedVector(elem, ts) =>
      && elem == TreesType(ts) && LegalVector(ts, Typed)
      && forall i :: 0 <= i < |ts| ==> Buildable(ts[i], flags)
    case FixedVector(elem, ts) =>
      && elem == TreesType(ts) && LegalVector(ts, Fixed)
      && forall i :: 0 <= i < |ts| ==> Buildable(ts[i], flags)
    case Map(es) =>
      && (forall i :: 0 <= i < |es| ==> NulFree(es[i].key) && Buildable(es[i].val, flags))
      && (forall i, j :: 0 <= i < j < |es| ==> es[i].key != es[j].key)
  }

  /** The calls that put `t` on top of a stack of height `n`. */
  function Build(t: Tree, n: nat): seq<Call>
    decreases t, 0
  {
    match t
    case Null => [CallNull]
    case Bool(v) => [CallBool(v)]
    case Int(i) => [CallInt(i)]
    case UInt(u) => [CallUInt(u)]
    case IndirectInt(i) => [CallIndirectInt(i)]
    case IndirectUInt(u) => [CallIndirectUInt(u)]
    case Key(s) => [CallKey(s)]
    case String(s) => [CallString(s)]
    case Blob(s) => [CallBlob(s)]
    case Vector(ts) => BuildAll(ts, n) + [CallEndVector(n, Untyped)]
    case TypedVector(_, ts) => BuildAll(ts, n) + [CallEndVector(n, Typed)]
    case FixedVector(_, ts) => BuildAll(ts, n) + [CallEndVector(n, Fixed)]
    case Map(es) => BuildEntries(es, n) + [CallEndMap(n)]
  }

  function BuildAll(ts: seq<Tree>, n: nat): seq<Call>
    decreases ts, |ts|
  {
    if ts == [] then [] else Build(ts[0], n) + BuildAll(ts[1..], n + 1)
  }

  function BuildEntries(es: seq<Entry>, n: nat): seq<Call>
    decreases es, |es|
  {
    if es == [] then []
    else [CallKey(es[0].key)] + Build(es[0].val, n + 1) + BuildEntries(es[1..], n + 2)
  }

  /** Keys and values in turn. */
  function Interleaved(es: seq<Entry>): (ts: seq<Tree>)
    ensures |ts| == 2 * |es|
  {
    if es == [] then [] else [Key(es[0].key), es[0].val] + Interleaved(es[1..])
  }

  /** From `a` the calls are legal and lead to `a'`. */
  ghost predicate LeadsTo(a: Abs, flags: Flags, calls: seq<Call>, a': Abs)
  {
    LegalRun(a, flags, calls) && AbsRun(a, flags, calls) == a'
  }

  lemma {:induction false} LeadsThrough(
      a: Abs, flags: Flags, calls: seq<Call>, a1: Abs, calls': seq<Call>, a': Abs)
    requires LeadsTo(a, flags, calls, a1) && LeadsTo(a1, flags, calls', a')
    ensures LeadsTo(a, flags, calls + calls', a')
    decreases |calls|
  {
    hide Legal, AbsStep;
    if calls == [] {
      assert calls + calls' == calls';
    } else {
      LeadsThrough(AbsStep(a, flags, calls[0]), flags, calls[1..], a1, calls', a');
      assert (calls + calls')[1..] == calls[1..] + calls';
    }
  }

  lemma {:induction false} LeadsByOne(a: Abs, flags: Flags, call: Call)
    requires Legal(a, flags, call)
    ensures LeadsTo(a, flags, [call], AbsStep(a, flags, call))
  {
    hide Legal, AbsStep;
    var calls := [call];
    assert calls[1..] == [];
    assert LegalRun(AbsStep(a, flags, call), flags, calls[1..]);
    assert AbsRun(AbsStep(a, flags, call), flags, calls[1..]) == AbsStep(a, flags, call);
  }

  /** With sharing on, the pool has seen no string with a NUL in it. */
  ghost predicate PoolNulFree(a: Abs, flags: Flags)
  {
    flags.shareStrings ==> forall x :: x in a.strings ==> NulFree(x)
  }

  lemma {:induction false} LeafLeads(a: Abs, flags: Flags, t: Tree, call: Call) returns (a': Abs)
    requires PoolNulFree(a, flags) && Buildable(t, flags) && Build(t, |a.trees|) == [call]
    requires !t.Vector? && !t.TypedVector? && !t.FixedVector? && !t.Map?
    ensures LeadsTo(a, flags, [call], a') && a'.trees == a.trees + [t] && PoolNulFree(a', flags)
  {
    hide LeadsTo, NulFree;
    if t.String? || t.Key? {
      CutIsIdentityIffNulFree(t.s);
    }
    forall x | flags.shareStrings && x in a.strings
      ensures Cut(x) == x
    {
      CutIsIdentityIffNulFree(x);
    }
    LeadsByOne(a, flags, call);
    a' := AbsStep(a, flags, call);
  }

  /** The calls that build a tree are legal and leave exactly this tree on top of the stack. */
  lemma {:induction false} BuildLeads(a: Abs, flags: Flags, t: Tree) returns (a': Abs)
    requires PoolNulFree(a, flags) && Buildable(t, flags)
    ensures LeadsTo(a, flags, Build(t, |a.trees|), a')
    ensures a'.trees == a.trees + [t] && PoolNulFree(a', flags)
    decreases t, 0
  {
    hide LeadsTo, PoolNulFree, NulFree, LegalVector;
    var n := |a.trees|;
    match t
    case Vector(ts) =>
      var a1 := BuildAllLeads(a, flags, ts);
      AnyVectorIsLegal(ts);
      a' := VectorLeads(a, a1, flags, ts, Untyped);
    case TypedVector(elem, ts) =>
      var a1 := BuildAllLeads(a, flags, ts);
      a' := VectorLeads(a, a1, flags, ts, Typed);
    case FixedVector(elem, ts) =>
      var a1 := BuildAllLeads(a, flags, ts);
      a' := VectorLeads(a, a1, flags, ts, Fixed);
    case Map(es) =>
      var a1 := BuildEntriesLeads(a, flags, es);
      a' := MapLeads(a, a1, flags, es);
    case _ =>
      a' := LeafLeads(a, flags, t, Build(t, n)[0]);
  }

  lemma {:induction false} AnyVectorIsLegal(ts: seq<Tree>)
    ensures LegalVector(ts, Untyped)
  {
  }

  lemma {:induction false} VectorLeads(a: Abs, a1: Abs, flags: Flags, ts: seq<Tree>, shape: Shape) returns (a': Abs)
    requires LeadsTo(a, flags, BuildAll(ts, |a.trees|), a1) && PoolNulFree(a1, flags)
    requires a1.trees == a.trees + ts && LegalVector(ts, shape)
    ensures LeadsTo(a, flags, BuildAll(ts, |a.trees|) + [CallEndVector(|a.trees|, shape)], a')
    ensures a'.trees == a.trees + [ContainerOf(shape, ts)] && PoolNulFree(a', flags)
  {
    hide LeadsTo, LegalVector, BuildAll;
    var n := |a.trees|;
    var call := CallEndVector(n, shape);
    assert a1.trees[n..] == ts && a1.trees[..n] == a.trees;
    LeadsByOne(a1, flags, call);
    a' := AbsStep(a1, flags, call);
    LeadsThrough(a, flags, BuildAll(ts, n), a1, [call], a');
  }

  lemma {:induction false} BuildAllLeads(a: Abs, flags: Flags, ts: seq<Tree>) returns (a': Abs)
    requires PoolNulFree(a, flags) && forall i :: 0 <= i < |ts| ==> Buildable(ts[i], flags)
    ensures LeadsTo(a, flags, BuildAll(ts, |a.trees|), a')
    ensures a'.trees == a.trees + ts && PoolNulFree(a', flags)
    decreases ts, |ts|
  {
    hide PoolNulFree, Buildable, Build;
    if ts == [] {
      a' := a;
    } else {
      var n := |a.trees|;
      var a1 := BuildLeads(a, flags, ts[0]);
      a' := BuildAllLeads(a1, flags, ts[1..]);
      assert a.trees + [ts[0]] + ts[1..] == a.trees + ts;
      LeadsThrough(a, flags, Build(ts[0], n), a1, BuildAll(ts[1..], n + 1), a');
    }
  }

  lemma {:induction false} BuildEntriesLeads(a: Abs, flags: Flags, es: seq<Entry>) returns (a': Abs)
    requires PoolNulFree(a, flags)
    requires forall i :: 0 <= i < |es| ==> NulFree(es[i].key) && Buildable(es[i].val, flags)
    ensures LeadsTo(a, flags, BuildEntries(es, |a.trees|), a')
    ensures a'.trees == a.trees + Interleaved(es) && PoolNulFree(a', flags)
    decreases es, |es|
  {
    hide PoolNulFree, Buildable, Build, NulFree, LeadsTo;
    if es == [] {
      NoCalls(a, flags);
      a' := a;
    } else {
      var n, e := |a.trees|, es[0];
      var a0 := KeyLeads(a, flags, e.key);
      var a1 := BuildLeads(a0, flags, e.val);
      LeadsThrough(a, flags, [CallKey(e.key)], a0, Build(e.val, n + 1), a1);
      a' := BuildEntriesLeads(a1, flags, es[1..]);
      LeadsThrough(a, flags, [CallKey(e.key)] + Build(e.val, n + 1), a1, BuildEntries(es[1..], n + 2), a');
      Append(a.trees, Key(e.key), e.val, Interleaved(es[1..]));
    }
  }

  lemma {:induction false} NoCalls(a: Abs, flags: Flags)
    ensures LeadsTo(a, flags, [], a)
  {
  }

  lemma {:induction false} Append(ts: seq<Tree>, x: Tree, y: Tree, rest: seq<Tree>)
    ensures ts + [x] + [y] + rest == ts + ([x, y] + rest)
  {
  }

  lemma {:induction false} KeyLeads(a: Abs, flags: Flags, s: seq<byte>) returns (a': Abs)
    requires PoolNulFree(a, flags) && NulFree(s)
    ensures LeadsTo(a, flags, [CallKey(s)], a')
    ensures a'.trees == a.trees + [Key(s)] && PoolNulFree(a', flags)
  {
    hide LeadsTo, NulFree;
    CutIsIdentityIffNulFree(s);
    LeadsByOne(a, flags, CallKey(s));
    a' := AbsStep(a, flags, CallKey(s));
  }

  lemma {:induction false} InterleavedAt(es: seq<Entry>, i: nat)
    requires i < |es|
    ensures Interleaved(es)[2 * i] == Key(es[i].key) && Interleaved(es)[2 * i + 1] == es[i].val
  {
    if i > 0 {
      InterleavedAt(es[1..], i - 1);
    }
  }

  lemma {:induction false} InterleavedEntries(es: seq<Entry>)
    requires forall i, j :: 0 <= i < j < |es| ==> es[i].key != es[j].key
    ensures LegalMap(Interleaved(es)) && Entries(Interleaved(es)) == es
  {
    var ts := Interleaved(es);
    forall i | 0 <= i < |es|
      ensures Evens(ts)[i] == Key(es[i].key) && Odds(ts)[i] == es[i].val
    {
      InterleavedAt(es, i);
    }
    assert forall i :: 0 <= i < |es| ==> TreeKeys(Evens(ts))[i] == es[i].key;
  }

  lemma {:induction false} MapLeads(a: Abs, a1: Abs, flags: Flags, es: seq<Entry>) returns (a': Abs)
    requires LeadsTo(a, flags, BuildEntries(es, |a.trees|), a1) && PoolNulFree(a1, flags)
    requires a1.trees == a.trees + Interleaved(es)
    requires forall i, j :: 0 <= i < j < |es| ==> es[i].key != es[j].key
    ensures LeadsTo(a, flags, BuildEntries(es, |a.trees|) + [CallEndMap(|a.trees|)], a')
    ensures a'.trees == a.trees + [Map(es)] && PoolNulFree(a', flags)
  {
    hide LeadsTo, LegalMap, BuildEntries, Interleaved;
    var n := |a.trees|;
    var call := CallEndMap(n);
    InterleavedEntries(es);
    assert a1.trees[n..] == Interleaved(es) && a1.trees[..n] == a.trees;
    LeadsByOne(a1, flags, call);
    a' := AbsStep(a1, flags, call);
    LeadsThrough(a, flags, BuildEntries(es, n), a1, [call], a');
  }

  /** Round trip: building any tree bottom-up, finishing, and navigating from the root yields the tree. */
  lemma {:induction false} TreeRoundTrip(flags: Flags, t: Tree, c: Conf)
    requires Buildable(t, flags) && Run(Fresh(flags), Build(t, 0)) == Some(c) && Addressable(|c.buf|, 0)
    ensures |c.stack| == 1 && Writable(c.stack[0], |c.buf|)
    ensures var fin := Finish(c.buf, c.stack[0]); GetRoot(fin).Some? && Reads(fin, GetRoot(fin).value, t)
  {
    hide Buildable, Build, Run, Reads, Finish, Writable, GetRoot, NulFree, Inv;
    var a := BuildLeads(ABS_FRESH, flags, t);
    assert a.trees == [t];
    StackHeight(flags, Build(t, 0), c);
    RunRoundTrip(flags, Build(t, 0), c);
  }

  lemma {:induction false} StackHeight(flags: Flags, calls: seq<Call>, c: Conf)
    requires LegalRun(ABS_FRESH, flags, calls) && Run(Fresh(flags), calls) == Some(c)
    ensures |c.stack| == |AbsRun(ABS_FRESH, flags, calls).trees|
  {
    hide Run, LegalRun, AbsRun;
    FreshInv(flags);
    RunInv(Fresh(flags), ABS_FRESH, calls, c);
  }

  /** And building it never trips an assertion, as long as there is room. */
  lemma {:induction false} TreeBuilds(flags: Flags, t: Tree)
    requires Buildable(t, flags) && RoomyRun(Fresh(flags), Build(t, 0))
    ensures Run(Fresh(flags), Build(t, 0)).Some?
  {
    hide Buildable, Build, Run, Inv, NulFree, RoomyRun;
    var a := BuildLeads(ABS_FRESH, flags, t);
    FreshInv(flags);
    RunSucceeds(Fresh(flags), ABS_FRESH, Build(t, 0));
  }
}
