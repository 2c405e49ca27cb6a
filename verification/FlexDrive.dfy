/** Whole runs on the FlexBuffers Builder object.

    A call on the object does what the same call does on the machine of values, so the results about runs
    of that machine hold of the object: what it has serialized reads as what it was told to build, and no
    assertion of its methods fails while the buffer is addressable. */
module FlexDrive {
  import opened Bytes
  import opened FlexWidth
  import opened FlexReader
  import opened FlexLayout
  import opened FlexMachine
  import opened FlexRun
  import opened FlexRoundTrip
  import opened FlexTrees
  import FlexPool
  import opened FlexBuilder

  /** One call, on the object. */
  method Perform(b: Builder, call: Call, ghost a: Abs)
    requires Legal(a, b.flags, call) && Exec(b.State(), call).Some?
    modifies b
    ensures Exec(old(b.State()), call) == Some(b.State()) && b.finished == old(b.finished)
  {
    hide Exec, LegalVector, LegalMap;
    var at: int;
    match call
    case CallNull => b.Null();
    case CallBool(v) => b.Bool(v);
    case CallInt(i) => b.Int(i);
    case CallUInt(u) => b.UInt(u);
    case CallIndirectInt(i) => b.IndirectInt(i);
    case CallIndirectUInt(u) => b.IndirectUInt(u);
    case CallKey(s) => at := b.Key(s);
    case CallString(s) => at := b.String(s);
    case CallBlob(s) => at := b.Blob(s);
    case CallEndVector(start, shape) =>
      VectorDefined(b.State(), start, shape);
      at := b.EndVector(start, shape);
    case CallEndMap(start) =>
      MapDefined(b.State(), start);
      at := b.EndMap(start);
    case CallForceMinimumBitWidth(w) => b.ForceMinimumBitWidth(w);
  }

  lemma {:induction false} VectorDefined(c: Conf, start: nat, shape: Shape)
    requires Exec(c, CallEndVector(start, shape)).Some?
    ensures EndVector(c, start, shape).Some?
  {
  }

  lemma {:induction false} MapDefined(c: Conf, start: nat)
    requires Exec(c, CallEndMap(start)).Some?
    ensures EndMap(c, start).Some?
  {
  }

  /** Any sequence of calls, on the object. */
  method Drive(flags: Flags, calls: seq<Call>) returns (b: Builder)
    requires LegalRun(ABS_FRESH, flags, calls) && Run(Fresh(flags), calls).Some?
    ensures fresh(b) && b.flags == flags && !b.finished
    ensures Some(b.State()) == Run(Fresh(flags), calls)
  {
    hide Inv, Exec, Legal, AbsStep;
    b := new Builder(flags);
    var rest := calls;
    ghost var a := ABS_FRESH;
    FreshInv(flags);
    while rest != []
      invariant fresh(b) && b.flags == flags && !b.finished
      invariant Inv(b.State(), a) && LegalRun(a, flags, rest)
      invariant Run(b.State(), rest) == Run(Fresh(flags), calls)
      decreases |rest|
    {
      ghost var c1 := Exec(b.State(), rest[0]).value;
      StepInv(b.State(), a, rest[0], c1);
      Perform(b, rest[0], a);
      a := AbsStep(a, flags, rest[0]);
      rest := rest[1..];
    }
  }

  /** Building a tree on the object: navigating from the root of its buffer yields the tree. */
  method Serialize(flags: Flags, t: Tree) returns (buffer: seq<byte>)
    requires Buildable(t, flags) && RoomyRun(Fresh(flags), Build(t, 0))
    requires var r := Run(Fresh(flags), Build(t, 0)); r.Some? ==> Addressable(|r.value.buf|, 0)
    ensures GetRoot(buffer).Some? && Reads(buffer, GetRoot(buffer).value, t)
  {
    hide Inv, Run, Build, Buildable, RoomyRun, Reads, GetRoot, FlexLayout.Finish, LegalRun, FlexPool.NulFree, LeadsTo;
    TreeBuilds(flags, t);
    ghost var a := BuildLeads(ABS_FRESH, flags, t);
    LeadsToLegal(ABS_FRESH, flags, Build(t, 0), a);
    var b := Drive(flags, Build(t, 0));
    TreeRoundTrip(flags, t, b.State());
    b.Finish();
    buffer := b.buf;
  }

  lemma {:induction false} LeadsToLegal(a: Abs, flags: Flags, calls: seq<Call>, a': Abs)
    requires LeadsTo(a, flags, calls, a')
    ensures LegalRun(a, flags, calls)
  {
  }
}
