/** Finish: the whole buffer, aligned for its final size, with the root offset in front. */
module FlatFinish {
  import opened Bytes
  import opened FlatSchema
  import opened FlatLayout
  import opened FlatCreate
  import opened FlatTable
  import opened FlatRun

  /** A file identifier: four characters, none of them NUL. */
  predicate IsIdentifier(id: Option<seq<byte>>)
  {
    id.Some? ==> |id.value| == 4 && forall k :: 0 <= k < 4 ==> id.value[k] != 0
  }

  function Words(n: bool): nat
  {
    if n then 1 else 0
  }

  /** Front to back: size prefix, root offset, identifier, padding, and everything built so far. */
  function FinishedBytes(bytes: seq<byte>, root: nat, id: Option<seq<byte>>, sizePrefix: bool, pad: nat)
    : seq<byte>
    requires IsIdentifier(id) && root <= |bytes|
  {
    var body := (if id.Some? then id.value else []) + (Zeros(pad) + bytes);
    var rooted := LE(|body| + 4 - root, 4) + body;
    if sizePrefix then LE(|rooted|, 4) + rooted else rooted
  }

  /** No further padding appears between the identifier, the root offset and the size prefix. */
  lemma {:induction false} FinishLayout(
      st: State, root: nat, id: Option<seq<byte>>, sizePrefix: bool, r: State, pad: nat, total: nat)
    requires IsAlign(st.minalign) && 4 <= st.minalign && root <= |st.bytes| && IsIdentifier(id)
    requires r == Finish(st, root, id, sizePrefix) && total == |r.bytes|
    requires pad == PaddingBytes(|st.bytes| + 4 * (Words(sizePrefix) + 1 + Words(id.Some?)), st.minalign)
    ensures r.bytes == FinishedBytes(st.bytes, root, id, sizePrefix, pad)
    ensures pad < st.minalign && Multiple(total, st.minalign) && r.minalign == st.minalign
    ensures Extends(r.bytes, st.bytes) && |r.bytes| >= |st.bytes| + 4
  {
    hide PaddingBytes, Multiple, LE, PushRef, PushScalar, Extends;
    var head := 4 * (Words(sizePrefix) + 1 + Words(id.Some?));
    var st1 := PreAlign(st, head, st.minalign);
    var sum := |st1.bytes| + head;
    PreAlignFacts(st, head, st.minalign, st1, sum);
    AlignDivides(sum, st.minalign, 4);
    var st2 := if id.Some? then Push(st1, id.value) else st1;
    StripMultiple(|st2.bytes|, Words(sizePrefix) + 1, sum);
    PushRefAligned(st2, root, |st2.bytes|);
    var st3 := PushRef(st2, root);
    PushScalarAligned(st3, |st3.bytes|, 4, |st3.bytes|);
    ExtendsItself(st.bytes);
    FinishedExtends(st.bytes, root, id, sizePrefix, pad);
  }

  lemma {:induction false} FinishedExtends(bytes: seq<byte>, root: nat, id: Option<seq<byte>>, sizePrefix: bool, pad: nat)
    requires IsIdentifier(id) && root <= |bytes|
    ensures Extends(FinishedBytes(bytes, root, id, sizePrefix, pad), bytes)
    ensures |FinishedBytes(bytes, root, id, sizePrefix, pad)|
         == |bytes| + pad + 4 * (Words(sizePrefix) + 1 + Words(id.Some?))
  {
    hide Extends;
    ExtendsItself(bytes);
    PushExtends(Zeros(pad), bytes, bytes);
    var idb := if id.Some? then id.value else [];
    PushExtends(idb, Zeros(pad) + bytes, bytes);
    var body := idb + (Zeros(pad) + bytes);
    PushExtends(LE(|body| + 4 - root, 4), body, bytes);
    var rooted := LE(|body| + 4 - root, 4) + body;
    PushExtends(LE(|rooted|, 4), rooted, bytes);
  }

  /** The root offset leads to the root, and the prefix states the size of what follows. */
  lemma {:induction false} FinishedReads(
      bytes: seq<byte>, root: nat, id: Option<seq<byte>>, sizePrefix: bool, pad: nat, b: seq<byte>)
    requires IsIdentifier(id) && root <= |bytes|
    requires b == FinishedBytes(bytes, root, id, sizePrefix, pad) && |b| < 0x8000_0000
    ensures GetRoot(b, 4 * Words(sizePrefix)) == Some(|b| - root)
    ensures sizePrefix ==> U(b, 0, 4) == Some(|b| - 4)
  {
    hide U;
    assert Pow256(4) == 0x1_0000_0000;
    var body := (if id.Some? then id.value else []) + (Zeros(pad) + bytes);
    var v := |body| + 4 - root;
    var rooted := LE(v, 4) + body;
    UAt([], v, 4, body);
    assert [] + LE(v, 4) + body == rooted;
    if sizePrefix {
      UAt([], |rooted|, 4, rooted);
      assert [] + LE(|rooted|, 4) + rooted == b;
      UShift(LE(|rooted|, 4), rooted, 0, 4);
    }
  }

  /** Natural alignment of the finished buffer: its size is a multiple of the tracked alignment, and what
      was aligned by its distance from the end is aligned by its index. */
  lemma {:induction false} IndexAligned(total: nat, minalign: nat, o: nat, n: nat, index: int)
    requires IsAlign(minalign) && IsAlign(n) && n <= minalign
    requires Multiple(total, minalign) && Multiple(o, n) && index == total - o
    ensures Multiple(index, n)
  {
    hide Multiple;
    AlignDivides(total, minalign, n);
    MultipleSum(total, o, n, total + o, index);
  }

  /** Every object still reads back from the finished buffer. */
  lemma {:induction false} FinishedObjects(c: Conf, a: Abs, root: nat, id: Option<seq<byte>>, sizePrefix: bool, b: seq<byte>)
    requires Inv(c, a) && 4 <= c.st.minalign && root <= |c.st.bytes| && IsIdentifier(id)
    requires b == Finish(c.st, root, id, sizePrefix).bytes
    ensures ObjsInPlace(b, c.offs, a.objs, c.st.minalign)
    ensures Multiple(|b|, c.st.minalign) && Extends(b, c.st.bytes) && |b| >= |c.st.bytes| + 4
    ensures |b| < 0x8000_0000 ==> GetRoot(b, 4 * Words(sizePrefix)) == Some(|b| - root)
    ensures |b| < 0x8000_0000 && sizePrefix ==> U(b, 0, 4) == Some(|b| - 4)
  {
    hide ObjsInPlace, Finish, PaddingBytes, Extends, Multiple, U, GetRoot, PoolExact, VTablesInPlace, Pending;
    var r := Finish(c.st, root, id, sizePrefix);
    var pad := PaddingBytes(|c.st.bytes| + 4 * (Words(sizePrefix) + 1 + Words(id.Some?)), c.st.minalign);
    FinishLayout(c.st, root, id, sizePrefix, r, pad, |b|);
    ObjsGrow(b, c.st.bytes, c.offs, a.objs, c.st.minalign, c.st.minalign);
    if |b| < 0x8000_0000 {
      FinishedReads(c.st.bytes, root, id, sizePrefix, pad, b);
    }
  }
}
