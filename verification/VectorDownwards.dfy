/** `vector_downward`: one growing block of memory that holds two stacks, the data growing down from its
    end and the scratch space growing up from its start. Every method is specified on these two sequences,
    so that growth and everything done to one of them is seen to leave the other alone. */
module VectorDownwards {
  import opened Bytes

  /** (x + a - 1) & ~(a - 1). */
  function RoundUp(x: nat, a: nat): (r: nat)
    requires IsAlign(a)
    ensures x <= r < x + a && Multiple(r, a)
  {
    x + PaddingBytes(x, a)
  }

  lemma {:induction false} RoundUpIsMasked(x: bv64, a: bv64)
    requires a == 1 || a == 2 || a == 4 || a == 8 || a == 16
    requires x <= 0xFFFF_FFFF_FFFF_FFF0
    ensures ((x + a - 1) & !(a - 1)) & (a - 1) == 0
    ensures x <= (x + a - 1) & !(a - 1) <= x + (a - 1)
  {
  }

  /** RoundUp as reallocate computes it: `(x + a - 1) & ~(a - 1)`, in 64 bits. */
  lemma {:induction false} RoundUpIsMaskedSum(x: nat, a: nat)
    requires IsAlign(a) && x + a - 1 < WORD
    ensures RoundUp(x, a) == BitAnd(x + a - 1, BitNot(a - 1))
  {
    hide BitAnd, TwoTo, RoundUp;
    WordIsTwoTo64();
    BitAndComplement(x + a - 1, a - 1, 64);
    BitAndMask(x + a - 1, a);
    RoundedDown(x, a);
  }

  lemma {:induction false} RoundedDown(x: nat, a: nat)
    requires IsAlign(a)
    ensures RoundUp(x, a) == x + a - 1 - (x + a - 1) % a
  {
    hide Multiple, PaddingBytes;
    WithoutRemainder(x + a - 1, a);
    PaddingIsUnique(x, a, a - 1 - (x + a - 1) % a);
  }

  lemma {:induction false} FromEnd(s: seq<byte>, cur: nat, o: nat)
    requires cur <= |s| && 0 < o <= |s| - cur
    ensures s[|s| - o] == s[cur..][|s| - cur - o]
  {
  }

  lemma {:induction false} Together(s: seq<byte>, at: nat, n: nat, k: nat)
    requires k <= at && at + n <= |s|
    ensures s[at..] == s[at..at + n] + s[at + n..] && s[..k] == s[..at][..k]
  {
  }

  /** By how much memory of a given size grows: by half, or as far as the initial size, or by the room
      asked for if that is more. */
  function Growth(reserved: nat, initialSize: nat, len: nat): (g: nat)
    ensures g >= len && (reserved == 0 ==> g >= initialSize) && 2 * g + 1 >= reserved
    ensures g == len || g == initialSize || 2 * g == reserved || 2 * g + 1 == reserved
  {
    var half := if reserved == 0 then initialSize else reserved / 2;
    if len > half then len else half
  }

  class VectorDownward {
    const initialSize: nat
    const minAlign: nat
    var buf: array<byte>
    var cur: nat
    var scratch: nat

    ghost predicate Valid()
      reads this
    {
      scratch <= cur <= buf.Length && IsAlign(minAlign)
    }

    /** The data: what data_at addresses by its distance from the end. */
    ghost function Contents(): (s: seq<byte>)
      requires Valid()
      reads this, buf
    {
      buf[cur..]
    }

    ghost function Scratch(): (s: seq<byte>)
      requires Valid()
      reads this, buf
    {
      buf[..scratch]
    }

    constructor (initialSize: nat, minAlign: nat)
      requires IsAlign(minAlign)
      ensures Valid() && fresh(buf) && Contents() == [] && Scratch() == []
    {
      this.initialSize, this.minAlign := initialSize, minAlign;
      buf := new byte[0];
      cur, scratch := 0, 0;
    }

    function Size(): nat
      requires Valid()
      reads this
    {
      buf.Length - cur
    }

    /** The index in memory of what is `offset` bytes from the end. */
    function DataAt(offset: nat): nat
      requires Valid() && offset <= buf.Length
      reads this
    {
      buf.Length - offset
    }

    /** Room for at least `len` more bytes between the stacks, which keep their contents. */
    method Reallocate(len: nat)
      requires Valid() && len > cur - scratch
      modifies this
      ensures Valid() && fresh(buf)
      ensures Contents() == old(Contents()) && Scratch() == old(Scratch())
      ensures cur - scratch >= len && buf.Length > old(buf.Length)
      ensures buf.Length == RoundUp(old(buf.Length) + Growth(old(buf.Length), initialSize, len), minAlign)
      ensures forall o :: 0 < o <= old(Size()) ==> o <= buf.Length && buf[DataAt(o)] == old(buf[DataAt(o)])
    {
      var oldReserved := buf.Length;
      var half := if oldReserved != 0 then oldReserved / 2 else initialSize;
      var reserved := oldReserved + if len > half then len else half;
      Move(RoundUp(reserved, minAlign));
      forall o | 0 < o <= old(Size())
        ensures buf[DataAt(o)] == old(buf[DataAt(o)])
      {
        FromEnd(buf[..], cur, o);
        FromEnd(old(buf[..]), old(cur), o);
      }
    }

    /** To new memory of `reserved` bytes. */
    method Move(reserved: nat)
      requires Valid() && reserved >= buf.Length
      modifies this
      ensures Valid() && fresh(buf) && buf.Length == reserved
      ensures Contents() == old(Contents()) && Scratch() == old(Scratch()) && Size() == old(Size()) && scratch == old(scratch)
    {
      var oldSize, oldScratchSize := Size(), scratch;
      var newBuf := new byte[reserved];
      CopyDownward(buf, newBuf, oldSize, oldScratchSize);
      buf := newBuf;
      cur := reserved - oldSize;
      scratch := oldScratchSize;
    }

    /** memcpy_downward: what is in use at the back and at the front. */
    static method CopyDownward(oldP: array<byte>, newP: array<byte>, inUseBack: nat, inUseFront: nat)
      requires oldP != newP && inUseFront + inUseBack <= oldP.Length <= newP.Length
      modifies newP
      ensures newP[newP.Length - inUseBack..] == oldP[oldP.Length - inUseBack..]
      ensures newP[..inUseFront] == oldP[..inUseFront]
    {
      forall i | 0 <= i < inUseBack {
        newP[newP.Length - inUseBack + i] := oldP[oldP.Length - inUseBack + i];
      }
      assert newP[newP.Length - inUseBack..] == oldP[oldP.Length - inUseBack..];
      forall i | 0 <= i < inUseFront {
        newP[i] := oldP[i];
      }
      assert newP[newP.Length - inUseBack..] == oldP[oldP.Length - inUseBack..];
    }

    /** The second assertion of ensure_space is the precondition on the size. */
    method EnsureSpace(len: nat)
      requires Valid() && Size() < MAX_BUFFER_SIZE
      modifies this
      ensures Valid() && (fresh(buf) || buf == old(buf)) && cur - scratch >= len
      ensures Contents() == old(Contents()) && Scratch() == old(Scratch())
    {
      if len > cur - scratch {
        Reallocate(len);
      }
    }

    method MakeSpace(len: nat)
      requires Valid() && Size() < MAX_BUFFER_SIZE
      modifies this
      ensures Valid() && (fresh(buf) || buf == old(buf))
      ensures |Contents()| == len + |old(Contents())| && Contents()[len..] == old(Contents())
      ensures Scratch() == old(Scratch())
    {
      EnsureSpace(len);
      cur := cur - len;
    }

    /** Overwrite part of the data in place. */
    method WriteAt(at: nat, bytes: seq<byte>)
      requires Valid() && at + |bytes| <= Size()
      modifies buf
      ensures Valid() && Scratch() == old(Scratch())
      ensures Contents() == old(Contents())[..at] + bytes + old(Contents())[at + |bytes|..]
    {
      forall i | 0 <= i < |bytes| {
        buf[cur + at + i] := bytes[i];
      }
    }

    method Push(bytes: seq<byte>)
      requires Valid() && Size() < MAX_BUFFER_SIZE
      modifies this, buf
      ensures Valid() && (fresh(buf) || buf == old(buf))
      ensures Contents() == bytes + old(Contents()) && Scratch() == old(Scratch())
    {
      ghost var before := Contents();
      MakeSpace(|bytes|);
      WriteAt(0, bytes);
      assert bytes + before == [] + bytes + before;
    }

    /** The loop of fill. */
    static method ZeroOut(p: array<byte>, at: nat, n: nat)
      requires at + n <= p.Length
      modifies p
      ensures p[..at] == old(p[..at]) && p[at + n..] == old(p[at + n..]) && p[at..at + n] == Zeros(n)
    {
      for i := 0 to n
        invariant p[..at] == old(p[..at]) && p[at + n..] == old(p[at + n..])
        invariant forall k :: at <= k < at + i ==> p[k] == 0
      {
        p[at + i] := 0;
      }
      assert p[at..at + n] == Zeros(n);
    }

    method ZeroFront(n: nat)
      requires Valid() && n <= Size()
      modifies buf
      ensures Valid() && Contents() == Zeros(n) + old(Contents()[n..]) && Scratch() == old(Scratch())
    {
      ghost var above, front := buf[cur + n..], buf[..cur];
      Together(buf[..], cur, n, scratch);
      ZeroOut(buf, cur, n);
      Together(buf[..], cur, n, scratch);
    }

    method Fill(zeroPadBytes: nat)
      requires Valid() && Size() < MAX_BUFFER_SIZE
      modifies this, buf
      ensures Valid() && (fresh(buf) || buf == old(buf))
      ensures Contents() == Zeros(zeroPadBytes) + old(Contents()) && Scratch() == old(Scratch())
    {
      MakeSpace(zeroPadBytes);
      ZeroFront(zeroPadBytes);
    }

    method Pop(bytesToRemove: nat)
      requires Valid() && bytesToRemove <= Size()
      modifies this`cur
      ensures Valid() && Contents() == old(Contents())[bytesToRemove..] && Scratch() == old(Scratch())
    {
      cur := cur + bytesToRemove;
    }

    method ScratchPush(bytes: seq<byte>)
      requires Valid() && Size() < MAX_BUFFER_SIZE
      modifies this, buf
      ensures Valid() && (fresh(buf) || buf == old(buf))
      ensures Scratch() == old(Scratch()) + bytes && Contents() == old(Contents())
    {
      ghost var below, above := Scratch(), Contents();
      EnsureSpace(|bytes|);
      forall i | 0 <= i < |bytes| {
        buf[scratch + i] := bytes[i];
      }
      scratch := scratch + |bytes|;
      assert Scratch() == below + bytes;
      assert Contents() == above;
    }

    method ScratchPop(bytesToRemove: nat)
      requires Valid() && bytesToRemove <= scratch
      modifies this`scratch
      ensures Valid() && Contents() == old(Contents())
      ensures Scratch() == old(Scratch())[..|old(Scratch())| - bytesToRemove]
    {
      scratch := scratch - bytesToRemove;
    }

    method ClearScratch()
      requires Valid()
      modifies this`scratch
      ensures Valid() && Contents() == old(Contents()) && Scratch() == []
    {
      scratch := 0;
    }

    method Clear()
      requires Valid()
      modifies this
      ensures Valid() && buf == old(buf) && Contents() == [] && Scratch() == []
    {
      cur := buf.Length;
      scratch := 0;
    }
  }

  // ---------------------------------------------------------------------------------------------
  // Any interleaving

  datatype Op =
    | DoPush(bytes: seq<byte>)
    | DoFill(n: nat)
    | DoPop(n: nat)
    | DoScratchPush(bytes: seq<byte>)
    | DoScratchPop(n: nat)
    | DoClear

  /** A stack of data growing at its front, which knows of no scratch space. */
  function DataStep(data: seq<byte>, op: Op): seq<byte>
  {
    match op
    case DoPush(bytes) => bytes + data
    case DoFill(n) => Zeros(n) + data
    case DoPop(n) => if n <= |data| then data[n..] else []
    case DoClear => []
    case _ => data
  }

  /** A scratch stack growing at its end, which knows of no data. */
  function ScratchStep(scratch: seq<byte>, op: Op): seq<byte>
  {
    match op
    case DoScratchPush(bytes) => scratch + bytes
    case DoScratchPop(n) => if n <= |scratch| then scratch[..|scratch| - n] else []
    case DoClear => []
    case _ => scratch
  }

  function DataRun(data: seq<byte>, ops: seq<Op>): seq<byte>
    decreases |ops|
  {
    if ops == [] then data else DataRun(DataStep(data, ops[0]), ops[1..])
  }

  function ScratchRun(scratch: seq<byte>, ops: seq<Op>): seq<byte>
    decreases |ops|
  {
    if ops == [] then scratch else ScratchRun(ScratchStep(scratch, ops[0]), ops[1..])
  }

  /** What callers owe: no more is popped than there is, and the data stays below 2 GB. */
  predicate Allowed(data: seq<byte>, scratch: seq<byte>, ops: seq<Op>)
    decreases |ops|
  {
    ops == [] ||
    (&& |data| < MAX_BUFFER_SIZE
     && (ops[0].DoPop? ==> ops[0].n <= |data|)
     && (ops[0].DoScratchPop? ==> ops[0].n <= |scratch|)
     && Allowed(DataStep(data, ops[0]), ScratchStep(scratch, ops[0]), ops[1..]))
  }

  method Do(v: VectorDownward, op: Op)
    requires v.Valid() && v.Size() < MAX_BUFFER_SIZE
    requires op.DoPop? ==> op.n <= |v.Contents()|
    requires op.DoScratchPop? ==> op.n <= |v.Scratch()|
    modifies v, v.buf
    ensures v.Valid() && (fresh(v.buf) || v.buf == old(v.buf))
    ensures v.Contents() == DataStep(old(v.Contents()), op)
    ensures v.Scratch() == ScratchStep(old(v.Scratch()), op)
  {
    match op
    case DoPush(bytes) => v.Push(bytes);
    case DoFill(n) => v.Fill(n);
    case DoPop(n) => v.Pop(n);
    case DoScratchPush(bytes) => v.ScratchPush(bytes);
    case DoScratchPop(n) => v.ScratchPop(n);
    case DoClear => v.Clear();
  }

  /** Under any interleaving, and however often the memory is reallocated, the data is what the data
      operations alone make of it, and the scratch space what the scratch operations alone do. */
  method DoAll(v: VectorDownward, ops: seq<Op>)
    requires v.Valid() && Allowed(v.Contents(), v.Scratch(), ops)
    modifies v, v.buf
    ensures v.Valid() && v.scratch <= v.cur <= v.buf.Length
    ensures v.Contents() == DataRun(old(v.Contents()), ops)
    ensures v.Scratch() == ScratchRun(old(v.Scratch()), ops)
  {
    var rest := ops;
    while rest != []
      invariant v.Valid() && (fresh(v.buf) || v.buf == old(v.buf))
      invariant Allowed(v.Contents(), v.Scratch(), rest)
      invariant DataRun(v.Contents(), rest) == DataRun(old(v.Contents()), ops)
      invariant ScratchRun(v.Scratch(), rest) == ScratchRun(old(v.Scratch()), ops)
      decreases |rest|
    {
      Do(v, rest[0]);
      rest := rest[1..];
    }
  }
}
