/** Packets: a size of two bytes, a type of one, and a FlatBuffer; and the buffer they are put into. */
module Packets {
  import opened Bytes
  import opened FlatVerifier
  import opened FlatLayout
  import opened FlatRun
  import opened TestInfo

  const BASICPACKETSIZE: nat := 3

  /** CDataBuffer: bytes, as many as its capacity, of which the first `now` are in use. */
  datatype Dest = Dest(bytes: seq<byte>, now: nat)

  /** AppendData of a number of bytes: refused if they do not fit, and nothing is said about it here. */
  function Appended(d: Dest, data: seq<byte>): Dest
    requires d.now <= |d.bytes|
  {
    if |data| > |d.bytes| - d.now then d
    else Dest(d.bytes[..d.now] + data + d.bytes[d.now + |data|..], d.now + |data|)
  }

  /** AppendData of a value, the template: it copies to the front of the buffer, and does not count. */
  function AppendedValue(d: Dest, data: seq<byte>): Dest
    requires d.now <= |d.bytes|
  {
    if |data| > |d.bytes| - d.now then d
    else Dest(data + d.bytes[|data|..], d.now)
  }

  /** AssemblePacketBuffer. The type is a value, so it takes the template. */
  function Assemble(d: Dest, data: seq<byte>, ty: byte): Dest
    requires d.now <= |d.bytes|
  {
    Appended(AppendedValue(Appended(d, LE(|data| + BASICPACKETSIZE, 2)), [ty]), data)
  }

  function GetSize(p: seq<byte>): Option<nat>
  {
    U(p, 0, 2)
  }

  function GetType(p: seq<byte>): Option<nat>
  {
    U(p, 2, 1)
  }

  /** What GetFlatDataPointer points to, of a given length. */
  function FlatData(p: seq<byte>, n: nat): Option<seq<byte>>
  {
    if BASICPACKETSIZE + n <= |p| then Some(p[BASICPACKETSIZE..BASICPACKETSIZE + n]) else None
  }

  /** The packet reads back: total length, type and contents. */
  predicate ReadsBack(p: seq<byte>, data: seq<byte>, ty: byte)
  {
    && GetSize(p) == Some(|data| + BASICPACKETSIZE)
    && GetType(p) == Some(ty)
    && FlatData(p, |data|) == Some(data)
  }

  lemma {:induction false} TwoBytes(v: nat)
    ensures LE(v, 2) == [v % 0x100, v / 0x100 % 0x100]
  {
    assert LE(v / 0x100, 1) == [v / 0x100 % 0x100] + LE(v / 0x100 / 0x100, 0);
  }

  /** What AssemblePacketBuffer makes of an empty buffer: the type replaces the low byte of the size, and
      the FlatBuffer follows one byte early. */
  lemma {:induction false} AssembleLayout(d: Dest, data: seq<byte>, ty: byte)
    requires d.now == 0 && |data| + BASICPACKETSIZE <= |d.bytes|
    ensures Assemble(d, data, ty)
         == Dest([ty, (|data| + 3) / 0x100 % 0x100] + data + d.bytes[|data| + 2..], |data| + 2)
  {
    var n, hi := |data|, (|data| + 3) / 0x100 % 0x100;
    TwoBytes(n + 3);
    var d1 := Appended(d, LE(n + 3, 2));
    assert d1 == Dest([(n + 3) % 0x100, hi] + d.bytes[2..], 2);
    var d2 := AppendedValue(d1, [ty]);
    assert d2 == Dest([ty, hi] + d.bytes[2..], 2);
    assert d2.bytes[..2] == [ty, hi] && d2.bytes[2 + n..] == d.bytes[n + 2..];
  }

  lemma {:induction false} OneByte(p: seq<byte>, i: nat)
    requires i < |p|
    ensures U(p, i, 1) == Some(p[i])
  {
    assert p[i..i + 1] == [p[i]];
    assert FromLE([p[i]]) == p[i] + 0x100 * FromLE([]);
  }

  lemma {:induction false} SizeOfTwo(p: seq<byte>)
    requires |p| >= 2
    ensures GetSize(p).Some? && GetSize(p).value == p[0] as int + 0x100 * (p[1] as int)
  {
    assert p[0..2] == [p[0], p[1]];
    assert FromLE([p[0], p[1]]) == p[0] + 0x100 * FromLE([p[1]]);
    assert FromLE([p[1]]) == p[1] + 0x100 * FromLE([]);
  }

  /** The packet AssemblePacketBuffer makes reads back if and only if the type happens to be the low byte
      of the size, and all of the data, and the byte of the buffer behind it. */
  lemma {:induction false} AssembledReadsBackIff(d: Dest, data: seq<byte>, ty: byte)
    requires d.now == 0 && |data| + BASICPACKETSIZE <= |d.bytes| && |data| + BASICPACKETSIZE < 0x1_0000
    ensures ReadsBack(Assemble(d, data, ty).bytes, data, ty) <==>
      (&& ty == (|data| + BASICPACKETSIZE) % 0x100
       && (forall i :: 0 <= i < |data| ==> data[i] == ty)
       && d.bytes[|data| + 2] == ty)
  {
    hide U, LE, Appended, AppendedValue;
    var n := |data|;
    var p := Assemble(d, data, ty).bytes;
    AssembleLayout(d, data, ty);
    assert p == [ty, (n + 3) / 0x100 % 0x100] + data + d.bytes[n + 2..];
    SizeOfTwo(p);
    OneByte(p, 2);
    assert p[n + 2] == d.bytes[n + 2];
    assert forall i :: 0 <= i < n ==> p[i + 2] == data[i];
    ShiftedData(p, data, ty);
  }

  /** Data seen one byte late is the same if and only if it is one byte over and over. */
  lemma {:induction false} ShiftedData(p: seq<byte>, data: seq<byte>, ty: byte)
    requires |data| + 3 <= |p| && forall i :: 0 <= i < |data| ==> p[i + 2] == data[i]
    ensures p[2] == ty && p[3..3 + |data|] == data
       <==> (forall i :: 0 <= i < |data| ==> data[i] == ty) && p[|data| + 2] == ty
  {
    if p[2] == ty && p[3..3 + |data|] == data {
      forall j | 2 <= j <= |data| + 2
        ensures p[j] == ty
      {
        SameAll(p, data, ty, j - 2);
      }
    }
    if (forall i :: 0 <= i < |data| ==> data[i] == ty) && p[|data| + 2] == ty {
      forall i | 0 <= i < |data|
        ensures p[3..3 + |data|][i] == data[i]
      {
        if i + 1 < |data| {
          assert p[i + 1 + 2] == data[i + 1];
        }
      }
      if |data| > 0 {
        assert p[0 + 2] == data[0];
      }
    }
  }

  lemma {:induction false} SameAll(p: seq<byte>, data: seq<byte>, ty: byte, i: nat)
    requires |data| + 3 <= |p| && forall k :: 0 <= k < |data| ==> p[k + 2] == data[k]
    requires p[2] == ty && p[3..3 + |data|] == data && i <= |data|
    ensures p[i + 2] == ty
  {
    if i > 0 {
      SameAll(p, data, ty, i - 1);
      assert p[i - 1 + 2] == data[i - 1];
      assert p[3..3 + |data|][i - 1] == p[i + 2];
    }
  }

  /** Two bytes of data and type 7, in an empty buffer of eight bytes. */
  lemma {:induction false} AssembledExample()
    ensures var d := Dest(Zeros(8), 0);
      Assemble(d, [1, 2], 7).bytes == [7, 0, 1, 2, 0, 0, 0, 0] && !ReadsBack(Assemble(d, [1, 2], 7).bytes, [1, 2], 7)
  {
    var d := Dest(Zeros(8), 0);
    AssembleLayout(d, [1, 2], 7);
    assert d.bytes[4..] == [0, 0, 0, 0];
    AssembledReadsBackIff(d, [1, 2], 7);
  }

  /** No finished FlatBuffer is one byte over and over, so no such packet reads back. */
  lemma {:induction false} AssembledFlatBufferNeverReadsBack(d: Dest, data: seq<byte>, ty: byte)
    requires d.now == 0 && |data| + BASICPACKETSIZE <= |d.bytes| && |data| + BASICPACKETSIZE < 0x1_0000
    requires VerifyOffset(data, 0) != 0
    ensures !ReadsBack(Assemble(d, data, ty).bytes, data, ty)
  {
    hide Assemble, ReadsBack;
    AssembledReadsBackIff(d, data, ty);
    if forall i :: 0 <= i < |data| ==> data[i] == ty {
      assert data[0..4] == [ty, ty, ty, ty];
      FourTheSame(ty);
      assert U(data, 0, 4) == Some(FromLE([ty, ty, ty, ty]));
    }
  }

  lemma {:induction false} FourTheSame(x: byte)
    ensures FromLE([x, x, x, x]) == 0x101_0101 * x
  {
    assert FromLE([x]) == x + 0x100 * FromLE([]);
    assert FromLE([x, x]) == x + 0x100 * FromLE([x]);
    assert FromLE([x, x, x]) == x + 0x100 * FromLE([x, x]);
    assert FromLE([x, x, x, x]) == x + 0x100 * FromLE([x, x, x]);
  }

  // ---------------------------------------------------------------------------------------------
  // The packet manager's setters

  function SetAt(p: seq<byte>, at: nat, x: seq<byte>): (r: seq<byte>)
    requires at + |x| <= |p|
    ensures |r| == |p|
  {
    p[..at] + x + p[at + |x|..]
  }

  /** SetSize, SetType and SetData, in any buffer large enough. */
  function BySetters(p: seq<byte>, data: seq<byte>, ty: byte): (r: seq<byte>)
    requires |data| + BASICPACKETSIZE <= |p|
    ensures |r| == |p|
  {
    SetAt(SetAt(SetAt(p, 0, LE(|data| + BASICPACKETSIZE, 2)), 2, [ty]), 3, data)
  }

  /** Size, low byte first, then the type, then the data; what is behind the packet stays as it was. */
  lemma {:induction false} SettersLayout(p: seq<byte>, data: seq<byte>, ty: byte)
    requires |data| + 3 <= |p|
    ensures var n := |data| + 3;
      BySetters(p, data, ty) == [n % 0x100, n / 0x100 % 0x100, ty] + data + p[n..]
  {
    hide LE;
    TwoBytes(|data| + 3);
  }

  /** A packet put together by the setters reads back, if its size fits two bytes, and only then. */
  lemma {:induction false} SettersReadBackIff(p: seq<byte>, data: seq<byte>, ty: byte)
    requires |data| + BASICPACKETSIZE <= |p|
    ensures ReadsBack(BySetters(p, data, ty), data, ty) <==> |data| + BASICPACKETSIZE < 0x1_0000
  {
    hide U, LE, BySetters;
    var n := |data|;
    var q := BySetters(p, data, ty);
    SettersLayout(p, data, ty);
    SizeOfTwo(q);
    OneByte(q, 2);
    assert q[3..3 + n] == data;
  }

  // ---------------------------------------------------------------------------------------------
  // End to end

  /** Every name and level whose packet fits in 65535 bytes and in the destination: put together by the
      setters, the packet gives back its length, its type, the name and the level. */
  lemma {:induction false} TestInfoPacketRoundTrip(
      force: bool, dedup: bool, name: Option<seq<byte>>, level: int, c: Conf, data: seq<byte>,
      ty: byte, dest: seq<byte>, packet: seq<byte>)
    requires IsInt32(level) && Run(Fresh(force, dedup), Calls(name, level)) == Some(c)
    requires Root(name) < |c.offs| && IsAlign(c.st.minalign) && c.offs[Root(name)] <= |c.st.bytes|
    requires data == Finish(c.st, c.offs[Root(name)], None, false).bytes
    requires |data| + BASICPACKETSIZE < 0x1_0000 && |data| + BASICPACKETSIZE <= |dest|
    requires packet == BySetters(dest, data, ty)
    ensures GetSize(packet) == Some(|data| + BASICPACKETSIZE) && GetType(packet) == Some(ty)
    ensures FlatData(packet, |data|) == Some(data) && Name(data) == Some(name) && Level(data) == Some(level)
  {
    hide Run, Finish, Name, Level, Calls, BySetters;
    TestInfoRoundTrip(force, dedup, name, level, c, data);
    SettersReadBackIff(dest, data, ty);
  }

  /** Put together by AssemblePacketBuffer it does not, whatever the name, the level and the type. The
      FlatBuffer is there, but where the type is expected. */
  lemma {:induction false} TestInfoPacketMisassembled(
      force: bool, dedup: bool, name: Option<seq<byte>>, level: int, c: Conf, data: seq<byte>, ty: byte, d: Dest)
    requires IsInt32(level) && Run(Fresh(force, dedup), Calls(name, level)) == Some(c)
    requires Root(name) < |c.offs| && IsAlign(c.st.minalign) && c.offs[Root(name)] <= |c.st.bytes|
    requires data == Finish(c.st, c.offs[Root(name)], None, false).bytes
    requires d.now == 0 && |data| + BASICPACKETSIZE < 0x1_0000 && |data| + BASICPACKETSIZE <= |d.bytes|
    ensures !ReadsBack(Assemble(d, data, ty).bytes, data, ty)
    ensures Assemble(d, data, ty).bytes[2..2 + |data|] == data
    ensures Name(data) == Some(name) && Level(data) == Some(level)
  {
    hide Run, Finish, Name, Level, Calls, Assemble, ReadsBack, FlatVerifier.VerifyTable, FlatVerifier.VerifyOffset;
    TestInfoRoundTrip(force, dedup, name, level, c, data);
    AssembledFlatBufferNeverReadsBack(d, data, ty);
    AssembleLayout(d, data, ty);
  }

  // ---------------------------------------------------------------------------------------------
  // The buffer itself

  class DataBuffer {
    const buf: array<byte>
    var nowSize: nat

    ghost predicate Valid()
      reads this
    {
      nowSize <= buf.Length
    }

    ghost function State(): Dest
      reads this, buf
    {
      Dest(buf[..], nowSize)
    }

    constructor (allocSize: nat)
      ensures Valid() && fresh(buf) && State() == Dest(Zeros(allocSize), 0)
    {
      buf := new byte[allocSize](_ => 0);
      nowSize := 0;
    }

    method Write(at: nat, data: seq<byte>)
      requires at + |data| <= buf.Length
      modifies buf
      ensures buf[..] == SetAt(old(buf[..]), at, data)
    {
      forall i | 0 <= i < |data| {
        buf[at + i] := data[i];
      }
    }

    method AppendData(data: seq<byte>) returns (ok: bool)
      requires Valid()
      modifies this, buf
      ensures Valid() && State() == Appended(old(State()), data)
      ensures ok <==> |data| <= buf.Length - old(nowSize)
    {
      if |data| > buf.Length - nowSize {
        return false;
      }
      Write(nowSize, data);
      nowSize := nowSize + |data|;
      return true;
    }

    method AppendValue(data: seq<byte>) returns (ok: bool)
      requires Valid()
      modifies buf
      ensures Valid() && State() == AppendedValue(old(State()), data)
      ensures ok <==> |data| <= buf.Length - nowSize
    {
      if |data| > buf.Length - nowSize {
        return false;
      }
      Write(0, data);
      assert buf[..] == data + old(buf[..])[|data|..];
      return true;
    }

    /** CopyBuffer does not check the size. */
    method CopyBuffer(data: seq<byte>)
      requires Valid() && |data| <= buf.Length
      modifies this, buf
      ensures Valid() && State() == Appended(old(State()).(now := 0), data)
    {
      Write(0, data);
      nowSize := |data|;
    }

    method ClearBuffer()
      modifies this, buf
      ensures Valid() && State() == Dest(Zeros(buf.Length), 0)
    {
      forall i | 0 <= i < buf.Length {
        buf[i] := 0;
      }
      nowSize := 0;
    }

    method AssemblePacketBuffer(data: seq<byte>, ty: byte)
      requires Valid()
      modifies this, buf
      ensures Valid() && State() == Assemble(old(State()), data, ty)
    {
      hide LE;
      var ok := AppendData(LE(|data| + BASICPACKETSIZE, 2));
      ok := AppendValue([ty]);
      ok := AppendData(data);
    }

    /** SetSize, SetType and SetData: none of them checks the size of the buffer. */
    method SetPacket(data: seq<byte>, ty: byte)
      requires |data| + BASICPACKETSIZE <= buf.Length
      modifies buf
      ensures buf[..] == BySetters(old(buf[..]), data, ty)
    {
      hide LE;
      Write(0, LE(|data| + BASICPACKETSIZE, 2));
      Write(2, [ty]);
      Write(3, data);
    }
  }
}
