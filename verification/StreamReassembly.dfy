/** ReadPacket of the test client: how received chunks are put together to packets. */
module StreamReassembly {
  import opened Bytes

  const MAX_BUFFER: nat := 1024

  /** `char` is signed: what a size becomes when it is read again from the packet buffer. */
  function SignedChar(x: byte): int
  {
    if x < 0x80 then x else x - 0x100
  }

  /** The comparison with unsigned operands. */
  function Unsigned32(x: int): nat
    requires -0x8000_0000 <= x < 0x1_0000_0000
  {
    if x >= 0 then x else x + 0x1_0000_0000
  }

  /** A call ends with the bytes carried over and the packets delivered so far, or it does not end, or it
      writes past the packet buffer. */
  datatype Outcome = Ok(carried: seq<byte>, delivered: seq<seq<byte>>) | Stuck | Overrun

  /** The loop of ReadPacket on the rest of a chunk. A required size of 0 stands for none known yet. */
  function Loop(carried: seq<byte>, required: int, chunk: seq<byte>, delivered: seq<seq<byte>>): Outcome
    requires -0x80 <= required < 0x100
    decreases |chunk|, |carried|
  {
    if chunk == [] then Ok(carried, delivered)
    else
      var size: int := if required == 0 then chunk[0] else required;
      if |chunk| + |carried| >= Unsigned32(size) then
        if size < |carried| then Overrun
        else if size == 0 then Stuck
        else
          var take := size - |carried|;
          Loop([], 0, chunk[take..], delivered + [carried + chunk[..take]])
      else if |carried| + |chunk| > MAX_BUFFER then Overrun
      else Ok(carried + chunk, delivered)
  }

  function Call(carried: seq<byte>, chunk: seq<byte>, delivered: seq<seq<byte>>): Outcome
  {
    Loop(carried, if carried != [] then SignedChar(carried[0]) else 0, chunk, delivered)
  }

  /** All calls, one for each chunk. */
  function Run(carried: seq<byte>, chunks: seq<seq<byte>>, delivered: seq<seq<byte>>): Outcome
    decreases |chunks|
  {
    if chunks == [] then Ok(carried, delivered)
    else
      match Call(carried, chunks[0], delivered)
      case Ok(c, d) => Run(c, chunks[1..], d)
      case Stuck => Stuck
      case Overrun => Overrun
  }

  // ---------------------------------------------------------------------------------------------
  // The stream, without regard to chunks

  /** Whether the stream starts with a whole packet. */
  predicate Complete(s: seq<byte>)
  {
    s != [] && s[0] != 0 && |s| >= s[0]
  }

  function Frames(s: seq<byte>): seq<seq<byte>>
  {
    if Complete(s) then [s[..s[0]]] + Frames(s[s[0]..]) else []
  }

  /** What is left behind the last whole packet. */
  function Tail(s: seq<byte>): (t: seq<byte>)
    ensures !Complete(t) && |t| <= |s|
  {
    if Complete(s) then Tail(s[s[0]..]) else s
  }

  /** No packet claims to have no bytes at all. */
  predicate NoZero(s: seq<byte>)
  {
    var t := Tail(s);
    t == [] || t[0] != 0
  }

  function Concat(chunks: seq<seq<byte>>): seq<byte>
  {
    if chunks == [] then [] else chunks[0] + Concat(chunks[1..])
  }

  lemma {:induction false} FramesStep(s: seq<byte>, first: seq<byte>, rest: seq<byte>)
    requires first != [] && first[0] != 0 && |first| == first[0] && s == first + rest
    ensures Complete(s) && Frames(s) == [first] + Frames(rest) && Tail(s) == Tail(rest)
  {
    assert s[..s[0]] == first && s[s[0]..] == rest;
  }

  /** A prefix splits off its packets; its tail belongs to what follows. */
  lemma {:induction false} FramesAppend(a: seq<byte>, b: seq<byte>)
    ensures Frames(a + b) == Frames(a) + Frames(Tail(a) + b)
    ensures Tail(a + b) == Tail(Tail(a) + b)
    decreases |a|
  {
    if Complete(a) {
      hide Frames, Tail;
      var first, rest := a[..a[0]], a[a[0]..];
      FramesStep(a, first, rest);
      FramesAppend(rest, b);
      assert a + b == first + (rest + b);
      FramesStep(a + b, first, rest + b);
      Reassociate([first], Frames(rest), Frames(Tail(rest) + b));
    } else {
      assert Frames(a) + Frames(a + b) == Frames(a + b);
    }
  }

  lemma {:induction false} Reassociate(x: seq<seq<byte>>, y: seq<seq<byte>>, z: seq<seq<byte>>)
    ensures x + (y + z) == x + y + z
  {
  }

  /** The loop on a chunk of which nothing was carried over. */
  lemma {:induction false} LoopFresh(chunk: seq<byte>, delivered: seq<seq<byte>>)
    requires |chunk| <= MAX_BUFFER
    ensures Loop([], 0, chunk, delivered)
         == if NoZero(chunk) then Ok(Tail(chunk), delivered + Frames(chunk)) else Stuck
    decreases |chunk|
  {
    if chunk == [] {
      assert delivered + [] == delivered;
    } else if Complete(chunk) {
      var n := chunk[0];
      LoopFresh(chunk[n..], delivered + [chunk[..n]]);
      assert [] + chunk[..n] == chunk[..n];
      assert delivered + [chunk[..n]] + Frames(chunk[n..]) == delivered + ([chunk[..n]] + Frames(chunk[n..]));
    } else {
      assert [] + chunk == chunk && delivered + [] == delivered;
    }
  }

  /** What may be carried over from a call: part of a packet. */
  predicate Partial(carried: seq<byte>)
  {
    carried != [] ==> 0 < carried[0] && |carried| < carried[0]
  }

  /** A chunk that completes a carried packet of 128 bytes or more, which the client then does not notice. */
  predicate Straddles(carried: seq<byte>, chunk: seq<byte>)
  {
    carried != [] && carried[0] >= 0x80 && |carried| + |chunk| >= carried[0]
  }

  /** One call: it delivers the whole packets and carries over the tail, if and only if no size is zero
      and no large packet straddles the beginning of the chunk. */
  lemma {:induction false} ReadPacketIff(carried: seq<byte>, chunk: seq<byte>, delivered: seq<seq<byte>>)
    requires Partial(carried) && |chunk| <= 1024
    ensures Call(carried, chunk, delivered) ==
      if Straddles(carried, chunk) then
        if |carried| + |chunk| > 1024 then Overrun else Ok(carried + chunk, delivered)
      else if NoZero(carried + chunk) then Ok(Tail(carried + chunk), delivered + Frames(carried + chunk))
      else Stuck
    ensures Straddles(carried, chunk) ==> Frames(carried + chunk) != []
  {
    if carried == [] {
      assert [] + chunk == chunk;
      LoopFresh(chunk, delivered);
    } else if chunk == [] {
      assert carried + [] == carried && delivered + [] == delivered;
    } else if |carried| + |chunk| < carried[0] {
      assert delivered + [] == delivered;
    } else {
      CompletesCarried(carried, chunk, delivered);
    }
  }

  lemma {:induction false} CompletesCarried(carried: seq<byte>, chunk: seq<byte>, delivered: seq<seq<byte>>)
    requires Partial(carried) && carried != [] && chunk != [] && |chunk| <= MAX_BUFFER
    requires |carried| + |chunk| >= carried[0]
    ensures Call(carried, chunk, delivered) ==
      if carried[0] < 0x80 then
        if NoZero(carried + chunk) then Ok(Tail(carried + chunk), delivered + Frames(carried + chunk)) else Stuck
      else if |carried| + |chunk| > MAX_BUFFER then Overrun
      else Ok(carried + chunk, delivered)
    ensures Frames(carried + chunk) != []
  {
    var n := carried[0];
    var s, take := carried + chunk, n - |carried|;
    assert Complete(s);
    if n < 0x80 {
      assert s[..n] == carried + chunk[..take] && s[n..] == chunk[take..];
      LoopFresh(chunk[take..], delivered + [s[..n]]);
      assert delivered + [s[..n]] + Frames(s[n..]) == delivered + ([s[..n]] + Frames(s[n..]));
    }
  }

  // ---------------------------------------------------------------------------------------------
  // Whole runs

  /** No chunk of a run shows a size of zero, or completes a large packet begun in an earlier one. */
  predicate Safe(carried: seq<byte>, chunks: seq<seq<byte>>)
    decreases |chunks|
  {
    chunks == [] ||
    (&& NoZero(carried + chunks[0]) && !Straddles(carried, chunks[0])
     && Safe(Tail(carried + chunks[0]), chunks[1..]))
  }

  predicate SmallChunks(chunks: seq<seq<byte>>)
  {
    forall i :: 0 <= i < |chunks| ==> |chunks[i]| <= 1024
  }

  /** Associativity, for the stream and for the log. */
  lemma {:induction false} Chain(carried: seq<byte>, chunk: seq<byte>, rest: seq<byte>, delivered: seq<seq<byte>>)
    ensures carried + (chunk + rest) == carried + chunk + rest
    ensures delivered + Frames(carried + chunk) + Frames(Tail(carried + chunk) + rest)
         == delivered + Frames(carried + (chunk + rest))
    ensures Tail(carried + (chunk + rest)) == Tail(Tail(carried + chunk) + rest)
  {
    hide Frames, Tail;
    var s := carried + chunk;
    assert carried + (chunk + rest) == s + rest;
    FramesAppend(s, rest);
    assert delivered + Frames(s) + Frames(Tail(s) + rest) == delivered + (Frames(s) + Frames(Tail(s) + rest));
  }

  lemma {:induction false} TailIsPartial(s: seq<byte>)
    requires NoZero(s)
    ensures Partial(Tail(s))
  {
  }

  lemma {:induction false} SafeRuns(carried: seq<byte>, chunks: seq<seq<byte>>, delivered: seq<seq<byte>>)
    requires Partial(carried) && SmallChunks(chunks) && Safe(carried, chunks)
    ensures Run(carried, chunks, delivered)
         == Ok(Tail(carried + Concat(chunks)), delivered + Frames(carried + Concat(chunks)))
    decreases |chunks|
  {
    hide Call, Straddles, NoZero;
    if chunks == [] {
      assert carried + [] == carried && delivered + [] == delivered;
    } else {
      hide Frames, Tail, Partial;
      var s, rest := carried + chunks[0], Concat(chunks[1..]);
      ReadPacketIff(carried, chunks[0], delivered);
      TailIsPartial(s);
      SafeRuns(Tail(s), chunks[1..], delivered + Frames(s));
      Chain(carried, chunks[0], rest, delivered);
    }
  }

  /** A large packet whose end went unnoticed: nothing is delivered any more. */
  predicate Lost(carried: seq<byte>)
  {
    carried != [] && carried[0] >= 0x80
  }

  /** What a call does then: it keeps everything until the packet buffer is full. */
  lemma {:induction false} LostCall(carried: seq<byte>, chunk: seq<byte>, delivered: seq<seq<byte>>)
    requires Lost(carried) && |carried| <= 1024 && |chunk| <= 1024
    ensures Call(carried, chunk, delivered)
         == if chunk != [] && |carried| + |chunk| > 1024 then Overrun else Ok(carried + chunk, delivered)
  {
    if chunk == [] {
      assert carried + chunk == carried;
    }
  }

  lemma {:induction false} LostForGood(carried: seq<byte>, chunks: seq<seq<byte>>, delivered: seq<seq<byte>>)
    requires Lost(carried)
    ensures match Run(carried, chunks, delivered)
      case Ok(_, d) => d == delivered
      case _ => true
    decreases |chunks|
  {
    if chunks != [] {
      match Call(carried, chunks[0], delivered)
      case Ok(c, d) => LostForGood(c, chunks[1..], d);
      case _ =>
    }
  }

  /** The log the stream calls for is longer than what was delivered before a lost packet. */
  lemma {:induction false} MoreFrames(a: seq<byte>, b: seq<byte>)
    requires Frames(a) != []
    ensures Frames(a + b) != []
  {
    hide Frames, Tail;
    FramesAppend(a, b);
  }

  lemma {:induction false} UnsafeRuns(carried: seq<byte>, chunks: seq<seq<byte>>, delivered: seq<seq<byte>>)
    requires Partial(carried) && SmallChunks(chunks) && !Safe(carried, chunks)
    ensures Run(carried, chunks, delivered)
         != Ok(Tail(carried + Concat(chunks)), delivered + Frames(carried + Concat(chunks)))
    decreases |chunks|
  {
    hide Call, NoZero, Frames, Tail, Partial, Straddles;
    var s, rest := carried + chunks[0], Concat(chunks[1..]);
    ReadPacketIff(carried, chunks[0], delivered);
    if Straddles(carried, chunks[0]) {
      StraddleLoses(carried, chunks[0]);
      LostForGood(s, chunks[1..], delivered);
      MoreFrames(s, rest);
      assert carried + Concat(chunks) == s + rest;
    } else if NoZero(s) {
      TailIsPartial(s);
      UnsafeRuns(Tail(s), chunks[1..], delivered + Frames(s));
      Chain(carried, chunks[0], rest, delivered);
    }
  }

  lemma {:induction false} StraddleLoses(carried: seq<byte>, chunk: seq<byte>)
    requires Straddles(carried, chunk)
    ensures Lost(carried + chunk)
  {
  }

  /** Whole runs: the client delivers exactly the packets of the stream, in order, and carries over exactly
      the incomplete tail, if and only if the way the stream was cut is safe. */
  lemma {:induction false} RunIff(chunks: seq<seq<byte>>)
    requires SmallChunks(chunks)
    ensures Run([], chunks, []) == Ok(Tail(Concat(chunks)), Frames(Concat(chunks))) <==> Safe([], chunks)
  {
    hide Run, Frames, Tail, Safe;
    var s := Concat(chunks);
    assert [] + s == s && [] + Frames(s) == Frames(s);
    if Safe([], chunks) {
      SafeRuns([], chunks, []);
    } else {
      UnsafeRuns([], chunks, []);
    }
  }

  // ---------------------------------------------------------------------------------------------
  // Small packets

  /** Every size in the stream is between 1 and 127. */
  predicate SmallSizes(s: seq<byte>)
  {
    s == [] || (0 < s[0] < 0x80 && (Complete(s) ==> SmallSizes(s[s[0]..])))
  }

  lemma {:induction false} SmallSizesSplit(a: seq<byte>, b: seq<byte>)
    requires SmallSizes(a + b)
    ensures SmallSizes(a) && NoZero(a) && SmallSizes(Tail(a) + b)
    ensures a != [] ==> a[0] < 0x80
    decreases |a|
  {
    if a != [] {
      assert (a + b)[0] == a[0];
      if Complete(a) {
        var n := a[0];
        assert (a + b)[n..] == a[n..] + b;
        SmallSizesSplit(a[n..], b);
      }
    }
  }

  lemma {:induction false} SmallIsSafe(carried: seq<byte>, chunks: seq<seq<byte>>)
    requires SmallSizes(carried + Concat(chunks))
    ensures Safe(carried, chunks)
    decreases |chunks|
  {
    if chunks != [] {
      hide SmallSizes, Tail, NoZero;
      var s, rest := carried + chunks[0], Concat(chunks[1..]);
      assert carried + Concat(chunks) == s + rest;
      SmallSizesSplit(s, rest);
      SmallIsSafe(Tail(s), chunks[1..]);
    }
  }

  /** For packets of 1 to 127 bytes the cutting does not matter at all. */
  lemma {:induction false} IndependentOfChunking(chunks: seq<seq<byte>>, chunks': seq<seq<byte>>)
    requires SmallChunks(chunks) && SmallChunks(chunks') && Concat(chunks) == Concat(chunks')
    requires SmallSizes(Concat(chunks))
    ensures Run([], chunks, []) == Ok(Tail(Concat(chunks)), Frames(Concat(chunks)))
    ensures Run([], chunks', []) == Run([], chunks, [])
  {
    hide Run, Frames, Tail, Safe, SmallSizes;
    var s := Concat(chunks);
    assert [] + s == s;
    SmallIsSafe([], chunks);
    SmallIsSafe([], chunks');
    RunIff(chunks);
    RunIff(chunks');
  }

  /** What was delivered and what is carried over make up the whole stream again. */
  lemma {:induction false} NothingIsLost(s: seq<byte>)
    ensures Concat(Frames(s)) + Tail(s) == s
  {
    hide Frames, Tail, Concat;
    if Complete(s) {
      NothingIsLost(s[s[0]..]);
      WholePacket(s, s[..s[0]], s[s[0]..]);
    } else {
      NoPacket(s);
    }
  }

  lemma {:induction false} NoPacket(s: seq<byte>)
    requires !Complete(s)
    ensures Concat(Frames(s)) + Tail(s) == s
  {
    assert [] + s == s;
  }

  lemma {:induction false} WholePacket(s: seq<byte>, first: seq<byte>, rest: seq<byte>)
    requires first != [] && first[0] != 0 && |first| == first[0] && s == first + rest
    requires Concat(Frames(rest)) + Tail(rest) == rest
    ensures Concat(Frames(s)) + Tail(s) == s
  {
    hide Frames, Tail, Concat;
    FramesStep(s, first, rest);
    ConcatCons(first, Frames(rest));
    assert first + (Concat(Frames(rest)) + Tail(rest)) == first + Concat(Frames(rest)) + Tail(rest);
  }

  lemma {:induction false} ConcatCons(first: seq<byte>, rest: seq<seq<byte>>)
    ensures Concat([first] + rest) == first + Concat(rest)
  {
    assert ([first] + rest)[1..] == rest;
  }

  /** Three packets in three chunks, none of which ends where a packet does before the last one. */
  lemma {:induction false} StreamExample()
    ensures Run([], [[3, 1], [2, 2, 9, 3, 0], [1]], []) == Ok([], [[3, 1, 2], [2, 9], [3, 0, 1]])
  {
    var c1, c2: seq<byte>, c3: seq<byte> := [3, 1], [2, 2, 9, 3, 0], [1];
    assert Call([], c1, []) == Ok([3, 1], []);
    SecondChunk();
    assert Call([3, 0], c3, [[3, 1, 2], [2, 9]]) == Ok([], [[3, 1, 2], [2, 9], [3, 0, 1]]) by {
      assert c3[1..] == [] && c3[..1] == [1] && [3, 0] + [1] == [3, 0, 1];
    }
    assert [c1, c2, c3][1..] == [c2, c3] && [c2, c3][1..] == [c3] && [c3][1..] == [];
  }

  /** A turn of the loop that completes a packet. */
  lemma {:induction false} Turn(carried: seq<byte>, chunk: seq<byte>, delivered: seq<seq<byte>>, first: seq<byte>, rest: seq<byte>)
    requires |first| > 0 && 0 < first[0] < 0x80 && |first| == first[0] && |carried| < |first|
    requires carried + chunk == first + rest
    ensures Call(carried, chunk, delivered) == Loop([], 0, rest, delivered + [first])
  {
    hide Loop;
    var take := |first| - |carried|;
    assert (carried + chunk)[..|first|] == first && (carried + chunk)[|first|..] == rest;
    assert carried + chunk[..take] == first && chunk[take..] == rest;
    assert carried != [] ==> carried[0] == first[0];
    assert carried == [] ==> chunk[0] == first[0];
    LoopStep(carried, if carried != [] then SignedChar(carried[0]) else 0, chunk, delivered);
  }

  lemma {:induction false} SecondChunk()
    ensures Call([3, 1], [2, 2, 9, 3, 0], []) == Ok([3, 0], [[3, 1, 2], [2, 9]])
  {
    hide Loop;
    var rest: seq<byte> := [2, 9, 3, 0];
    assert [3, 1] + [2, 2, 9, 3, 0] == [3, 1, 2] + rest && [] + [[3, 1, 2]] == [[3, 1, 2]];
    Turn([3, 1], [2, 2, 9, 3, 0], [], [3, 1, 2], rest);
    assert [] + rest == [2, 9] + [3, 0] && [[3, 1, 2]] + [[2, 9]] == [[3, 1, 2], [2, 9]];
    Turn([], rest, [[3, 1, 2]], [2, 9], [3, 0]);
    Unfinished([[3, 1, 2], [2, 9]]);
  }

  lemma {:induction false} Unfinished(delivered: seq<seq<byte>>)
    ensures Loop([], 0, [3, 0], delivered) == Ok([3, 0], delivered)
  {
  }

  /** Without the condition: a packet of 128 bytes, whose first byte arrives alone. */
  lemma {:induction false} StraddlingPacketIsLost()
    ensures var packet := [0x80] + Zeros(127); var chunks := [[0x80], Zeros(127)];
      && Frames(Concat(chunks)) == [packet]
      && Run([], [packet], []) == Ok([], [packet])
      && Run([], chunks, []) == Ok(packet, [])
  {
    var packet: seq<byte> := [0x80] + Zeros(127);
    var chunks: seq<seq<byte>> := [[0x80], Zeros(127)];
    assert chunks[1..] == [Zeros(127)] && chunks[1..][1..] == [];
    assert Concat([Zeros(127)]) == Zeros(127) by { assert [Zeros(127)][1..] == []; }
    assert Concat(chunks) == packet;
    assert Complete(packet) && packet[..0x80] == packet && packet[0x80..] == [];
    assert Frames(packet) == [packet] + Frames([]);
    LoopFresh(packet, []);
    assert [packet][1..] == [];
    LoopFresh([0x80], []);
    assert Call([0x80], Zeros(127), []) == Ok([0x80] + Zeros(127), []);
  }

  /** And a size of zero, at the beginning of a packet, keeps a call from ending. */
  lemma {:induction false} ZeroSizeIsStuck(rest: seq<byte>, chunks: seq<seq<byte>>)
    ensures Run([], [[0] + rest] + chunks, []) == Stuck
  {
    assert Call([], [0] + rest, []) == Stuck;
    assert ([[0] + rest] + chunks)[0] == [0] + rest;
  }

  // ---------------------------------------------------------------------------------------------
  // The function itself, on its globals

  class Client {
    const packetBuf: array<byte>
    var prevPacketSize: nat
    var delivered: seq<seq<byte>>

    ghost predicate Valid()
      reads this
    {
      packetBuf.Length == MAX_BUFFER == 1024 && prevPacketSize <= MAX_BUFFER
    }

    ghost function Carried(): seq<byte>
      requires Valid()
      reads this, packetBuf
    {
      packetBuf[..prevPacketSize]
    }

    constructor ()
      ensures Valid() && fresh(packetBuf) && Carried() == [] && delivered == []
    {
      packetBuf := new byte[MAX_BUFFER];
      prevPacketSize, delivered := 0, [];
    }

    method CopyIn(at: nat, recv: array<byte>, ptr: nat, n: nat)
      requires at + n <= packetBuf.Length && ptr + n <= recv.Length && recv != packetBuf
      modifies packetBuf
      ensures packetBuf[..at] == old(packetBuf[..at]) && packetBuf[at..at + n] == recv[ptr..ptr + n]
    {
      forall i | 0 <= i < n {
        packetBuf[at + i] := recv[ptr + i];
      }
      ghost var to, from := packetBuf[at..at + n], recv[ptr..ptr + n];
      assert |to| == |from| && forall k :: 0 <= k < n ==> to[k] == from[k];
    }

    /** PacketProcess is the delivery of a packet. A turn that would be repeated for ever, or would write past
        the packet buffer, is not taken; the outcome says so. */
    method ReadPacket(recv: array<byte>, received: nat) returns (outcome: Outcome)
      requires Valid() && recv != packetBuf && received <= recv.Length
      modifies this, packetBuf
      ensures Valid()
      ensures outcome == Call(old(Carried()), recv[..received], old(delivered))
      ensures outcome.Ok? ==> outcome == Ok(Carried(), delivered)
    {
      hide Loop, Unsigned32;
      var ptr: nat, ioByte: nat := 0, received;
      assert recv[0..received] == recv[..received];
      var requiredSize: int := 0;
      if prevPacketSize != 0 {
        requiredSize := SignedChar(packetBuf[0]);
      }
      while ioByte != 0
        invariant Valid() && ptr + ioByte <= received && -0x80 <= requiredSize < 0x100
        invariant Loop(Carried(), requiredSize, recv[ptr..ptr + ioByte], delivered)
               == Call(old(Carried()), recv[..received], old(delivered))
        decreases ioByte, prevPacketSize
      {
        LoopStep(Carried(), requiredSize, recv[ptr..ptr + ioByte], delivered);
        if requiredSize == 0 {
          requiredSize := recv[ptr];
        }
        if ioByte + prevPacketSize >= Unsigned32(requiredSize) {
          if requiredSize < prevPacketSize {
            return Overrun;
          }
          if requiredSize == 0 {
            return Stuck;
          }
          TakePacket(recv, ptr, ioByte, requiredSize);
          var take := requiredSize - prevPacketSize;
          ptr := ptr + take;
          ioByte := ioByte - take;
          requiredSize := 0;
          prevPacketSize := 0;
          assert Carried() == [];
        } else {
          if prevPacketSize + ioByte > MAX_BUFFER {
            return Overrun;
          }
          StoreRest(recv, ptr, ioByte);
          ioByte := 0;
          assert recv[ptr..ptr + ioByte] == [];
        }
      }
      LoopEnd(Carried(), requiredSize, recv[ptr..ptr + ioByte], delivered);
      outcome := Ok(packetBuf[..prevPacketSize], delivered);
    }

    /** Keep the rest of the chunk for the next call. */
    method StoreRest(recv: array<byte>, ptr: nat, ioByte: nat)
      requires Valid() && recv != packetBuf && ptr + ioByte <= recv.Length
      requires prevPacketSize + ioByte <= MAX_BUFFER
      modifies this`prevPacketSize, packetBuf
      ensures Valid() && Carried() == old(Carried()) + recv[ptr..ptr + ioByte]
    {
      CopyIn(prevPacketSize, recv, ptr, ioByte);
      assert packetBuf[..prevPacketSize + ioByte] == Carried() + recv[ptr..ptr + ioByte];
      prevPacketSize := prevPacketSize + ioByte;
    }

    /** Complete the packet in the packet buffer, and process it. */
    method TakePacket(recv: array<byte>, ptr: nat, ioByte: nat, requiredSize: nat)
      requires Valid() && recv != packetBuf && ptr + ioByte <= recv.Length
      requires prevPacketSize <= requiredSize <= prevPacketSize + ioByte && requiredSize <= MAX_BUFFER
      modifies this`delivered, packetBuf
      ensures var take := requiredSize - prevPacketSize;
        && delivered == old(delivered) + [old(Carried()) + recv[ptr..ptr + ioByte][..take]]
        && recv[ptr..ptr + ioByte][take..] == recv[ptr + take..ptr + ioByte]
    {
      var take := requiredSize - prevPacketSize;
      CopyIn(prevPacketSize, recv, ptr, take);
      assert packetBuf[..requiredSize] == packetBuf[..prevPacketSize] + packetBuf[prevPacketSize..requiredSize];
      assert recv[ptr..ptr + take] == recv[ptr..ptr + ioByte][..take];
      delivered := delivered + [packetBuf[..requiredSize]];
    }
  }

  /** One turn of the loop. */
  lemma {:induction false} LoopStep(carried: seq<byte>, required: int, chunk: seq<byte>, delivered: seq<seq<byte>>)
    requires -0x80 <= required < 0x100 && chunk != []
    ensures var size: int := if required == 0 then chunk[0] else required;
      if |chunk| + |carried| >= Unsigned32(size) then
        if size < |carried| then Loop(carried, required, chunk, delivered) == Overrun
        else if size == 0 then Loop(carried, required, chunk, delivered) == Stuck
        else
          && size <= |carried| + |chunk|
          && Loop(carried, required, chunk, delivered)
             == Loop([], 0, chunk[size - |carried|..], delivered + [carried + chunk[..size - |carried|]])
      else if |carried| + |chunk| > MAX_BUFFER then Loop(carried, required, chunk, delivered) == Overrun
      else
        forall r :: -0x80 <= r < 0x100 ==>
          Loop(carried, required, chunk, delivered) == Loop(carried + chunk, r, [], delivered)
  {
  }

  lemma {:induction false} LoopEnd(carried: seq<byte>, required: int, chunk: seq<byte>, delivered: seq<seq<byte>>)
    requires -0x80 <= required < 0x100 && chunk == []
    ensures Loop(carried, required, chunk, delivered) == Ok(carried, delivered)
  {
  }
}
