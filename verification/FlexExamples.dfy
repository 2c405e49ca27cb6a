/** A few FlexBuffers, byte for byte.

    As for FlatBuffers, a round trip leaves open which of several layouts is in use. These buffers are what
    the builder makes of a map, of a vector whose elements need four bytes, and of a pair of numbers: order
    of the parts, padding, widths and type bytes. */
module FlexExamples {
  import opened Bytes
  import opened StringOrder
  import opened FlexWidth
  import opened FlexReader
  import opened FlexLayout
  import opened FlexMachine
  import opened Sorting

  lemma {:induction false} OneByteFits(size: nat, target: nat, index: nat)
    requires target <= size && size + index - target < 0x100 && Addressable(size, index)
    ensures LeastFit(size, target, index, 0) == 0
  {
    assert Pow256(1) == 0x100;
  }

  lemma {:induction false} NothingToPad(size: nat)
    ensures PaddingBytes(size, 1) == 0
  {
  }

  /** An element of one byte. */
  lemma {:induction false} WrittenByte(b: seq<byte>, v: Value, x: byte)
    requires Writable(v, |b|) && x == if IsInline(v.ty) then v.u else |b| - v.u
    ensures WriteAny(b, v, 1) == b + [x]
  {
    SmallNumbers(x);
  }

  lemma {:induction false} StillWritable(v: Value, size: nat)
    requires Writable(v, size)
    ensures Writable(v, size + 1)
  {
  }

  /** Two elements that fit one byte each. */
  lemma {:induction false} TwoWritten(b: seq<byte>, v1: Value, v2: Value, x1: byte, x2: byte)
    requires AllWritable([v1, v2], |b|)
    requires x1 == if IsInline(v1.ty) then v1.u else |b| - v1.u
    requires x2 == if IsInline(v2.ty) then v2.u else |b| + 1 - v2.u
    ensures WriteElems(b, [v1, v2], 1) == b + [x1, x2]
  {
    hide Writable, WriteAny;
    var b1 := b + [x1];
    assert Writable([v1, v2][0], |b|) && Writable([v1, v2][1], |b|);
    StillWritable(v2, |b|);
    WrittenByte(b, v1, x1);
    WrittenByte(b1, v2, x2);
    assert [v1, v2][1..] == [v2] && [v2][1..] == [];
    assert WriteElems(b1, [v2], 1) == WriteElems(b1 + [x2], [], 1);
    assert b1 + [x2] == b + [x1, x2];
  }

  lemma {:induction false} WidestOfTwo(v1: Value, v2: Value, size: nat, index: nat, step: nat)
    requires AllPlaced([v1, v2], size) && Addressable(size, index + step * 2)
    requires Placed(v1, size) && Placed(v2, size) && Addressable(size, index) && Addressable(size, index + step)
    ensures MaxWidth([v1, v2], size, index, step)
         == MaxW(ElemWidthOf(v1, size, index), ElemWidthOf(v2, size, index + step))
  {
    hide ElemWidthOf, Placed, Addressable;
    var vs := [v1, v2];
    assert vs[1..] == [v2] && [v2][1..] == [];
    assert Placed([v2][0], size);
    assert MaxWidth([v2], size, index + step, step) == MaxW(ElemWidthOf(v2, size, index + step), 0);
  }

  /** A map with the keys "b" and "a", added in this order: the keys are sorted, the key vector comes
      first, and the map itself starts with the way back to it and its width. */
  lemma {:induction false} KeyVector()
    ensures var b: seq<byte>, e := [98, 0, 97, 0], Elements([Value(2, 4, 0), Value(0, 4, 0)], 1, 2, None);
      && ElementsOk(e, 4) && ElementType(e.vs) == 4
      && CreateVector(b, e, Typed, 0) == ([98, 0, 97, 0, 2, 3, 6], Value(5, 14, 0))
  {
    var b: seq<byte>, e := [98, 0, 97, 0], Elements([Value(2, 4, 0), Value(0, 4, 0)], 1, 2, None);
    assert VectorWidth(e, 4, 0) == 0 by {
      WidestOfTwo(Value(2, 4, 0), Value(0, 4, 0), 4, 1, 2);
      OneByteFits(4, 2, 1);
      OneByteFits(4, 0, 3);
    }
    var head: seq<byte> := [98, 0, 97, 0, 2];
    assert VectorHead(b, e, Typed, 0) == head by {
      NothingToPad(4);
      SmallNumbers(2);
      assert Zeros(0) == [];
    }
    TwoWritten(head, Value(2, 4, 0), Value(0, 4, 0), 3, 6);
    assert head + [3, 6] == [98, 0, 97, 0, 2, 3, 6];
  }

  /** The values of the map, behind the way back to its keys and their width. */
  function MapValues(): Elements
  {
    Elements([Value(7, 1, 0), Value(8, 1, 0)], 4, 2, Some(Value(5, 14, 0)))
  }

  lemma {:induction false} MapWidth()
    ensures ElementsOk(MapValues(), 7) && VectorWidth(MapValues(), 7, 0) == 0
  {
    WidestOfTwo(Value(7, 1, 0), Value(8, 1, 0), 7, 4, 2);
    OneByteFits(7, 5, 0);
  }

  lemma {:induction false} MapHead()
    ensures ElementsOk(MapValues(), 7)
    ensures VectorHead([98, 0, 97, 0, 2, 3, 6], MapValues(), Untyped, 0) == [98, 0, 97, 0, 2, 3, 6, 2, 1, 2]
  {
    hide LE;
    var b: seq<byte> := [98, 0, 97, 0, 2, 3, 6];
    NothingToPad(7);
    SmallNumbers(2);
    SmallNumbers(1);
    assert b + Zeros(0) == b;
    assert b + [2] + [1] + [2] == [98, 0, 97, 0, 2, 3, 6, 2, 1, 2];
  }

  lemma {:induction false} MapVector()
    ensures ElementsOk(MapValues(), 7)
    ensures CreateVector([98, 0, 97, 0, 2, 3, 6], MapValues(), Untyped, 0)
         == ([98, 0, 97, 0, 2, 3, 6, 2, 1, 2, 7, 8, 4, 4], Value(10, 9, 0))
  {
    hide VectorWidth, VectorHead, WriteElems, LE, ElementsOk;
    MapWidth();
    MapHead();
    var head: seq<byte> := [98, 0, 97, 0, 2, 3, 6, 2, 1, 2];
    TwoWritten(head, Value(7, 1, 0), Value(8, 1, 0), 7, 8);
    assert Types(MapValues().vs, 0) == [4, 4];
    assert head + [7, 8] + [4, 4] == [98, 0, 97, 0, 2, 3, 6, 2, 1, 2, 7, 8, 4, 4];
  }

  lemma {:induction false} KeyOfOneCharacter(b: seq<byte>, i: nat)
    requires i + 2 <= |b| && b[i] != 0 && b[i + 1] == 0
    ensures CString(b, i) == Some([b[i]])
  {
    assert CString(b, i + 1) == Some([]);
    assert [b[i]] + [] == [b[i]];
  }

  lemma {:induction false} AIsLess()
    ensures Order(LexLess, [[98], [97]], 2) == [1, 0]
  {
    var ks: seq<seq<byte>> := [[98], [97]];
    assert Order(LexLess, ks, 0) == [];
    assert Order(LexLess, ks, 1) == [0];
  }

  lemma {:induction false} MapCreated()
    ensures CreateMap([98, 0, 97, 0], 0, [Value(2, 4, 0), Value(0, 4, 0)], [Value(7, 1, 0), Value(8, 1, 0)], 0)
         == Some(([98, 0, 97, 0, 2, 3, 6, 2, 1, 2, 7, 8, 4, 4], Value(10, 9, 0)))
  {
    hide CreateVector, ElementsOk;
    KeyVector();
    MapVector();
  }

  /** The stack before EndMap: two keys and two numbers in turn. */
  const ENTRIES: seq<Value> := [Value(0, 4, 0), Value(8, 1, 0), Value(2, 4, 0), Value(7, 1, 0)]

  lemma {:induction false} MapEnded(c: Conf)
    requires c == Conf([98, 0, 97, 0], ENTRIES, [], [], 0, Flags(false, false))
    ensures EndMap(c, 0)
         == Some(c.(buf := [98, 0, 97, 0, 2, 3, 6, 2, 1, 2, 7, 8, 4, 4], stack := [Value(10, 9, 0)]))
  {
    hide CreateMap, CString, Order;
    MapCreated();
    KeyOfOneCharacter(c.buf, 0);
    KeyOfOneCharacter(c.buf, 2);
    AIsLess();
    assert c.stack[0..] == c.stack;
    assert Evens(c.stack) == [Value(0, 4, 0), Value(2, 4, 0)];
    assert Odds(c.stack) == [Value(8, 1, 0), Value(7, 1, 0)];
    assert KeyStrings(c.buf, Evens(c.stack)) == [[98], [97]];
    assert Pick(Evens(c.stack), [1, 0]) == [Value(2, 4, 0), Value(0, 4, 0)];
    assert Pick(Odds(c.stack), [1, 0]) == [Value(7, 1, 0), Value(8, 1, 0)];
    assert c.stack[..0] + [Value(10, 9, 0)] == [Value(10, 9, 0)];
  }

  lemma {:induction false} Then(c: Conf, call: Call, c1: Conf, rest: seq<Call>)
    requires Exec(c, call) == Some(c1)
    ensures Run(c, [call] + rest) == Run(c1, rest)
  {
    hide Exec;
    assert ([call] + rest)[1..] == rest;
  }

  lemma {:induction false} KeyAdded(c: Conf, x: byte)
    requires !c.flags.shareKeys
    ensures Exec(c, CallKey([x])) == Some(c.(buf := c.buf + [x, 0], stack := c.stack + [Value(|c.buf|, 4, 0)]))
  {
    assert c.buf + [x] + [0] == c.buf + [x, 0];
  }

  /** A key and a small number. */
  lemma {:induction false} EntryAdded(c: Conf, x: byte, i: int, rest: seq<Call>)
    requires !c.flags.shareKeys && 0 <= i < 0x80
    ensures Run(c, [CallKey([x])] + ([CallInt(i)] + rest))
         == Run(c.(buf := c.buf + [x, 0], stack := c.stack + [Value(|c.buf|, 4, 0), Value(i, 1, 0)]), rest)
  {
    hide AddKey, Run;
    KeyAdded(c, x);
    var c1 := c.(buf := c.buf + [x, 0], stack := c.stack + [Value(|c.buf|, 4, 0)]);
    var c2 := c.(buf := c.buf + [x, 0], stack := c.stack + [Value(|c.buf|, 4, 0), Value(i, 1, 0)]);
    assert c1.stack + [Value(i, 1, 0)] == c2.stack;
    Then(c, CallKey([x]), c1, [CallInt(i)] + rest);
    Then(c1, CallInt(i), c2, rest);
  }

  lemma {:induction false} MapRun()
    ensures Run(Fresh(Flags(false, false)), [CallKey([98]), CallInt(8), CallKey([97]), CallInt(7), CallEndMap(0)])
         == Some(Conf([98, 0, 97, 0, 2, 3, 6, 2, 1, 2, 7, 8, 4, 4], [Value(10, 9, 0)], [], [], 0, Flags(false, false)))
  {
    hide Exec, AddKey;
    var f, end := Flags(false, false), [CallEndMap(0)];
    var c1 := Conf([98, 0], [Value(0, 4, 0), Value(8, 1, 0)], [], [], 0, f);
    var c2 := Conf([98, 0, 97, 0], ENTRIES, [], [], 0, f);
    var more := [CallKey([97])] + ([CallInt(7)] + end);
    EntryAdded(Fresh(f), 98, 8, more);
    assert [] + [98, 0] == [98, 0] && [] + [Value(0, 4, 0), Value(8, 1, 0)] == c1.stack;
    EntryAdded(c1, 97, 7, end);
    assert c1.buf + [97, 0] == c2.buf && c1.stack + [Value(2, 4, 0), Value(7, 1, 0)] == c2.stack;
    assert [CallKey([98])] + ([CallInt(8)] + more)
        == [CallKey([98]), CallInt(8), CallKey([97]), CallInt(7), CallEndMap(0)];
    EndsMap(c2);
  }

  lemma {:induction false} EndsMap(c: Conf)
    requires c == Conf([98, 0, 97, 0], ENTRIES, [], [], 0, Flags(false, false))
    ensures Run(c, [CallEndMap(0)])
         == Some(c.(buf := [98, 0, 97, 0, 2, 3, 6, 2, 1, 2, 7, 8, 4, 4], stack := [Value(10, 9, 0)]))
  {
    hide EndMap, Run;
    MapEnded(c);
    Then(c, CallEndMap(0), EndMap(c, 0).value, []);
    assert [CallEndMap(0)] + [] == [CallEndMap(0)];
    NoMore(EndMap(c, 0).value);
  }

  lemma {:induction false} NoMore(c: Conf)
    ensures Run(c, []) == Some(c)
  {
  }

  /** A root whose offset takes one byte. */
  lemma {:induction false} SmallRoot(b: seq<byte>, v: Value, fin: seq<byte>)
    requires !IsInline(v.ty) && 0 <= v.u <= |b| && |b| - v.u < 0x100 && Addressable(|b|, 0)
    requires Writable(v, |b|) && fin == Finish(b, v)
    ensures fin == b + [|b| - v.u] + [v.minWidth + 4 * v.ty] + [1]
  {
    hide LE;
    OneByteFits(|b|, v.u, 0);
    NothingToPad(|b|);
    assert b + Zeros(0) == b;
    SmallNumbers(|b| - v.u);
  }

  /** {"b": 8, "a": 7}: the keys as they came, the vector of the sorted keys, then offset and width of
      that vector, size, values and types of the map, and last the root. */
  lemma {:induction false} MapExample(c: Conf)
    requires Run(Fresh(Flags(false, false)), [CallKey([98]), CallInt(8), CallKey([97]), CallInt(7), CallEndMap(0)])
          == Some(c)
    ensures |c.stack| == 1 && Writable(c.stack[0], |c.buf|) && Addressable(|c.buf|, 0)
    ensures Finish(c.buf, c.stack[0]) == [98, 0, 97, 0, 2, 3, 6, 2, 1, 2, 7, 8, 4, 4, 4, 36, 1]
  {
    hide Run, Finish;
    MapRun();
    SmallRoot(c.buf, c.stack[0], Finish(c.buf, c.stack[0]));
  }

  // ---------------------------------------------------------------------------------------------
  // ["h", 70000]: the number takes four bytes, so everything in the vector does

  lemma {:induction false} FourBytes()
    ensures LE(70000, 4) == [112, 17, 1, 0]
  {
    assert LE(70000, 4) == [112] + LE(273, 3) && LE(273, 3) == [17] + LE(1, 2);
    SmallNumbers(1);
  }

  const MIXED: Elements := Elements([Value(1, 5, 0), Value(70000, 1, 2)], 1, 1, None)

  lemma {:induction false} MixedWidth()
    ensures ElementsOk(MIXED, 3) && VectorWidth(MIXED, 3, 0) == 2
  {
    WidestOfTwo(Value(1, 5, 0), Value(70000, 1, 2), 3, 1, 1);
    OneByteFits(3, 1, 1);
  }

  lemma {:induction false} MixedHead()
    ensures ElementsOk(MIXED, 3) && VectorHead([1, 104, 0], MIXED, Untyped, 2) == [1, 104, 0, 0, 2, 0, 0, 0]
  {
    hide LE;
    var b: seq<byte> := [1, 104, 0];
    SmallNumbers(2);
    assert PaddingBytes(3, 4) == 1 && Zeros(1) == [0];
    assert b + [0] + [2, 0, 0, 0] == [1, 104, 0, 0, 2, 0, 0, 0];
  }

  lemma {:induction false} MixedElements()
    ensures AllWritable(MIXED.vs, 8)
    ensures WriteElems([1, 104, 0, 0, 2, 0, 0, 0], MIXED.vs, 4)
         == [1, 104, 0, 0, 2, 0, 0, 0, 7, 0, 0, 0, 112, 17, 1, 0]
  {
    hide LE;
    FourBytes();
    SmallNumbers(7);
    var b: seq<byte>, b1: seq<byte> := [1, 104, 0, 0, 2, 0, 0, 0], [1, 104, 0, 0, 2, 0, 0, 0, 7, 0, 0, 0];
    assert WriteAny(b, Value(1, 5, 0), 4) == b1;
    assert MIXED.vs[1..] == [Value(70000, 1, 2)] && MIXED.vs[1..][1..] == [];
    assert WriteElems(b1, [Value(70000, 1, 2)], 4) == WriteElems(b1 + [112, 17, 1, 0], [], 4);
    assert b1 + [112, 17, 1, 0] == [1, 104, 0, 0, 2, 0, 0, 0, 7, 0, 0, 0, 112, 17, 1, 0];
  }

  lemma {:induction false} MixedVector()
    ensures ElementsOk(MIXED, 3)
    ensures CreateVector([1, 104, 0], MIXED, Untyped, 0)
         == ([1, 104, 0, 0, 2, 0, 0, 0, 7, 0, 0, 0, 112, 17, 1, 0, 20, 6], Value(8, 10, 2))
  {
    hide VectorWidth, VectorHead, WriteElems, ElementsOk;
    MixedWidth();
    MixedHead();
    MixedElements();
    assert Types(MIXED.vs, 2) == [20, 6];
    assert [1, 104, 0, 0, 2, 0, 0, 0, 7, 0, 0, 0, 112, 17, 1, 0] + [20, 6]
        == [1, 104, 0, 0, 2, 0, 0, 0, 7, 0, 0, 0, 112, 17, 1, 0, 20, 6];
  }

  lemma {:induction false} MixedRun()
    ensures Run(Fresh(Flags(false, false)), [CallString([104]), CallInt(70000), CallEndVector(0, Untyped)])
         == Some(Conf([1, 104, 0, 0, 2, 0, 0, 0, 7, 0, 0, 0, 112, 17, 1, 0, 20, 6], [Value(8, 10, 2)],
                      [], [], 0, Flags(false, false)))
  {
    hide CreateVector, ElementsOk, Run, LE;
    var f, end := Flags(false, false), [CallEndVector(0, Untyped)];
    var c1 := Conf([1, 104, 0], [Value(1, 5, 0)], [], [], 0, f);
    var c2 := c1.(stack := MIXED.vs);
    OneCharacter(Fresh(f));
    Then(Fresh(f), CallString([104]), c1, [CallInt(70000)] + end);
    assert c1.stack + [Value(70000, 1, 2)] == c2.stack;
    Then(c1, CallInt(70000), c2, end);
    assert [CallString([104])] + ([CallInt(70000)] + end)
        == [CallString([104]), CallInt(70000), CallEndVector(0, Untyped)];
    MixedEnds(c2);
  }

  lemma {:induction false} OneCharacter(c: Conf)
    requires c == Fresh(Flags(false, false))
    ensures Exec(c, CallString([104])) == Some(c.(buf := [1, 104, 0], stack := [Value(1, 5, 0)]))
  {
    hide LE;
    SmallNumbers(1);
    NothingToPad(0);
    var b: seq<byte> := [];
    assert Align(b, 0) == [];
    assert Write(b, 1, 1) == [1];
    assert [1] + [104] + [0] == [1, 104, 0];
    assert CreateBlob(b, [104], [0], 5) == ([1, 104, 0], Value(1, 5, 0));
    assert c.stack + [Value(1, 5, 0)] == [Value(1, 5, 0)];
  }

  lemma {:induction false} MixedEnds(c: Conf)
    requires c == Conf([1, 104, 0], MIXED.vs, [], [], 0, Flags(false, false))
    ensures Run(c, [CallEndVector(0, Untyped)])
         == Some(c.(buf := [1, 104, 0, 0, 2, 0, 0, 0, 7, 0, 0, 0, 112, 17, 1, 0, 20, 6],
                    stack := [Value(8, 10, 2)]))
  {
    hide Run, ElementsOk, CreateVector;
    MixedVector();
    assert c.stack[0..] == c.stack && c.stack[..0] + [Value(8, 10, 2)] == [Value(8, 10, 2)];
    var c' := c.(buf := [1, 104, 0, 0, 2, 0, 0, 0, 7, 0, 0, 0, 112, 17, 1, 0, 20, 6],
                 stack := [Value(8, 10, 2)]);
    Then(c, CallEndVector(0, Untyped), c', []);
    assert [CallEndVector(0, Untyped)] + [] == [CallEndVector(0, Untyped)];
    NoMore(c');
  }

  /** ["h", 70000]: the string, padding, the size, the way back to the string and the number in four
      bytes each, and a type for each. */
  lemma {:induction false} MixedExample(c: Conf)
    requires Run(Fresh(Flags(false, false)), [CallString([104]), CallInt(70000), CallEndVector(0, Untyped)])
          == Some(c)
    ensures |c.stack| == 1 && Writable(c.stack[0], |c.buf|) && Addressable(|c.buf|, 0)
    ensures Finish(c.buf, c.stack[0])
         == [1, 104, 0, 0, 2, 0, 0, 0, 7, 0, 0, 0, 112, 17, 1, 0, 20, 6, 10, 42, 1]
  {
    hide Run, Finish;
    MixedRun();
    SmallRoot(c.buf, c.stack[0], Finish(c.buf, c.stack[0]));
  }

  const PAIR: Elements := Elements([Value(1, 2, 0), Value(2, 2, 0)], 1, 1, None)

  lemma {:induction false} PairWidth()
    ensures ElementsOk(PAIR, 0) && VectorWidth(PAIR, 0, 0) == 0 && VectorHead([], PAIR, Fixed, 0) == []
  {
    WidestOfTwo(Value(1, 2, 0), Value(2, 2, 0), 0, 1, 1);
    NothingToPad(0);
    assert Zeros(0) == [];
  }

  /** A pair of small numbers: neither size nor types. */
  lemma {:induction false} PairExample()
    ensures ElementsOk(PAIR, 0) && CreateVector([], PAIR, Fixed, 0) == ([1, 2], Value(0, 17, 0))
    ensures Writable(Value(0, 17, 0), 2) && Addressable(2, 0)
    ensures Finish([1, 2], Value(0, 17, 0)) == [1, 2, 2, 68, 1]
  {
    hide VectorWidth, VectorHead, WriteElems, ElementsOk, Finish;
    PairWidth();
    TwoWritten([], Value(1, 2, 0), Value(2, 2, 0), 1, 2);
    assert [] + [1, 2] == [1, 2];
    SmallRoot([1, 2], Value(0, 17, 0), Finish([1, 2], Value(0, 17, 0)));
    assert [1, 2] + [2] + [68] + [1] == [1, 2, 2, 68, 1];
  }
}
