/** A few buffers, byte for byte.

    The results about runs leave open which of several layouts that read the same is the one in use. These
    buffers are what the builder makes of a few small inputs: a TestInfo, three tables that share vtables,
    a vector of scalars and a vector of strings. */
module FlatExamples {
  import opened Bytes
  import opened FlatSchema
  import opened FlatLayout
  import opened FlatRun
  import opened TestInfo

  /** A scalar on a size that is aligned already. */
  lemma {:induction false} Pushed(st: State, v: nat, n: ScalarSize)
    requires |st.bytes| % n == 0
    ensures PushScalar(st, v, n) == st.(bytes := LE(v, n) + st.bytes, minalign := Max(st.minalign, n))
  {
    hide LE;
    NothingToPad(|st.bytes|, n);
    assert Zeros(0) + st.bytes == st.bytes;
  }

  lemma {:induction false} NothingToPad(size: nat, n: ScalarSize)
    requires size % n == 0
    ensures PaddingBytes(size, n) == 0
  {
  }

  lemma {:induction false} PushedRef(st: State, off: nat)
    requires |st.bytes| % 4 == 0 && off <= |st.bytes|
    ensures PushRef(st, off)
         == st.(bytes := LE(|st.bytes| - off + 4, 4) + st.bytes, minalign := Max(st.minalign, 4))
  {
    hide LE;
    NothingToPad(|st.bytes|, 4);
    assert Zeros(0) + st.bytes == st.bytes;
  }

  /** A string of one character, on an aligned size. */
  lemma {:induction false} OneCharacter(st: State, c: byte)
    requires |st.bytes| % 4 == 0
    ensures CreateString(st, [c])
         == (st.(bytes := [1, 0, 0, 0, c, 0, 0, 0] + st.bytes, minalign := Max(st.minalign, 4)), |st.bytes| + 8)
  {
    hide LE;
    SmallNumbers(1);
    TwoToPad(|st.bytes|);
    assert Zeros(2) == [0, 0];
    var st1 := Push(PreAlign(st, 2, 4), [c] + [0]);
    assert st1.bytes == [c, 0, 0, 0] + st.bytes;
    Pushed(st1, 1, 4);
    assert [1, 0, 0, 0] + ([c, 0, 0, 0] + st.bytes) == [1, 0, 0, 0, c, 0, 0, 0] + st.bytes;
  }

  lemma {:induction false} TwoToPad(size: nat)
    requires size % 4 == 0
    ensures PaddingBytes(size + 2, 4) == 2
  {
  }

  const INFO: seq<byte> := [
    12, 0, 0, 0,
    8, 0, 12, 0, 4, 0, 8, 0,
    8, 0, 0, 0, 8, 0, 0, 0, 7, 0, 0, 0,
    1, 0, 0, 0, 97, 0, 0, 0]

  /** The table of name "a" and level 7, before its vtable. */
  lemma {:induction false} InfoFields(st: State, st2: State)
    requires st == INITIAL.(bytes := [1, 0, 0, 0, 97, 0, 0, 0], minalign := 4, nested := true)
    requires st2 == AddOffset(AddScalar(st, 6, 4, 7, 0), 4, 8)
    ensures st2 == st.(bytes := [8, 0, 0, 0, 7, 0, 0, 0, 1, 0, 0, 0, 97, 0, 0, 0],
                       fields := [FieldLoc(12, 6), FieldLoc(16, 4)], maxVoffset := 6)
  {
    hide LE, PreAlign;
    SmallNumbers(7);
    SmallNumbers(8);
    Pushed(st, 7, 4);
    var st1 := AddScalar(st, 6, 4, 7, 0);
    assert st1.bytes == [7, 0, 0, 0, 1, 0, 0, 0, 97, 0, 0, 0];
    PushedRef(st1, 8);
    assert st2.bytes == [8, 0, 0, 0] + st1.bytes;
    assert st2.fields == [FieldLoc(12, 6)] + [FieldLoc(16, 4)];
  }

  lemma {:induction false} InfoVTable(st: State)
    requires st.fields == [FieldLoc(12, 6), FieldLoc(16, 4)]
    ensures VTableBytes(st.fields, 20, 8, 8) == [8, 0, 12, 0, 4, 0, 8, 0]
  {
    hide LE;
    SmallNumbers(4);
    SmallNumbers(8);
    SmallNumbers(12);
    var fs := st.fields;
    assert fs[1..] == [FieldLoc(16, 4)];
    assert Slot(fs, 20, 4) == 4 && Slot(fs, 20, 6) == 8;
    assert Slots(fs, 20, 8, 8) == [];
    assert Slots(fs, 20, 6, 8) == [8, 0] + [];
    assert Slots(fs, 20, 4, 8) == [4, 0] + [8, 0];
  }

  /** EndTable, by the bytes before it, the padding included, and the vtable. */
  lemma {:induction false} Ended(st: State, start: nat, p: seq<byte>, vt: seq<byte>, found: Option<nat>)
    requires CanEnd(st, start) && 4 <= st.minalign && st.dedup
    requires p == Zeros(PaddingBytes(|st.bytes|, 4)) + st.bytes
    requires vt == VTableBytes(st.fields, |p| + 4, start, VTableSize(st)) && found == FindVTable(p, st.vtables, vt)
    ensures found.Some? ==> FitsSigned(found.value - (|p| + 4), 4)
    ensures EndTable(st, start) == (
      st.(bytes := match found
                   case Some(o) => LE(TwosComplement(o - (|p| + 4), 4), 4) + p
                   case None => (vt + LE(|vt|, 4)) + p,
          vtables := match found
                     case Some(_) => st.vtables
                     case None => st.vtables + [|p| + 4 + |vt|],
          fields := [], maxVoffset := 0, nested := false),
      |p| + 4)
  {
    hide LE, VTableBytes, FindVTable, PaddingBytes;
    assert Pow256(4) == 0x1_0000_0000;
    assert PreAlign(st, 0, 4) == st.(bytes := p);
  }

  lemma {:induction false} InfoEnds(st: State)
    requires st == INITIAL.(bytes := [8, 0, 0, 0, 7, 0, 0, 0, 1, 0, 0, 0, 97, 0, 0, 0], minalign := 4, nested := true,
                            fields := [FieldLoc(12, 6), FieldLoc(16, 4)], maxVoffset := 6)
    ensures CanEnd(st, 8)
    ensures EndTable(st, 8) == (INITIAL.(bytes := INFO[4..], minalign := 4, vtables := [28]), 20)
  {
    hide LE, VTableBytes, EndTable, PaddingBytes, FindVTable;
    var b, vt := st.bytes, [8, 0, 12, 0, 4, 0, 8, 0];
    NothingToPad(16, 4);
    NoPadding(b);
    InfoVTable(st);
    NoneRemembered(b, vt);
    Ended(st, 8, b, vt, None);
    InfoBytes(b, vt);
    One(28);
  }

  lemma {:induction false} InfoBytes(b: seq<byte>, vt: seq<byte>)
    requires b == [8, 0, 0, 0, 7, 0, 0, 0, 1, 0, 0, 0, 97, 0, 0, 0] && vt == [8, 0, 12, 0, 4, 0, 8, 0]
    ensures (vt + LE(8, 4)) + b == INFO[4..]
  {
    hide LE;
    SmallNumbers(8);
  }

  lemma {:induction false} NoPadding(b: seq<byte>)
    ensures Zeros(0) + b == b
  {
  }

  lemma {:induction false} NoneRemembered(b: seq<byte>, vt: seq<byte>)
    ensures FindVTable(b, [], vt) == None
  {
  }

  lemma {:induction false} One(x: nat)
    ensures [] + [x] == [x]
  {
  }

  /** TestInfo of name "a" and level 7, as a new builder makes it: the root offset; a vtable of 8 bytes, for a
      table of 12, with the name at 4 and the level at 8; the table; the string. */
  lemma {:induction false} InfoExample(c: Conf)
    requires Run(Fresh(false, true), Calls(Some([97]), 7)) == Some(c)
    ensures |c.offs| == 2 && IsAlign(c.st.minalign) && c.offs[1] <= |c.st.bytes|
    ensures Finish(c.st, c.offs[1], None, false).bytes == INFO
  {
    hide CreateString, AddScalar, AddOffset, EndTable, LE, CanEnd, PreAlign;
    var add, rest := CallAddElement(6, 4, 7, 0), [CallAddOffset(4, 0), CallEndTable];
    var calls := [CallString([97]), CallStartTable] + ([add] + rest);
    assert Calls(Some([97]), 7) == calls;
    var c2 := Conf(INITIAL.(bytes := [1, 0, 0, 0, 97, 0, 0, 0], minalign := 4, nested := true), [8], 8);
    InfoStarts([add] + rest, c2);
    InfoAdded(c2, c);
    InfoFinish(c.st);
  }

  lemma {:induction false} InfoStarts(rest: seq<Step>, c2: Conf)
    requires c2 == Conf(INITIAL.(bytes := [1, 0, 0, 0, 97, 0, 0, 0], minalign := 4, nested := true), [8], 8)
    ensures Run(Fresh(false, true), [CallString([97]), CallStartTable] + rest) == Run(c2, rest)
  {
    hide CreateString, LE, Run;
    OneCharacter(INITIAL, 97);
    assert [1, 0, 0, 0, 97, 0, 0, 0] + [] == [1, 0, 0, 0, 97, 0, 0, 0];
    var c1 := c2.(st := c2.st.(nested := false), start := 0);
    assert [] + [8] == [8];
    assert [CallString([97]), CallStartTable] + rest == [CallString([97])] + ([CallStartTable] + rest);
    Then(Fresh(false, true), CallString([97]), c1, [CallStartTable] + rest);
    Then(c1, CallStartTable, c2, rest);
  }

  lemma {:induction false} Then(c: Conf, call: Step, c1: Conf, rest: seq<Step>)
    requires Exec(c, call) == Some(c1)
    ensures Run(c, [call] + rest) == Run(c1, rest)
  {
    hide Exec;
    assert ([call] + rest)[1..] == rest;
  }

  lemma {:induction false} InfoAdded(c2: Conf, c: Conf)
    requires c2 == Conf(INITIAL.(bytes := [1, 0, 0, 0, 97, 0, 0, 0], minalign := 4, nested := true), [8], 8)
    requires Run(c2, [CallAddElement(6, 4, 7, 0)] + [CallAddOffset(4, 0), CallEndTable]) == Some(c)
    ensures c.st == INITIAL.(bytes := INFO[4..], minalign := 4, vtables := [28]) && c.offs == [8, 20]
  {
    hide AddScalar, AddOffset, EndTable, LE, CanEnd, PreAlign;
    var calls := [CallAddElement(6, 4, 7, 0)] + [CallAddOffset(4, 0), CallEndTable];
    Unfold(c2, calls);
    var c3 := Exec(c2, calls[0]).value;
    Unfold(c3, calls[1..]);
    var c4 := Exec(c3, CallAddOffset(4, 0)).value;
    InfoFields(c2.st, c4.st);
    Unfold(c4, calls[1..][1..]);
    InfoEnds(c4.st);
    assert [8] + [20] == [8, 20];
  }

  lemma {:induction false} Unfold(c: Conf, calls: seq<Step>)
    requires calls != [] && Run(c, calls).Some?
    ensures Exec(c, calls[0]).Some? && Run(Exec(c, calls[0]).value, calls[1..]) == Run(c, calls)
  {
    hide Exec;
  }

  lemma {:induction false} InfoFinish(st: State)
    requires st == INITIAL.(bytes := INFO[4..], minalign := 4, vtables := [28])
    ensures Finish(st, 20, None, false).bytes == INFO
  {
    hide LE;
    SmallNumbers(12);
    NothingToPad(32, 4);
    NothingToPad(28, 4);
    assert Zeros(0) + st.bytes == st.bytes;
    InfoWhole();
  }

  lemma {:induction false} InfoWhole()
    ensures [12, 0, 0, 0] + INFO[4..] == INFO
  {
    assert INFO[..4] == [12, 0, 0, 0];
  }

  // ---------------------------------------------------------------------------------------------
  // Three tables of one field, the third with the vtable of the second

  const ONE: seq<byte> := [6, 0, 8, 0, 4, 0, 6, 0, 0, 0, 1, 0, 0, 0]
  const TWO: seq<byte> := [6, 0, 10, 0, 4, 0, 6, 0, 0, 0, 2, 0, 0, 0, 0, 0] + ONE
  const THREE: seq<byte> := [246, 255, 255, 255, 3, 0, 0, 0, 0, 0] + TWO

  /** The fields of a table of one field with value `v`, in slot 4, on a size that takes `pad` bytes to align. */
  lemma {:induction false} OneField(st: State, v: nat, pad: nat)
    requires st.minalign <= 4 && st.fields == [] && st.maxVoffset == 0 && 0 < v < 0x100
    requires PaddingBytes(|st.bytes|, 4) == pad
    ensures AddScalar(st, 4, 4, v, 0)
         == st.(minalign := 4, bytes := [v, 0, 0, 0] + (Zeros(pad) + st.bytes), fields := [FieldLoc(|st.bytes| + pad + 4, 4)],
                maxVoffset := 4)
  {
    hide LE, PaddingBytes;
    SmallNumbers(v);
    assert [] + [FieldLoc(|st.bytes| + pad + 4, 4)] == [FieldLoc(|st.bytes| + pad + 4, 4)];
  }

  lemma {:induction false} OneSlot(off: nat, t: nat, start: nat)
    requires t == off + 4 && start <= t && t - start < 0x100
    ensures VTableBytes([FieldLoc(off, 4)], t, start, 6) == [6, 0, t - start, 0, 4, 0]
  {
    hide LE;
    SmallNumbers(4);
    SmallNumbers(6);
    SmallNumbers(t - start);
    var fs := [FieldLoc(off, 4)];
    assert Slots(fs, t, 6, 6) == [];
    assert Slots(fs, t, 4, 6) == [4, 0] + [];
  }

  lemma {:induction false} FirstOfThree(st: State, st': State, t: nat)
    requires st == INITIAL.(bytes := [1, 0, 0, 0], minalign := 4, nested := true, fields := [FieldLoc(4, 4)], maxVoffset := 4)
    requires CanEnd(st, 0) && (st', t) == EndTable(st, 0)
    ensures st' == INITIAL.(bytes := ONE, minalign := 4, vtables := [14]) && t == 8
  {
    hide LE, VTableBytes, EndTable, PaddingBytes, FindVTable;
    var b, vt := st.bytes, [6, 0, 8, 0, 4, 0];
    NothingToPad(4, 4);
    NoPadding(b);
    OneSlot(4, 8, 0);
    NoneRemembered(b, vt);
    Ended(st, 0, b, vt, None);
    LinkedBytes(b, vt);
    One(14);
    assert [6, 0, 8, 0, 4, 0, 6, 0, 0, 0] + b == ONE;
  }

  lemma {:induction false} LinkedBytes(b: seq<byte>, vt: seq<byte>)
    requires |vt| == 6
    ensures (vt + LE(6, 4)) + b == (vt + [6, 0, 0, 0]) + b
  {
    hide LE;
    SmallNumbers(6);
  }

  /** The second table has two bytes of padding in it, and so another vtable. */
  lemma {:induction false} SecondOfThree(st: State, st': State, t: nat)
    requires st == INITIAL.(bytes := [2, 0, 0, 0, 0, 0] + ONE, minalign := 4, vtables := [14], nested := true,
                            fields := [FieldLoc(20, 4)], maxVoffset := 4)
    requires CanEnd(st, 14) && (st', t) == EndTable(st, 14)
    ensures st' == INITIAL.(bytes := TWO, minalign := 4, vtables := [14, 30]) && t == 24
  {
    hide LE, VTableBytes, EndTable, PaddingBytes, FindVTable;
    var b, vt := st.bytes, [6, 0, 10, 0, 4, 0];
    NothingToPad(20, 4);
    NoPadding(b);
    OneSlot(20, 24, 14);
    OtherVTable(b, vt);
    Ended(st, 14, b, vt, None);
    LinkedBytes(b, vt);
    TwoBytes(b, vt);
    assert [14] + [30] == [14, 30];
  }

  lemma {:induction false} TwoBytes(b: seq<byte>, vt: seq<byte>)
    requires b == [2, 0, 0, 0, 0, 0] + ONE && vt == [6, 0, 10, 0, 4, 0]
    ensures (vt + [6, 0, 0, 0]) + b == TWO
  {
  }

  lemma {:induction false} OtherVTable(b: seq<byte>, vt: seq<byte>)
    requires b == [2, 0, 0, 0, 0, 0] + ONE && vt == [6, 0, 10, 0, 4, 0]
    ensures FindVTable(b, [14], vt) == None
  {
    assert b[6..12][2] == 8 && vt[2] == 10;
    assert !SameVTable(b, 14, vt);
    assert [14][1..] == [];
  }

  /** The third has its link only: 10 back, in two's complement. */
  lemma {:induction false} ThirdOfThree(st: State, st': State, t: nat)
    requires st == INITIAL.(bytes := [3, 0, 0, 0, 0, 0] + TWO, minalign := 4, vtables := [14, 30], nested := true,
                            fields := [FieldLoc(36, 4)], maxVoffset := 4)
    requires CanEnd(st, 30) && (st', t) == EndTable(st, 30)
    ensures st' == INITIAL.(bytes := THREE, minalign := 4, vtables := [14, 30]) && t == 40
  {
    hide LE, VTableBytes, EndTable, PaddingBytes, FindVTable, TwosComplement;
    var b, vt := st.bytes, [6, 0, 10, 0, 4, 0];
    NothingToPad(36, 4);
    NoPadding(b);
    OneSlot(36, 40, 30);
    SameAsSecond(b, vt);
    Ended(st, 30, b, vt, Some(30));
    MinusTen();
    ThreeBytes(b);
  }

  lemma {:induction false} ThreeBytes(b: seq<byte>)
    requires b == [3, 0, 0, 0, 0, 0] + TWO
    ensures [246, 255, 255, 255] + b == THREE
  {
  }

  lemma {:induction false} SameAsSecond(b: seq<byte>, vt: seq<byte>)
    requires b == [3, 0, 0, 0, 0, 0] + TWO && vt == [6, 0, 10, 0, 4, 0]
    ensures FindVTable(b, [14, 30], vt) == Some(30)
  {
    assert b[22..28][2] == 8 && vt[2] == 10;
    assert !SameVTable(b, 14, vt);
    assert b[6..12] == vt;
    assert b[6..8] == [6, 0] && FromLE([6, 0]) == 6 by {
      assert [6 as byte, 0][1..] == [0] && [0 as byte][1..] == [];
    }
    assert SameVTable(b, 30, vt);
    assert [14, 30][1..] == [30];
  }

  lemma {:induction false} MinusTen()
    ensures FitsSigned(-10, 4) && LE(TwosComplement(-10, 4), 4) == [246, 255, 255, 255]
  {
    assert Pow256(4) == 0x1_0000_0000;
    var v: nat := 0xFFFF_FFF6;
    assert TwosComplement(-10, 4) == v;
    assert v % 0x100 == 246 && v / 0x100 == 0xFF_FFFF;
    assert LE(0xFF, 1) == [255] + LE(0, 0) && LE(0xFFFF, 2) == [255] + LE(0xFF, 1);
    assert LE(0xFF_FFFF, 3) == [255] + LE(0xFFFF, 2);
  }

  function TableCalls(v: nat): seq<Step>
  {
    [CallStartTable, CallAddElement(4, 4, v, 0), CallEndTable]
  }

  /** One more table: the state before it, what the field adds, and what the end adds. */
  lemma {:induction false} OneTable(c: Conf, v: nat, pad: nat, rest: seq<Step>) returns (st1: State)
    requires !c.st.nested && c.st.fields == [] && c.st.maxVoffset == 0 && c.st.minalign <= 4 && 0 < v < 0x100
    requires PaddingBytes(|c.st.bytes|, 4) == pad && Run(c, TableCalls(v) + rest).Some?
    ensures st1 == c.st.(nested := true, minalign := 4, bytes := [v, 0, 0, 0] + (Zeros(pad) + c.st.bytes),
                         fields := [FieldLoc(|c.st.bytes| + pad + 4, 4)], maxVoffset := 4)
    ensures CanEnd(st1, |c.st.bytes|)
    ensures var (st', t) := EndTable(st1, |c.st.bytes|);
      Run(c, TableCalls(v) + rest) == Run(Conf(st', c.offs + [t], |c.st.bytes|), rest)
  {
    hide AddScalar, EndTable, CanEnd, PaddingBytes;
    var calls := TableCalls(v) + rest;
    Unfold(c, calls);
    var c1 := Exec(c, CallStartTable).value;
    Unfold(c1, calls[1..]);
    OneField(c1.st, v, pad);
    var c2 := Exec(c1, CallAddElement(4, 4, v, 0)).value;
    st1 := c2.st;
    Unfold(c2, calls[1..][1..]);
    assert calls[1..][1..][1..] == rest;
  }

  lemma {:induction false} TableOne(c: Conf, rest: seq<Step>)
    requires c == Fresh(false, true) && Run(c, TableCalls(1) + rest).Some?
    ensures Run(c, TableCalls(1) + rest)
         == Run(Conf(INITIAL.(bytes := ONE, minalign := 4, vtables := [14]), [8], 0), rest)
  {
    hide EndTable, CanEnd, TableCalls, PaddingBytes, Run;
    NothingToPad(0, 4);
    var st := OneTable(c, 1, 0, rest);
    assert [1, 0, 0, 0] + (Zeros(0) + []) == [1, 0, 0, 0];
    FirstOfThree(st, EndTable(st, 0).0, EndTable(st, 0).1);
    One(8);
  }

  lemma {:induction false} TableTwo(c: Conf, rest: seq<Step>)
    requires c.st == INITIAL.(bytes := ONE, minalign := 4, vtables := [14]) && c.offs == [8]
    requires Run(c, TableCalls(2) + rest).Some?
    ensures Run(c, TableCalls(2) + rest)
         == Run(Conf(INITIAL.(bytes := TWO, minalign := 4, vtables := [14, 30]), [8, 24], 14), rest)
  {
    hide EndTable, CanEnd, TableCalls, PaddingBytes, Run;
    PadTwo(14);
    var st := OneTable(c, 2, 2, rest);
    assert [2, 0, 0, 0] + (Zeros(2) + ONE) == [2, 0, 0, 0, 0, 0] + ONE;
    SecondOfThree(st, EndTable(st, 14).0, EndTable(st, 14).1);
    assert [8] + [24] == [8, 24];
  }

  lemma {:induction false} TableThree(c: Conf, rest: seq<Step>)
    requires c.st == INITIAL.(bytes := TWO, minalign := 4, vtables := [14, 30]) && c.offs == [8, 24]
    requires Run(c, TableCalls(3) + rest).Some?
    ensures Run(c, TableCalls(3) + rest)
         == Run(Conf(INITIAL.(bytes := THREE, minalign := 4, vtables := [14, 30]), [8, 24, 40], 30), rest)
  {
    hide EndTable, CanEnd, TableCalls, PaddingBytes, Run;
    PadTwo(30);
    var st := OneTable(c, 3, 2, rest);
    assert [3, 0, 0, 0] + (Zeros(2) + TWO) == [3, 0, 0, 0, 0, 0] + TWO;
    ThirdOfThree(st, EndTable(st, 30).0, EndTable(st, 30).1);
    assert [8, 24] + [40] == [8, 24, 40];
  }

  /** The whole run on a new builder: what the three leave. */
  lemma {:induction false} ThreeTablesExample(c: Conf)
    requires Run(Fresh(false, true), TableCalls(1) + (TableCalls(2) + (TableCalls(3) + []))) == Some(c)
    ensures c.st.bytes == THREE && c.offs == [8, 24, 40]
  {
    hide Exec, TableCalls, Fresh;
    TableOne(Fresh(false, true), TableCalls(2) + (TableCalls(3) + []));
    TableTwo(Conf(INITIAL.(bytes := ONE, minalign := 4, vtables := [14]), [8], 0), TableCalls(3) + []);
    TableThree(Conf(INITIAL.(bytes := TWO, minalign := 4, vtables := [14, 30]), [8, 24], 14), []);
  }

  lemma {:induction false} PadTwo(size: nat)
    requires size == 14 || size == 30
    ensures PaddingBytes(size, 4) == 2
  {
  }

  // ---------------------------------------------------------------------------------------------
  // Vectors

  lemma {:induction false} ThreeElements()
    ensures Elems([1, 258, 3], 2) == [1, 0, 2, 1, 3, 0]
  {
    SmallNumbers(1);
    SmallNumbers(3);
    assert LE(258, 2) == [2] + LE(1, 1);
    assert [1, 258, 3][1..] == [258, 3] && [258, 3][1..] == [3] && [3][1..] == [];
    assert Elems([3], 2) == LE(3, 2) + [];
    assert Elems([258, 3], 2) == LE(258, 2) + Elems([3], 2);
    assert Elems([1, 258, 3], 2) == LE(1, 2) + Elems([258, 3], 2);
  }

  /** Three numbers of two bytes: the length, the numbers in order, the padding. */
  lemma {:induction false} ScalarVectorExample()
    ensures CreateScalars(INITIAL, 2, [1, 258, 3]).0.bytes == [3, 0, 0, 0, 1, 0, 2, 1, 3, 0, 0, 0]
  {
    hide LE, Elems, PaddingBytes;
    SmallNumbers(3);
    ThreeElements();
    var e: seq<byte> := [1, 0, 2, 1, 3, 0];
    SixNeedsTwo();
    var p0 := PreAlign(INITIAL, 6, 4);
    assert p0.bytes == Zeros(2) + [] == [0, 0];
    NothingToPad(8, 2);
    NoPadding(p0.bytes);
    var p := PreAlign(p0, 6, 2);
    var st1 := Push(p, e);
    assert st1.bytes == e + [0, 0];
    Pushed(st1, 3, 4);
    assert [3, 0, 0, 0] + st1.bytes == [3, 0, 0, 0, 1, 0, 2, 1, 3, 0, 0, 0];
  }

  lemma {:induction false} SixNeedsTwo()
    ensures PaddingBytes(6, 4) == 2
  {
  }

  const STRINGS: seq<byte> := [1, 0, 0, 0, 98, 0, 0, 0, 1, 0, 0, 0, 97, 0, 0, 0]

  /** The vector of "a" and "b", "a" having been written first. */
  lemma {:induction false} OffsetVectorExample()
    ensures CreateOffsets(INITIAL.(bytes := STRINGS, minalign := 4), [8, 16]).0.bytes
         == [2, 0, 0, 0, 16, 0, 0, 0, 4, 0, 0, 0] + STRINGS
  {
    hide LE;
    SmallNumbers(2);
    SmallNumbers(4);
    SmallNumbers(16);
    var st := INITIAL.(bytes := STRINGS, minalign := 4);
    NothingToPad(24, 4);
    assert Zeros(0) + STRINGS == STRINGS;
    assert PreAlign(st, 8, 4) == st;
    assert [8, 16][1..] == [16] && [16][1..] == [];
    PushedRef(st, 16);
    var st1 := PushRef(st, 16);
    assert PushRefs(st, [16]) == st1;
    PushedRef(st1, 8);
    var st2 := PushRef(st1, 8);
    assert PushRefs(st, [8, 16]) == st2;
    Pushed(st2, 2, 4);
    assert st2.bytes == [16, 0, 0, 0] + ([4, 0, 0, 0] + STRINGS);
    assert [2, 0, 0, 0] + st2.bytes == [2, 0, 0, 0, 16, 0, 0, 0, 4, 0, 0, 0] + STRINGS;
  }
}
