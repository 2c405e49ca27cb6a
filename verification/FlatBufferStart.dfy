/** Finding the start of a buffer from its root table: the opposite of GetRoot. */
module FlatBufferStart {
  import opened Bytes
  import opened FlatReader
  import opened FlatSchema
  import opened FlatLayout
  import opened FlatCreate
  import opened FlatTable
  import opened FlatEndTable
  import opened FlatRun
  import opened FlatFinish

  /** FLATBUFFERS_MAX_ALIGNMENT / sizeof(uoffset_t) + 1. */
  const POSSIBLE_ROOTS: nat := 5

  /** Where the search begins: the root table or its vtable, whichever comes first, aligned down. The
      buffer itself lies at an address divisible by 4. */
  function SearchStart(root: int, vtable: int): int
  {
    AlignDown(if vtable < root then vtable else root)
  }

  function AlignDown(i: int): int
  {
    i - i % 4
  }

  /** The first of `n` words before `start` that leads to `root`. */
  function FindStart(b: seq<byte>, root: int, start: int, n: nat): Option<int>
    decreases n
  {
    if n == 0 then None
    else if U(b, start - 4, 4).Some? && U(b, start - 4, 4).value + (start - 4) == root then Some(start - 4)
    else FindStart(b, root, start - 4, n - 1)
  }

  /** The word at `s` leads to the root. */
  predicate Leads(b: seq<byte>, root: int, s: int)
  {
    U(b, s, 4).Some? && s + U(b, s, 4).value == root
  }

  /** A multiple of 4 bytes before `start`. */
  predicate WordBefore(start: int, q: int)
  {
    q < start && (start - q) % 4 == 0
  }

  lemma {:induction false} OneWordBack(start: int, q: int)
    ensures WordBefore(start, q) <==> q == start - 4 || WordBefore(start - 4, q)
  {
  }

  /** The nearest of the words in the `room` bytes before `start` that leads to the root, if there is one. */
  ghost predicate IsNearest(b: seq<byte>, root: int, start: int, room: nat, r: Option<int>)
  {
    match r
    case None => forall q :: start - room <= q && WordBefore(start, q) ==> !Leads(b, root, q)
    case Some(s) =>
      && start - room <= s && WordBefore(start, s) && Leads(b, root, s)
      && forall q :: s < q && WordBefore(start, q) ==> !Leads(b, root, q)
  }

  lemma {:induction false} NearestStep(b: seq<byte>, root: int, start: int, room: nat, r: Option<int>)
    requires IsNearest(b, root, start - 4, room, r) && !Leads(b, root, start - 4)
    ensures IsNearest(b, root, start, room + 4, r)
  {
    hide Leads, WordBefore;
    forall q
      ensures WordBefore(start, q) <==> q == start - 4 || WordBefore(start - 4, q)
    {
      OneWordBack(start, q);
    }
    WordsAreBefore(start - 4);
  }

  lemma {:induction false} WordsAreBefore(start: int)
    ensures forall q :: WordBefore(start, q) ==> q < start
  {
  }

  lemma {:induction false} NearestNow(b: seq<byte>, root: int, start: int, room: nat)
    requires Leads(b, root, start - 4)
    ensures IsNearest(b, root, start, room + 4, Some(start - 4))
  {
    hide Leads;
    WordsAreBefore(start);
  }

  /** The search ends at the nearest word that leads to the root, unless there is none. */
  lemma {:induction false} FindStartMeans(b: seq<byte>, root: int, start: int, n: nat)
    ensures IsNearest(b, root, start, 4 * n, FindStart(b, root, start, n))
    decreases n
  {
    hide U, IsNearest;
    if n == 0 {
      NoWords(b, root, start);
    } else if Leads(b, root, start - 4) {
      NearestNow(b, root, start, 4 * (n - 1));
    } else {
      FindStartMeans(b, root, start - 4, n - 1);
      NearestStep(b, root, start, 4 * (n - 1), FindStart(b, root, start - 4, n - 1));
    }
  }

  lemma {:induction false} NoWords(b: seq<byte>, root: int, start: int)
    ensures IsNearest(b, root, start, 0, None)
  {
    hide Leads;
  }

  /** Five words are searched, backwards from the table or its vtable, whichever is first. */
  lemma {:induction false} NearestOfFive(b: seq<byte>, root: int, vtable: int, start: int)
    requires start % 4 == 0 && start <= root && start <= vtable && (root < start + 4 || vtable < start + 4)
    ensures IsNearest(b, root, start, 20, FindStart(b, root, SearchStart(root, vtable), POSSIBLE_ROOTS))
  {
    hide FindStart, IsNearest;
    assert SearchStart(root, vtable) == start;
    FindStartMeans(b, root, start, 5);
  }

  method GetBufferStartFromRootPointer(b: seq<byte>, root: int) returns (r: Option<int>)
    requires VTableOf(b, root).Some?
    ensures r == FindStart(b, root, SearchStart(root, VTableOf(b, root).value), POSSIBLE_ROOTS)
  {
    hide U, VTableOf, AlignDown;
    var vtable := VTableOf(b, root).value;
    var start := if vtable < root then vtable else root;
    start := AlignDown(start);
    var possibleRoots: nat := POSSIBLE_ROOTS;
    ghost var found := FindStart(b, root, start, possibleRoots);
    while possibleRoots > 0
      invariant found == FindStart(b, root, start, possibleRoots)
      decreases possibleRoots
    {
      start := start - 4;
      var word := U(b, start, 4);
      if word.Some? && word.value + start == root {
        return Some(start);
      }
      possibleRoots := possibleRoots - 1;
    }
    return None;
  }

  lemma {:induction false} ZerosValue(n: nat)
    ensures FromLE(Zeros(n)) == 0
  {
    if n > 0 {
      ZerosValue(n - 1);
      assert Zeros(n)[1..] == Zeros(n - 1);
    }
  }

  lemma {:induction false} IdentifierValue(s: seq<byte>)
    requires |s| == 4 && forall k :: 0 <= k < 4 ==> s[k] != 0
    ensures FromLE(s) >= 0x0101_0101
  {
    assert FromLE(s[3..]) >= 1;
    assert s[2..][1..] == s[3..] && s[1..][1..] == s[2..];
    assert FromLE(s[2..]) >= 0x101;
    assert FromLE(s[1..]) >= 0x1_0101;
  }

  /** The word at the start of an identifier, behind anything. */
  lemma {:induction false} IdentifierWord(front: seq<byte>, id: seq<byte>, rest: seq<byte>)
    requires |id| == 4 && forall k :: 0 <= k < 4 ==> id[k] != 0
    ensures var r := U(front + (id + rest), |front|, 4);
      r.Some? && r.value >= 0x0101_0101
  {
    hide U;
    IdentifierValue(id);
    UShift(front, id + rest, 0, 4);
    assert (id + rest)[0..4] == id;
    UIsFromLE(id + rest, 0, id);
  }

  lemma {:induction false} PaddingWord(front: seq<byte>, pad: nat, rest: seq<byte>, i: nat)
    requires i + 4 <= pad
    ensures U(front + (Zeros(pad) + rest), |front| + i, 4) == Some(0)
  {
    hide U;
    ZerosValue(4);
    UShift(front, Zeros(pad) + rest, i, 4);
    assert (Zeros(pad) + rest)[i..i + 4] == Zeros(4);
    UIsFromLE(Zeros(pad) + rest, i, Zeros(4));
  }

  /** A word between the root offset and what was built first is the identifier or padding, and neither
      can be mistaken for an offset that leads to the root. */
  lemma {:induction false} NoImpersonation(
      bytes: seq<byte>, rootOff: nat, id: Option<seq<byte>>, pad: nat, b: seq<byte>, s: nat, root: nat)
    requires IsIdentifier(id) && rootOff <= |bytes| && b == FinishedBytes(bytes, rootOff, id, false, pad)
    requires s % 4 == 0 && 4 <= s && s + 4 <= |b| - |bytes| <= root < 0x1_0100
    ensures U(b, s, 4).Some? && U(b, s, 4).value + s != root
  {
    hide U, LE;
    var idb := if id.Some? then id.value else [];
    var head := LE(|idb| + pad + |bytes| + 4 - rootOff, 4);
    assert b == head + (idb + (Zeros(pad) + bytes));
    if id.Some? && s == 4 {
      IdentifierWord(head, idb, Zeros(pad) + bytes);
    } else {
      assert b == (head + idb) + (Zeros(pad) + bytes);
      PaddingWord(head + idb, pad, bytes, s - 4 - |idb|);
    }
  }

  lemma {:induction false} UIsFromLE(b: seq<byte>, i: nat, s: seq<byte>)
    requires i + |s| <= |b| && b[i..i + |s|] == s
    ensures U(b, i, |s|) == Some(FromLE(s))
  {
  }

  /** Stepping back word by word from inside the front part arrives at the root offset. */
  lemma {:induction false} StepBack(
      bytes: seq<byte>, rootOff: nat, id: Option<seq<byte>>, pad: nat, b: seq<byte>, start: nat, root: nat, n: nat)
    requires IsIdentifier(id) && rootOff <= |bytes| && b == FinishedBytes(bytes, rootOff, id, false, pad)
    requires |b| < 0x8000_0000 && root == |b| - rootOff
    requires start % 4 == 0 && 4 <= start <= |b| - |bytes| <= root < 0x1_0100
    requires start <= 4 * n
    ensures FindStart(b, root, start, n) == Some(0)
    decreases n
  {
    hide U;
    if start == 4 {
      FinishedReads(bytes, rootOff, id, false, pad, b);
    } else {
      assert (start - 4) % 4 == 0;
      NoImpersonation(bytes, rootOff, id, pad, b, start - 4, root);
      StepBack(bytes, rootOff, id, pad, b, start - 4, root, n - 1);
    }
  }

  /** The last object built is a table whose vtable lies in front of it or anywhere behind it; either
      way the table or the vtable is the first thing in what was built. */
  ghost predicate FirstThing(bytes: seq<byte>, t: nat)
  {
    && t <= |bytes| && VTableOf(bytes, |bytes| - t).Some?
    && var vt := VTableOf(bytes, |bytes| - t).value;
    && 0 <= vt && (if vt < |bytes| - t then vt == 0 else t == |bytes|)
    && |bytes| - t < 0x1_0000
  }

  lemma {:induction false} EndTableIsFirst(c: Conf, a: Abs, c': Conf)
    requires Inv(c, a) && a.open && Exec(c, CallEndTable) == Some(c')
    ensures |c'.offs| > 0 && FirstThing(c'.st.bytes, c'.offs[|c'.offs| - 1])
  {
    hide Extends, CanEnd, EndTable, NewVTable, SharedVTable, PreAlign, TableLoc, VTableOf, Pending,
         ObjsInPlace, PoolExact, SameVTable, VTableSize, U, DistinctIds;
    var (st', t) := EndTable(c.st, c.start);
    TableLocAligned(c.st, TableLoc(c.st));
    PendingSize(c, a);
    match SharedVTable(c.st, c.start)
    case Some(o) =>
      EndTableShared(c.st, c.start, st', t, o);
      SharedIsOlder(c.st, c.start, o);
    case None =>
      EndTableNew(c.st, c.start, st', t);
  }

  lemma {:induction false} SharedIsOlder(st: State, start: nat, o: nat)
    requires CanEnd(st, start) && SharedVTable(st, start) == Some(o)
    requires forall p :: p in st.vtables ==> p <= |st.bytes|
    ensures o <= |st.bytes|
  {
    hide CanEnd, PreAlign, SameVTable, NewVTable;
  }

  lemma {:induction false} PendingSize(c: Conf, a: Abs)
    requires Inv(c, a) && a.open
    ensures VTableSize(c.st) < 0x1_0000
  {
    VTableSizeEven(c.st);
  }

  /** GetBufferStartFromRootPointer inverts GetRoot on every buffer whose root was built last, with or
      without identifier, whatever the alignment, and wherever the vtable of the root is. */
  lemma {:induction false} BufferStartInvertsGetRoot(
      forceDefaults: bool, dedup: bool, steps: seq<Step>, c: Conf, a: Abs, c': Conf,
      id: Option<seq<byte>>, b: seq<byte>)
    requires LegalRun(ABS_INITIAL, steps) && Run(Fresh(forceDefaults, dedup), steps) == Some(c)
    requires a == AbsRun(ABS_INITIAL, steps) && Legal(a, CallEndTable) && Exec(c, CallEndTable) == Some(c')
    requires IsIdentifier(id) && IsAlign(c'.st.minalign) && |c'.offs| > 0
    requires c'.offs[|c'.offs| - 1] <= |c'.st.bytes|
    requires b == Finish(c'.st, c'.offs[|c'.offs| - 1], id, false).bytes && |b| < MAX_BUFFER_SIZE
    ensures GetRoot(b, 0).Some?
    ensures var root := GetRoot(b, 0).value;
      VTableOf(b, root).Some? &&
      FindStart(b, root, SearchStart(root, VTableOf(b, root).value), POSSIBLE_ROOTS) == Some(0)
  {
    hide Inv, Exec, Finish, VTableOf, GetRoot, Multiple, FinishedBytes, Extends, FindStart, Legal, U, Run,
         LegalRun, AbsRun, Fresh;
    FreshInv(forceDefaults, dedup);
    RunInv(Fresh(forceDefaults, dedup), ABS_INITIAL, steps, c);
    LegalEnd(a);
    EndTableIsFirst(c, a, c');
    StepInv(c, a, CallEndTable, c');
    var a' := AbsStep(a, CallEndTable);
    SameSizes(c', a');
    var h := |c'.offs| - 1;
    MinalignAtLeast4(c', a', h);
    var t, bytes := c'.offs[h], c'.st.bytes;
    var pad := PaddingBytes(|bytes| + 4 * (Words(false) + 1 + Words(id.Some?)), c'.st.minalign);
    FinishLayout(c'.st, t, id, false, Finish(c'.st, t, id, false), pad, |b|);
    FinishedExtends(bytes, t, id, false, pad);
    FinishedReads(bytes, t, id, false, pad, b);
    VTableOfShift(Prefix(b, bytes), bytes, |bytes| - t);
    var p := |b| - |bytes|;
    var root, start := |b| - t, p - p % 4;
    StepBack(bytes, t, id, pad, b, start, root, POSSIBLE_ROOTS);
    assert SearchStart(root, VTableOf(b, root).value) == start;
  }

  lemma {:induction false} LegalEnd(a: Abs)
    requires Legal(a, CallEndTable)
    ensures a.open
  {
  }
}
