/** Sorted vectors of tables: the order they are brought into, and the search for a key. */
module FlatSorted {
  import opened Bytes
  import opened StringOrder
  import opened Sorting
  import opened FlatReader
  import opened FlatSchema
  import opened FlatLayout
  import opened FlatCreate
  import BinarySearch
  import FlexPool

  /** The key field of a table: an integer of 64 bits with default 0, or a required string. */
  datatype KeyField = IntField(id: FieldId) | StringField(id: FieldId)

  datatype Key = IntKey(i: int) | StringKey(s: seq<byte>)

  /** The key of the table at `t`. */
  function KeyOf(b: seq<byte>, t: int, f: KeyField): Option<Key>
  {
    match f
    case IntField(id) =>
      var v :- GetField(b, t, id, 8, 0);
      Some(IntKey(Signed(v, 8)))
    case StringField(id) =>
      var p :- GetPointer(b, t, id);
      if p.Null? then None
      else
        var s :- GetString(b, p.pos);
        Some(StringKey(s))
  }

  /** KeyCompareLessThan: the order the tables are sorted by. (Keys of different kinds do not meet.) */
  predicate KeyLess(a: Key, b: Key)
  {
    match (a, b)
    case (IntKey(i), IntKey(j)) => i < j
    case (StringKey(s), StringKey(t)) => StringLessThan(s, t)
    case (IntKey(_), StringKey(_)) => true
    case (StringKey(_), IntKey(_)) => false
  }

  function Sign(c: bool, d: bool): int
  {
    (if c then 1 else 0) - (if d then 1 else 0)
  }

  /** KeyCompareWithValue: integers by comparison, strings by strcmp, which stops at a NUL. */
  function CompareWithValue(a: Key, v: Key): int
  {
    match (a, v)
    case (IntKey(i), IntKey(j)) => Sign(i > j, i < j)
    case (StringKey(s), StringKey(t)) =>
      Sign(LexLess(FlexPool.Cut(t), FlexPool.Cut(s)), LexLess(FlexPool.Cut(s), FlexPool.Cut(t)))
    case (IntKey(_), StringKey(_)) => -1
    case (StringKey(_), IntKey(_)) => 1
  }

  lemma {:induction false} KeyLessIsStrictTotalOrder()
    ensures StrictTotalOrder(KeyLess)
  {
    forall a, b, c
      ensures !KeyLess(a, a)
      ensures KeyLess(a, b) || KeyLess(b, a) || a == b
      ensures KeyLess(a, b) && KeyLess(b, c) ==> KeyLess(a, c)
    {
      if a.StringKey? {
        StringLessThanIsStrictTotalOrder(a.s, a.s, a.s);
        if b.StringKey? {
          StringLessThanIsStrictTotalOrder(a.s, b.s, b.s);
          if c.StringKey? {
            StringLessThanIsStrictTotalOrder(a.s, b.s, c.s);
          }
        }
      }
    }
  }

  /** What the order is: integers by value, strings by the first byte they differ in. */
  lemma {:induction false} KeyLessMeans(a: Key, b: Key)
    ensures a.IntKey? && b.IntKey? ==> (KeyLess(a, b) <==> a.i < b.i)
    ensures a.StringKey? && b.StringKey? ==> (KeyLess(a, b) <==> exists n: nat :: Parts(a.s, b.s, n))
  {
    hide Parts, LexLess, StringLessThan;
    if a.StringKey? && b.StringKey? {
      StringLessThanIsLexLess(a.s, b.s);
      LexLessMeans(a.s, b.s);
    }
  }

  // ---------------------------------------------------------------------------------------------
  // The vector

  /** Every table has a key. */
  predicate HaveKeys(b: seq<byte>, offs: seq<nat>, f: KeyField)
  {
    forall i :: 0 <= i < |offs| ==> KeyOf(b, |b| - offs[i], f).Some?
  }

  function Keys(b: seq<byte>, offs: seq<nat>, f: KeyField): (r: seq<Key>)
    requires HaveKeys(b, offs, f)
    ensures |r| == |offs| && forall i :: 0 <= i < |r| ==> KeyOf(b, |b| - offs[i], f) == Some(r[i])
  {
    seq(|offs|, i requires 0 <= i < |offs| => KeyOf(b, |b| - offs[i], f).value)
  }

  function SortedOffsets(b: seq<byte>, offs: seq<nat>, f: KeyField): (r: seq<nat>)
    requires HaveKeys(b, offs, f)
    ensures |r| == |offs|
  {
    Pick(offs, Order(KeyLess, Keys(b, offs, f), |offs|))
  }

  /** CreateVectorOfSortedTables. */
  function CreateSortedTables(st: State, offs: seq<nat>, f: KeyField): (r: (State, nat))
    requires HaveKeys(st.bytes, offs, f) && forall k :: 0 <= k < |offs| ==> offs[k] <= |st.bytes|
  {
    CreateOffsets(st, SortedOffsets(st.bytes, offs, f))
  }

  /** The vector at `v` refers to tables with these keys, in this order. */
  ghost predicate VectorKeys(b: seq<byte>, v: int, f: KeyField, keys: seq<Key>)
  {
    && VecSize(b, v) == Some(|keys|)
    && forall i :: 0 <= i < |keys| ==> ElementKey(b, v, f, i) == Some(keys[i])
  }

  function ElementKey(b: seq<byte>, v: int, f: KeyField, i: nat): Option<Key>
  {
    var t :- VecGetRef(b, v, i);
    KeyOf(b, t, f)
  }

  lemma {:induction false} KeyOfShift(p: seq<byte>, b: seq<byte>, t: int, f: KeyField)
    requires KeyOf(b, t, f).Some?
    ensures KeyOf(p + b, |p| + t, f) == KeyOf(b, t, f)
  {
    hide GetField, GetPointer, GetString;
    match f
    case IntField(id) => GetFieldShift(p, b, t, id, 8, 0);
    case StringField(id) =>
      GetPointerShift(p, b, t, id);
      GetStringShift(p, b, GetPointer(b, t, id).value.pos);
  }

  lemma {:induction false} ElementKeyShift(p: seq<byte>, b: seq<byte>, v: nat, f: KeyField, i: nat)
    requires ElementKey(b, v, f, i).Some?
    ensures ElementKey(p + b, |p| + v, f, i) == ElementKey(b, v, f, i)
  {
    hide KeyOf, U;
    UShift(p, b, v + 4 + 4 * i, 4);
    KeyOfShift(p, b, VecGetRef(b, v, i).value, f);
  }

  /** However the buffer grows, the vector keeps its keys. */
  lemma {:induction false} VectorKeysShift(p: seq<byte>, b: seq<byte>, v: nat, f: KeyField, keys: seq<Key>)
    requires VectorKeys(b, v, f, keys)
    ensures VectorKeys(p + b, |p| + v, f, keys)
  {
    hide ElementKey, U;
    UShift(p, b, v, 4);
    forall i | 0 <= i < |keys|
      ensures ElementKey(p + b, |p| + v, f, i) == Some(keys[i])
    {
      ElementKeyShift(p, b, v, f, i);
    }
  }

  /** One of the `n` elements of the vector at `v` refers to `target`. */
  predicate RefersTo(b: seq<byte>, v: int, n: nat, target: int)
  {
    exists i :: 0 <= i < n && VecGetRef(b, v, i) == Some(target)
  }

  /** The vector of sorted tables holds the same tables, in strictly ascending order of their keys. */
  lemma {:induction false} CreateSortedTablesSorts(
      st: State, offs: seq<nat>, f: KeyField, st': State, o: nat) returns (keys: seq<Key>)
    requires HaveKeys(st.bytes, offs, f) && forall k :: 0 <= k < |offs| ==> offs[k] <= |st.bytes|
    requires Distinct(Keys(st.bytes, offs, f))
    requires (st', o) == CreateSortedTables(st, offs, f) && |st'.bytes| < 0x8000_0000
    ensures o == |st'.bytes| && VectorKeys(st'.bytes, 0, f, keys) && StrictlySorted(KeyLess, keys)
    ensures forall k :: k in Keys(st.bytes, offs, f) <==> k in keys
    ensures |keys| == |offs| && forall x :: 0 <= x < |offs| ==> RefersTo(st'.bytes, 0, |offs|, |st'.bytes| - offs[x])
  {
    hide CreateOffsets, KeyOf, U, LE, StrictTotalOrder, KeyLess, StrictlySorted, Distinct, VecGetRef, Multiple;
    var ks := Keys(st.bytes, offs, f);
    var order := Order(KeyLess, ks, |ks|);
    var sorted := Pick(offs, order);
    keys := Pick(ks, order);
    KeyLessIsStrictTotalOrder();
    OrderSorts(KeyLess, ks, |ks|);
    CreateOffsetsLayout(st, sorted, st', o);
    assert st'.bytes == Prefix(st'.bytes, st.bytes) + st.bytes;
    forall i | 0 <= i < |keys|
      ensures ElementKey(st'.bytes, 0, f, i) == Some(keys[i])
    {
      KeyOfShift(Prefix(st'.bytes, st.bytes), st.bytes, |st.bytes| - sorted[i], f);
    }
    SameKeys(ks);
    forall x | 0 <= x < |offs|
      ensures RefersTo(st'.bytes, 0, |offs|, |st'.bytes| - offs[x])
    {
      var i := OrderIsOnto(KeyLess, ks, x);
      assert sorted[i] == offs[x];
    }
  }

  lemma {:induction false} SameKeys(ks: seq<Key>)
    ensures forall k :: k in ks <==> k in Pick(ks, Order(KeyLess, ks, |ks|))
  {
    hide KeyLess, Order;
    var order := Order(KeyLess, ks, |ks|);
    forall k | k in ks
      ensures k in Pick(ks, order)
    {
      var x :| 0 <= x < |ks| && ks[x] == k;
      var i := OrderIsOnto(KeyLess, ks, x);
      assert Pick(ks, order)[i] == k;
    }
  }

  // ---------------------------------------------------------------------------------------------
  // The search

  lemma {:induction false} CutMonotone(s: seq<byte>, t: seq<byte>)
    requires LexLess(s, t)
    ensures FlexPool.Cut(s) == FlexPool.Cut(t) || LexLess(FlexPool.Cut(s), FlexPool.Cut(t))
  {
    if s != [] && s[0] == t[0] && s[0] != 0 {
      CutMonotone(s[1..], t[1..]);
      FlexPool.CutOrder(s, t);
    }
  }

  /** The order of the sort and the negated comparison of the search describe the same order: what
      compares as less stays less further on. Strings the sort tells apart only behind a NUL compare
      as equal, next to each other. */
  lemma {:induction false} CompareAscends(a: Key, b: Key, v: Key)
    requires KeyLess(a, b)
    ensures -CompareWithValue(a, v) < 0 ==> -CompareWithValue(b, v) < 0
    ensures -CompareWithValue(b, v) > 0 ==> -CompareWithValue(a, v) > 0
  {
    hide LexLess, FlexPool.Cut;
    if a.StringKey? && b.StringKey? && v.StringKey? {
      StringLessThanIsLexLess(a.s, b.s);
      CutMonotone(a.s, b.s);
      var x, y, z := FlexPool.Cut(a.s), FlexPool.Cut(b.s), FlexPool.Cut(v.s);
      OrderOfThree(x, y, z);
    }
  }

  lemma {:induction false} OrderOfThree(x: seq<byte>, y: seq<byte>, z: seq<byte>)
    requires x == y || LexLess(x, y)
    ensures LexLess(z, x) ==> LexLess(z, y) && !LexLess(y, z)
    ensures LexLess(y, z) ==> LexLess(x, z) && !LexLess(z, x)
    ensures !(LexLess(x, z) && LexLess(z, x)) && !(LexLess(y, z) && LexLess(z, y))
  {
    hide LexLess;
    LexLessTrichotomy(x, z);
    LexLessTrichotomy(y, z);
    if LexLess(z, x) && x != y {
      LexLessTransitive(z, x, y);
    }
    if LexLess(y, z) && x != y {
      LexLessTransitive(x, y, z);
    }
  }

  /** Vector::LookupByKey. */
  method LookupByKey(b: seq<byte>, v: int, f: KeyField, key: Key, ghost keys: seq<Key>)
    returns (r: Option<int>, ghost at: nat)
    requires VectorKeys(b, v, f, keys) && StrictlySorted(KeyLess, keys)
    ensures r.Some? ==> at < |keys| && VecGetRef(b, v, at) == r && CompareWithValue(keys[at], key) == 0
    ensures r.None? ==> forall i :: 0 <= i < |keys| ==> CompareWithValue(keys[i], key) != 0
  {
    hide U, KeyOf, CompareWithValue, KeyLess, VecGetRef;
    var size := VecSize(b, v).value;
    var cmp := (i: nat) => match ElementKey(b, v, f, i) case None => 0 case Some(k) => -CompareWithValue(k, key);
    forall i: nat, j: nat | i < j < size
      ensures (cmp(i) < 0 ==> cmp(j) < 0) && (cmp(j) > 0 ==> cmp(i) > 0)
    {
      CompareAscends(keys[i], keys[j], key);
    }
    at := 0;
    var found := BinarySearch.Search(size, cmp);
    match found
    case None =>
      forall i | 0 <= i < |keys|
        ensures CompareWithValue(keys[i], key) != 0
      {
        assert cmp(i) != 0;
      }
      return None, 0;
    case Some(i) =>
      assert ElementKey(b, v, f, i) == Some(keys[i]);
      return VecGetRef(b, v, i), i;
  }

  /** An integer key, and a string key without NUL, compares as equal to itself only. */
  lemma {:induction false} CompareIsEquality(a: Key, v: Key)
    requires a.StringKey? ==> FlexPool.NulFree(a.s)
    requires v.StringKey? ==> FlexPool.NulFree(v.s)
    ensures CompareWithValue(a, v) == 0 <==> a == v
  {
    hide LexLess, FlexPool.Cut, FlexPool.NulFree;
    if a.StringKey? && v.StringKey? {
      FlexPool.CutIsIdentityIffNulFree(a.s);
      FlexPool.CutIsIdentityIffNulFree(v.s);
      LexLessTrichotomy(a.s, v.s);
    }
  }

  predicate WithoutNul(k: Key)
  {
    k.StringKey? ==> FlexPool.NulFree(k.s)
  }

  /** Both together: on the vector CreateVectorOfSortedTables made, in whatever has become of the buffer since,
      LookupByKey finds a table with the key if and only if one of the tables has it. */
  method LookupAfterCreate(st: State, offs: seq<nat>, f: KeyField, later: seq<byte>, key: Key)
    returns (b: seq<byte>, r: Option<int>)
    requires HaveKeys(st.bytes, offs, f) && forall k :: 0 <= k < |offs| ==> offs[k] <= |st.bytes|
    requires Distinct(Keys(st.bytes, offs, f)) && |CreateSortedTables(st, offs, f).0.bytes| < 0x8000_0000
    requires WithoutNul(key) && forall k :: k in Keys(st.bytes, offs, f) ==> WithoutNul(k)
    ensures b == later + CreateSortedTables(st, offs, f).0.bytes
    ensures r.Some? <==> key in Keys(st.bytes, offs, f)
    ensures r.Some? ==> KeyOf(b, r.value, f) == Some(key)
  {
    hide CreateSortedTables, KeyOf, KeyLess, StrictlySorted, Distinct, CompareWithValue, VecGetRef, U, FlexPool.NulFree;
    var (st', o) := CreateSortedTables(st, offs, f);
    ghost var keys := CreateSortedTablesSorts(st, offs, f, st', o);
    b := later + st'.bytes;
    VectorKeysShift(later, st'.bytes, 0, f, keys);
    assert |later| + 0 == |later|;
    ghost var at;
    r, at := LookupByKey(b, |later|, f, key, keys);
    forall i | 0 <= i < |keys|
      ensures CompareWithValue(keys[i], key) == 0 <==> keys[i] == key
    {
      assert keys[i] in keys;
      CompareIsEquality(keys[i], key);
    }
    if r.Some? {
      assert ElementKey(b, |later|, f, at) == Some(keys[at]);
    }
  }

  /** What the search looks for, against what a linear search for an equal key would. A caller passes a
      C string, so the value has no NUL. */
  predicate Found(keys: seq<Key>, v: Key)
  {
    exists i :: 0 <= i < |keys| && CompareWithValue(keys[i], v) == 0
  }

  /** The search agrees with linear search for every value if and only if each string key up to its
      first NUL is itself a key. Keys without NUL satisfy this. */
  lemma {:induction false} SearchAgreesIff(keys: seq<Key>)
    requires forall i :: 0 <= i < |keys| ==> keys[i].StringKey?
    ensures (forall s :: FlexPool.NulFree(s) ==> (Found(keys, StringKey(s)) <==> StringKey(s) in keys))
       <==> (forall i :: 0 <= i < |keys| ==> StringKey(FlexPool.Cut(keys[i].s)) in keys)
  {
    hide LexLess, FlexPool.Cut, FlexPool.NulFree, CompareWithValue;
    if forall s :: FlexPool.NulFree(s) ==> (Found(keys, StringKey(s)) <==> StringKey(s) in keys) {
      forall i | 0 <= i < |keys|
        ensures StringKey(FlexPool.Cut(keys[i].s)) in keys
      {
        var c := FlexPool.Cut(keys[i].s);
        FlexPool.CutIsNulFree(keys[i].s);
        CompareWithCut(keys[i].s, c);
        assert Found(keys, StringKey(c));
      }
    }
    if forall i :: 0 <= i < |keys| ==> StringKey(FlexPool.Cut(keys[i].s)) in keys {
      forall s | FlexPool.NulFree(s)
        ensures Found(keys, StringKey(s)) <==> StringKey(s) in keys
      {
        if Found(keys, StringKey(s)) {
          var i :| 0 <= i < |keys| && CompareWithValue(keys[i], StringKey(s)) == 0;
          CompareWithCut(keys[i].s, s);
        }
        if StringKey(s) in keys {
          var i :| 0 <= i < |keys| && keys[i] == StringKey(s);
          CompareIsEquality(keys[i], StringKey(s));
          assert Found(keys, StringKey(s));
        }
      }
    }
  }

  /** A key with a NUL inside is found under the name of what comes before it. */
  lemma {:induction false} SearchExample()
    ensures var keys := [StringKey([97, 0, 98])]; Found(keys, StringKey([97])) && StringKey([97]) !in keys
  {
    var s: seq<byte> := [97, 0, 98];
    assert s[1..] == [0, 98];
    assert FlexPool.Cut(s[1..]) == [] && FlexPool.Cut(s) == [97];
    assert FlexPool.NulFree([97]) by { assert [97 as byte][1..] == []; }
    CompareWithCut(s, [97]);
    assert [StringKey(s)][0] == StringKey(s);
  }

  lemma {:induction false} CompareWithCut(s: seq<byte>, c: seq<byte>)
    requires FlexPool.NulFree(c)
    ensures CompareWithValue(StringKey(s), StringKey(c)) == 0 <==> c == FlexPool.Cut(s)
  {
    hide LexLess, FlexPool.Cut, FlexPool.NulFree;
    FlexPool.CutIsIdentityIffNulFree(c);
    LexLessTrichotomy(FlexPool.Cut(s), c);
  }
}
