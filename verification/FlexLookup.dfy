/** Looking a key up in a map. */
module FlexLookup {
  import opened Bytes
  import opened StringOrder
  import opened FlexReader
  import opened FlexPool
  import BinarySearch

  /** KeyCompare: the key against the key at position `i`, as C strings. */
  function KeyCompare(b: seq<byte>, k: KeyVector, key: seq<byte>, i: nat): int
  {
    match KeyAt(b, k, i)
    case None => 0
    case Some(s) => if LexLess(key, s) then -1 else if LexLess(s, key) then 1 else 0
  }

  lemma {:induction false} KeyCompareAscending(b: seq<byte>, k: KeyVector, key: seq<byte>, n: nat)
    requires KeysSorted(b, k, n)
    ensures BinarySearch.Ascending(n, (i: nat) => KeyCompare(b, k, key, i))
    ensures forall i: nat :: i < n ==> (KeyCompare(b, k, key, i) == 0 <==> KeyAt(b, k, i) == Some(key))
  {
    hide KeyAt, LexLess;
    forall i: nat | i < n
      ensures KeyCompare(b, k, key, i) == 0 <==> KeyAt(b, k, i) == Some(key)
    {
      LexLessTrichotomy(key, KeyAt(b, k, i).value);
    }
    forall i: nat, j: nat | i < j < n
      ensures KeyCompare(b, k, key, i) <= 0 ==> KeyCompare(b, k, key, j) < 0
    {
      var s, t := KeyAt(b, k, i).value, KeyAt(b, k, j).value;
      LexLessTrichotomy(key, s);
      assert LexLess(s, t);
      if LexLess(key, s) {
        LexLessTransitive(key, s, t);
      }
    }
  }

  /** Map::operator[]: search the keys, then take the value at the same position. A key is a C string:
      of a longer one only what comes before the first NUL counts. */
  method Lookup(b: seq<byte>, p: int, n: nat, key: seq<byte>, ghost es: seq<Entry>) returns (r: Ref)
    requires ReadsAt(b, p, n, FBT_MAP, Map(es))
    ensures forall e :: 0 <= e < |es| && es[e].key == Cut(key) ==> Reads(b, r, es[e].val)
    ensures (forall e :: 0 <= e < |es| ==> es[e].key != Cut(key)) ==> r == NULL_REF
  {
    hide Reads, KeyAt, KeysOf, VectorAt, U, LexLess, EntryReads;
    var keys := KeysOf(b, p, n).value;
    var size := SizeAt(b, keys.p, keys.n).value;
    var cmp := (i: nat) => KeyCompare(b, keys, Cut(key), i);
    KeyCompareAscending(b, keys, Cut(key), size);
    var found := BinarySearch.Search(size, cmp);
    match found
    case None =>
      forall e | 0 <= e < |es|
        ensures es[e].key != Cut(key)
      {
        var i := EntryPosition(b, p, n, keys, |es|, es[e]);
        assert cmp(i) != 0;
      }
      return NULL_REF;
    case Some(i) =>
      assert KeyAt(b, keys, i) == Some(Cut(key));
      forall e | 0 <= e < |es| && es[e].key == Cut(key)
        ensures VectorAt(b, p, n, i).Some? && Reads(b, VectorAt(b, p, n, i).value, es[e].val)
      {
        var j := EntryPosition(b, p, n, keys, |es|, es[e]);
        SamePosition(b, keys, |es|, i, j);
      }
      assert KeyIn(es, KeyAt(b, keys, i));
      return VectorAt(b, p, n, i).value;
  }

  lemma {:induction false} EntryPosition(b: seq<byte>, p: int, n: nat, k: KeyVector, size: nat, e: Entry)
      returns (i: nat)
    requires HasEntry(b, p, n, k, size, e)
    ensures i < size && KeyAt(b, k, i) == Some(e.key)
    ensures VectorAt(b, p, n, i).Some? && Reads(b, VectorAt(b, p, n, i).value, e.val)
  {
    i :| 0 <= i < size && EntryReads(b, p, n, k, i, e);
  }

  /** Sorted keys are in one place each. */
  lemma {:induction false} SamePosition(b: seq<byte>, k: KeyVector, n: nat, i: nat, j: nat)
    requires KeysSorted(b, k, n) && i < n && j < n && KeyAt(b, k, i) == KeyAt(b, k, j)
    ensures i == j
  {
    hide KeyAt, LexLess;
    LexLessTrichotomy(KeyAt(b, k, i).value, KeyAt(b, k, j).value);
  }
}
