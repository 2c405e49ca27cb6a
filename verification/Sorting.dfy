/** The order std::sort brings distinct keys into, for any strict total order.

    Distinct keys leave only one sorted order, so it does not matter how it is found; here it is the order
    an insertion sort finds, as a sequence of indices, which the tables or the pairs of a map are then picked
    by. */
module Sorting {

  ghost predicate StrictTotalOrder<K(!new)>(less: (K, K) -> bool)
  {
    && (forall a :: !less(a, a))
    && (forall a, b :: less(a, b) || less(b, a) || a == b)
    && (forall a, b, c :: less(a, b) && less(b, c) ==> less(a, c))
  }

  predicate StrictlySorted<K>(less: (K, K) -> bool, ks: seq<K>)
  {
    forall i, j :: 0 <= i < j < |ks| ==> less(ks[i], ks[j])
  }

  predicate Distinct<K(==)>(ks: seq<K>)
  {
    forall i, j :: 0 <= i < j < |ks| ==> ks[i] != ks[j]
  }

  /** `i` put in front of the first index whose key is not less. */
  function Insert<K>(less: (K, K) -> bool, ks: seq<K>, i: nat, order: seq<nat>): (r: seq<nat>)
    requires i < |ks| && forall j :: 0 <= j < |order| ==> order[j] < |ks|
    ensures |r| == |order| + 1
    ensures forall j :: 0 <= j < |r| ==> r[j] < |ks|
  {
    if order == [] || !less(ks[order[0]], ks[i]) then [i] + order
    else [order[0]] + Insert(less, ks, i, order[1..])
  }

  function Order<K>(less: (K, K) -> bool, ks: seq<K>, n: nat): (r: seq<nat>)
    requires n <= |ks|
    ensures |r| == n
    ensures forall j :: 0 <= j < |r| ==> r[j] < |ks|
  {
    if n == 0 then [] else Insert(less, ks, n - 1, Order(less, ks, n - 1))
  }

  function Pick<T>(xs: seq<T>, order: seq<nat>): (r: seq<T>)
    requires forall j :: 0 <= j < |order| ==> order[j] < |xs|
    ensures |r| == |order| && forall j :: 0 <= j < |r| ==> r[j] == xs[order[j]]
  {
    seq(|order|, j requires 0 <= j < |order| => xs[order[j]])
  }

  predicate HeadLeast<K>(less: (K, K) -> bool, s: seq<K>)
  {
    s != [] && forall b :: 0 < b < |s| ==> less(s[0], s[b])
  }

  lemma {:induction false} InsertContains<K>(less: (K, K) -> bool, ks: seq<K>, i: nat, order: seq<nat>, x: nat)
    requires i < |ks| && forall j :: 0 <= j < |order| ==> order[j] < |ks|
    ensures x in Insert(less, ks, i, order) <==> x == i || x in order
  {
    if order != [] && less(ks[order[0]], ks[i]) {
      InsertContains(less, ks, i, order[1..], x);
      assert order == [order[0]] + order[1..];
    }
  }

  /** Every index below `n`, and no other. */
  lemma {:induction false} OrderContains<K>(less: (K, K) -> bool, ks: seq<K>, n: nat, x: nat)
    requires n <= |ks|
    ensures x in Order(less, ks, n) <==> x < n
  {
    if n > 0 {
      OrderContains(less, ks, n - 1, x);
      InsertContains(less, ks, n - 1, Order(less, ks, n - 1), x);
    }
  }

  lemma {:induction false} InsertSorted<K(!new)>(less: (K, K) -> bool, ks: seq<K>, i: nat, order: seq<nat>)
    requires StrictTotalOrder(less)
    requires i < |ks| && forall j :: 0 <= j < |order| ==> order[j] < |ks| && ks[order[j]] != ks[i]
    requires StrictlySorted(less, Pick(ks, order))
    ensures StrictlySorted(less, Pick(ks, Insert(less, ks, i, order)))
  {
    hide StrictlySorted, HeadLeast, StrictTotalOrder;
    if order == [] {
      Singleton(less, Pick(ks, Insert(less, ks, i, order)));
    } else if less(ks[order[0]], ks[i]) {
      var rest := Insert(less, ks, i, order[1..]);
      PickTail(ks, order);
      TailSorted(less, Pick(ks, order));
      InsertSorted(less, ks, i, order[1..]);
      LeastStaysLeast(less, ks, i, order);
      PickTail(ks, Insert(less, ks, i, order));
      SortedCons(less, Pick(ks, Insert(less, ks, i, order)), Pick(ks, rest));
    } else {
      Trichotomy(less, ks[order[0]], ks[i]);
      BelowTheLeast(less, ks, i, order);
      PickTail(ks, Insert(less, ks, i, order));
      SortedCons(less, Pick(ks, [i] + order), Pick(ks, order));
    }
  }

  lemma {:induction false} Trichotomy<K(!new)>(less: (K, K) -> bool, a: K, b: K)
    requires StrictTotalOrder(less)
    ensures less(a, b) || less(b, a) || a == b
    ensures !(less(a, b) && less(b, a)) && (a == b ==> !less(a, b))
  {
  }

  lemma {:induction false} Transitive<K(!new)>(less: (K, K) -> bool, a: K, b: K, c: K)
    requires StrictTotalOrder(less) && less(a, b) && less(b, c)
    ensures less(a, c)
  {
  }

  lemma {:induction false} Singleton<K>(less: (K, K) -> bool, s: seq<K>)
    requires |s| == 1
    ensures StrictlySorted(less, s)
  {
  }

  lemma {:induction false} PickTail<K>(ks: seq<K>, order: seq<nat>)
    requires order != [] && forall j :: 0 <= j < |order| ==> order[j] < |ks|
    ensures Pick(ks, order)[1..] == Pick(ks, order[1..])
  {
  }

  lemma {:induction false} TailSorted<K>(less: (K, K) -> bool, s: seq<K>)
    requires StrictlySorted(less, s) && s != []
    ensures StrictlySorted(less, s[1..])
  {
    forall i, j | 0 <= i < j < |s[1..]|
      ensures less(s[1..][i], s[1..][j])
    {
      assert less(s[i + 1], s[j + 1]);
    }
  }

  lemma {:induction false} LeastStaysLeast<K>(less: (K, K) -> bool, ks: seq<K>, i: nat, order: seq<nat>)
    requires i < |ks| && order != [] && forall j :: 0 <= j < |order| ==> order[j] < |ks|
    requires StrictlySorted(less, Pick(ks, order)) && less(ks[order[0]], ks[i])
    ensures HeadLeast(less, Pick(ks, Insert(less, ks, i, order)))
  {
    var r, rest := Insert(less, ks, i, order), Insert(less, ks, i, order[1..]);
    forall b | 0 < b < |r|
      ensures less(ks[r[0]], ks[r[b]])
    {
      assert r[b] == rest[b - 1];
      InsertContains(less, ks, i, order[1..], r[b]);
      if r[b] != i {
        var c :| 0 <= c < |order[1..]| && order[1..][c] == r[b];
        assert Pick(ks, order)[c + 1] == ks[r[b]];
      }
    }
  }

  lemma {:induction false} BelowTheLeast<K(!new)>(less: (K, K) -> bool, ks: seq<K>, i: nat, order: seq<nat>)
    requires StrictTotalOrder(less)
    requires i < |ks| && order != [] && forall j :: 0 <= j < |order| ==> order[j] < |ks|
    requires StrictlySorted(less, Pick(ks, order)) && less(ks[i], ks[order[0]])
    ensures HeadLeast(less, Pick(ks, [i] + order))
  {
    hide Insert, StrictTotalOrder;
    var r := [i] + order;
    forall b | 0 < b < |r|
      ensures less(ks[r[0]], ks[r[b]])
    {
      if b > 1 {
        assert Pick(ks, order)[0] == ks[order[0]] && Pick(ks, order)[b - 1] == ks[r[b]];
        Transitive(less, ks[i], ks[order[0]], ks[r[b]]);
      }
    }
  }

  lemma {:induction false} SortedCons<K>(less: (K, K) -> bool, s: seq<K>, rest: seq<K>)
    requires HeadLeast(less, s) && s[1..] == rest && StrictlySorted(less, rest)
    ensures StrictlySorted(less, s)
  {
    forall i, j | 0 <= i < j < |s|
      ensures less(s[i], s[j])
    {
      if i > 0 {
        assert s[i] == rest[i - 1] && s[j] == rest[j - 1];
      }
    }
  }

  /** The keys in this order are strictly sorted. */
  lemma {:induction false} OrderSorts<K(!new)>(less: (K, K) -> bool, ks: seq<K>, n: nat)
    requires n <= |ks| && Distinct(ks) && StrictTotalOrder(less)
    ensures StrictlySorted(less, Pick(ks, Order(less, ks, n)))
  {
    hide Insert, StrictTotalOrder;
    if n > 0 {
      OrderSorts(less, ks, n - 1);
      var order := Order(less, ks, n - 1);
      forall j | 0 <= j < |order|
        ensures ks[order[j]] != ks[n - 1]
      {
        OrderContains(less, ks, n - 1, order[j]);
      }
      InsertSorted(less, ks, n - 1, order);
    }
  }

  /** Nothing is lost: every index has its place in the order. */
  lemma {:induction false} OrderIsOnto<K>(less: (K, K) -> bool, ks: seq<K>, x: nat) returns (i: nat)
    requires x < |ks|
    ensures i < |ks| && Order(less, ks, |ks|)[i] == x
  {
    OrderContains(less, ks, |ks|, x);
    i :| 0 <= i < |ks| && Order(less, ks, |ks|)[i] == x;
  }

  /** The place an index is inserted at is behind all smaller keys. */
  lemma {:induction false} InsertAt<K>(less: (K, K) -> bool, ks: seq<K>, i: nat, order: seq<nat>, at: nat)
    requires i < |ks| && at <= |order| && forall j :: 0 <= j < |order| ==> order[j] < |ks|
    requires forall j :: 0 <= j < at ==> less(ks[order[j]], ks[i])
    requires at < |order| ==> !less(ks[order[at]], ks[i])
    ensures Insert(less, ks, i, order) == order[..at] + [i] + order[at..]
  {
    if at > 0 {
      assert forall j :: 0 <= j < |order| - 1 ==> order[1..][j] == order[j + 1];
      InsertAt(less, ks, i, order[1..], at - 1);
      assert order[..at] == [order[0]] + order[1..][..at - 1];
      assert order[1..][at - 1..] == order[at..];
    }
  }

  /** Whatever way a sort goes about it: strictly sorted keys come in one order only. */
  lemma {:induction false} SortedIsUnique<K(!new)>(less: (K, K) -> bool, s: seq<K>, t: seq<K>)
    requires StrictTotalOrder(less) && StrictlySorted(less, s) && StrictlySorted(less, t)
    requires forall x :: x in s <==> x in t
    ensures s == t
  {
    hide StrictlySorted, StrictTotalOrder;
    BothEmpty(s, t);
    if s != [] {
      FirstIsLeast(less, s, t);
      FirstIsLeast(less, t, s);
      Trichotomy(less, s[0], t[0]);
      forall x
        ensures x in s[1..] <==> x in t[1..]
      {
        InTail(less, s, x);
        InTail(less, t, x);
      }
      TailSorted(less, s);
      TailSorted(less, t);
      SortedIsUnique(less, s[1..], t[1..]);
      assert s == [s[0]] + s[1..] && t == [t[0]] + t[1..];
    }
  }

  lemma {:induction false} BothEmpty<K(!new)>(s: seq<K>, t: seq<K>)
    requires forall x :: x in s <==> x in t
    ensures s == [] <==> t == []
  {
    if s != [] {
      assert s[0] in s;
    }
    if t != [] {
      assert t[0] in t;
    }
  }

  lemma {:induction false} FirstIsLeast<K>(less: (K, K) -> bool, s: seq<K>, t: seq<K>)
    requires StrictlySorted(less, s) && s != [] && t != [] && t[0] in s
    ensures s[0] == t[0] || less(s[0], t[0])
  {
    var i :| 0 <= i < |s| && s[i] == t[0];
  }

  lemma {:induction false} InTail<K(!new)>(less: (K, K) -> bool, s: seq<K>, x: K)
    requires StrictTotalOrder(less) && StrictlySorted(less, s) && s != []
    ensures x in s[1..] <==> x in s && x != s[0]
  {
    hide StrictTotalOrder;
    Trichotomy(less, s[0], s[0]);
    if x in s && x != s[0] {
      var i :| 0 <= i < |s| && s[i] == x;
      assert s[1..][i - 1] == x;
    }
    if x in s[1..] {
      var i :| 0 <= i < |s[1..]| && s[1..][i] == x;
      assert s[i + 1] == x && less(s[0], s[i + 1]);
    }
  }
}
