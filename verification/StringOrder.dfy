/** StringLessThan: the order of `String::operator<`, of the string pool and of sorted tables. */
module StringOrder {
  import opened Bytes
  import opened Sorting

  /** memcmp on the first `n` bytes: negative, zero or positive. */
  function Memcmp(a: seq<byte>, b: seq<byte>, n: nat): (c: int)
    requires n <= |a| && n <= |b|
    ensures c == 0 <==> a[..n] == b[..n]
    decreases n
  {
    if n == 0 then 0
    else if a[0] != b[0] then a[0] - b[0]
    else
      var c := Memcmp(a[1..], b[1..], n - 1);
      assert a[..n] == [a[0]] + a[1..][..n - 1];
      assert b[..n] == [b[0]] + b[1..][..n - 1];
      c
  }

  function Min(a: nat, b: nat): nat
  {
    if a < b then a else b
  }

  predicate StringLessThan(a: seq<byte>, b: seq<byte>)
  {
    var cmp := Memcmp(a, b, Min(|a|, |b|));
    if cmp == 0 then |a| < |b| else cmp < 0
  }

  /** How an ordered set decides that it already holds an element. */
  predicate Equivalent(a: seq<byte>, b: seq<byte>)
  {
    !StringLessThan(a, b) && !StringLessThan(b, a)
  }

  /** The same order, stated as what a lexicographic order is. */
  predicate LexLess(a: seq<byte>, b: seq<byte>)
  {
    b != [] && (a == [] || a[0] < b[0] || (a[0] == b[0] && LexLess(a[1..], b[1..])))
  }

  /** The strings agree on `n` bytes, and there the first one ends or has the smaller byte. */
  predicate Parts(a: seq<byte>, b: seq<byte>, n: nat)
  {
    n <= |a| && n < |b| && a[..n] == b[..n] && (n == |a| || a[n] < b[n])
  }

  lemma {:induction false} LexLessMeans(a: seq<byte>, b: seq<byte>)
    ensures LexLess(a, b) <==> exists n: nat :: Parts(a, b, n)
  {
    hide Parts;
    if a == [] || b == [] || a[0] != b[0] {
      PartsAtOnce(a, b);
    } else {
      LexLessMeans(a[1..], b[1..]);
      forall n: nat | n < |b|
        ensures Parts(a, b, n) <==> n > 0 && Parts(a[1..], b[1..], n - 1)
      {
        PartsLater(a, b, n);
      }
      PartsInside(a, b);
      if exists n: nat :: Parts(a[1..], b[1..], n) {
        var n: nat :| Parts(a[1..], b[1..], n);
        PartsInside(a[1..], b[1..]);
        assert Parts(a, b, n + 1);
      }
    }
  }

  lemma {:induction false} PartsInside(a: seq<byte>, b: seq<byte>)
    ensures forall n: nat :: Parts(a, b, n) ==> n < |b|
  {
  }

  lemma {:induction false} PartsAtOnce(a: seq<byte>, b: seq<byte>)
    requires a == [] || b == [] || a[0] != b[0]
    ensures LexLess(a, b) <==> exists n: nat :: Parts(a, b, n)
  {
    if LexLess(a, b) {
      assert Parts(a, b, 0);
    }
    forall n: nat | Parts(a, b, n)
      ensures n == 0
    {
    }
  }

  lemma {:induction false} PartsLater(a: seq<byte>, b: seq<byte>, n: nat)
    requires a != [] && b != [] && a[0] == b[0]
    ensures Parts(a, b, n) <==> n > 0 && Parts(a[1..], b[1..], n - 1)
  {
    if 0 < n <= |a| && n <= |b| {
      assert a[..n] == [a[0]] + a[1..][..n - 1] && b[..n] == [b[0]] + b[1..][..n - 1];
      assert a[..n][1..] == a[1..][..n - 1] && b[..n][1..] == b[1..][..n - 1];
    }
  }

  lemma {:induction false} StringLessThanIsLexLess(a: seq<byte>, b: seq<byte>)
    ensures StringLessThan(a, b) == LexLess(a, b)
  {
    if a != [] && b != [] && a[0] == b[0] {
      StringLessThanIsLexLess(a[1..], b[1..]);
    }
  }

  lemma {:induction false} LexLessTrichotomy(a: seq<byte>, b: seq<byte>)
    ensures !(LexLess(a, b) && LexLess(b, a))
    ensures LexLess(a, b) || LexLess(b, a) || a == b
    ensures a == b ==> !LexLess(a, b)
  {
    if a != [] && b != [] && a[0] == b[0] {
      LexLessTrichotomy(a[1..], b[1..]);
      assert a == [a[0]] + a[1..] && b == [b[0]] + b[1..];
    }
  }

  lemma {:induction false} LexLessTransitive(a: seq<byte>, b: seq<byte>, c: seq<byte>)
    requires LexLess(a, b) && LexLess(b, c)
    ensures LexLess(a, c)
  {
    if a != [] && a[0] == b[0] == c[0] {
      LexLessTransitive(a[1..], b[1..], c[1..]);
    }
  }

  /** StringLessThan is a strict total order on byte strings, embedded NULs included. */
  lemma {:induction false} StringLessThanIsStrictTotalOrder(a: seq<byte>, b: seq<byte>, c: seq<byte>)
    ensures !StringLessThan(a, a)
    ensures StringLessThan(a, b) && StringLessThan(b, c) ==> StringLessThan(a, c)
    ensures Equivalent(a, b) <==> a == b
  {
    StringLessThanIsLexLess(a, a);
    StringLessThanIsLexLess(a, b);
    StringLessThanIsLexLess(b, a);
    StringLessThanIsLexLess(b, c);
    StringLessThanIsLexLess(a, c);
    LexLessTrichotomy(a, a);
    LexLessTrichotomy(a, b);
    if LexLess(a, b) && LexLess(b, c) {
      LexLessTransitive(a, b, c);
    }
  }

  lemma {:induction false} EquivalentIffEqualForall()
    ensures forall a, b :: Equivalent(a, b) <==> a == b
  {
    forall a, b
      ensures Equivalent(a, b) <==> a == b
    {
      StringLessThanIsStrictTotalOrder(a, b, b);
    }
  }

  lemma {:induction false} LexLessIsStrictTotalOrder()
    ensures StrictTotalOrder(LexLess)
  {
    forall a: seq<byte>, b: seq<byte>, c: seq<byte>
      ensures !LexLess(a, a)
      ensures LexLess(a, b) || LexLess(b, a) || a == b
      ensures LexLess(a, b) && LexLess(b, c) ==> LexLess(a, c)
    {
      LexLessTrichotomy(a, b);
      LexLessTrichotomy(a, a);
      if LexLess(a, b) && LexLess(b, c) {
        LexLessTransitive(a, b, c);
      }
    }
  }
}
