/** The comparisons of C strings behind the key pool, the string pool and the order of map keys.

    Keys are compared by strcmp and strings by strncmp over the shorter of them with its terminator; both
    stop at a NUL. What they decide is said here in terms of the strings: the lexicographic order of what
    comes before the first NUL. */
module FlexPool {
  import opened Bytes
  import opened StringOrder
  import opened FlexReader

  /** strcmp of the strings at `i` and `j`. */
  function Strcmp(b: seq<byte>, i: int, j: int): int
    requires CString(b, i).Some? && CString(b, j).Some?
    decreases |b| - i
  {
    if b[i] != b[j] then b[i] - b[j]
    else if b[i] == 0 then 0
    else Strcmp(b, i + 1, j + 1)
  }

  /** strncmp: as strcmp, but at most `n` characters. */
  function Strncmp(b: seq<byte>, i: nat, j: nat, n: nat): int
    requires i + n <= |b| && j + n <= |b|
    decreases n
  {
    if n == 0 then 0
    else if b[i] != b[j] then b[i] - b[j]
    else if b[i] == 0 then 0
    else Strncmp(b, i + 1, j + 1, n - 1)
  }

  /** strcmp orders what the readers see as the keys. */
  lemma {:induction false} StrcmpIsLexicographic(b: seq<byte>, i: int, j: int)
    requires CString(b, i).Some? && CString(b, j).Some?
    ensures Strcmp(b, i, j) < 0 <==> LexLess(CString(b, i).value, CString(b, j).value)
    ensures Strcmp(b, i, j) > 0 <==> LexLess(CString(b, j).value, CString(b, i).value)
    ensures Strcmp(b, i, j) == 0 <==> CString(b, i) == CString(b, j)
    decreases |b| - i
  {
    var s, t := CString(b, i).value, CString(b, j).value;
    if b[i] == 0 || b[j] == 0 {
      LexLessTrichotomy(s, t);
    } else {
      var s1, t1 := CString(b, i + 1).value, CString(b, j + 1).value;
      assert s[1..] == s1 && t[1..] == t1;
      if b[i] == b[j] {
        StrcmpIsLexicographic(b, i + 1, j + 1);
      } else {
        LexLessTrichotomy(s, t);
      }
    }
  }

  /** A string as a C string: up to its first NUL. */
  function Cut(s: seq<byte>): (r: seq<byte>)
    ensures |r| <= |s|
  {
    if s == [] || s[0] == 0 then [] else [s[0]] + Cut(s[1..])
  }

  predicate NulFree(s: seq<byte>)
  {
    forall i :: 0 <= i < |s| ==> s[i] != 0
  }

  lemma {:induction false} CutIsIdentityIffNulFree(s: seq<byte>)
    ensures Cut(s) == s <==> NulFree(s)
  {
    if s != [] {
      CutIsIdentityIffNulFree(s[1..]);
      assert s == [s[0]] + s[1..];
      if NulFree(s) {
        assert NulFree(s[1..]);
      } else {
        var i :| 0 <= i < |s| && s[i] == 0;
        if i > 0 {
          assert s[1..][i - 1] == 0;
        } else {
          assert |Cut(s)| == 0;
        }
      }
    }
  }

  lemma {:induction false} CutIsNulFree(s: seq<byte>)
    ensures NulFree(Cut(s))
  {
    if s != [] && s[0] != 0 {
      CutIsNulFree(s[1..]);
    }
  }

  /** A terminated string in the buffer. */
  predicate StringHere(b: seq<byte>, i: nat, s: seq<byte>)
  {
    i + |s| < |b| && b[i..i + |s|] == s && b[i + |s|] == 0
  }

  lemma {:induction false} StringHereTail(b: seq<byte>, i: nat, s: seq<byte>)
    requires StringHere(b, i, s) && s != []
    ensures b[i] == s[0] && StringHere(b, i + 1, s[1..])
  {
    assert b[i] == b[i..i + |s|][0];
    assert b[i + 1..i + 1 + |s[1..]|] == b[i..i + |s|][1..];
  }

  lemma {:induction false} CStringIsCut(b: seq<byte>, i: nat, s: seq<byte>)
    requires StringHere(b, i, s)
    ensures CString(b, i) == Some(Cut(s))
    decreases |s|
  {
    if s != [] {
      StringHereTail(b, i, s);
      if s[0] != 0 {
        CStringIsCut(b, i + 1, s[1..]);
      }
    }
  }

  /** The string pool compares one character more than the shorter string has. That orders the strings
      as C strings: two of them count as equal if and only if they agree up to the first NUL. */
  lemma {:induction false} StrncmpIgnoresBehindNul(b: seq<byte>, i: nat, j: nat, s: seq<byte>, t: seq<byte>)
    requires StringHere(b, i, s) && StringHere(b, j, t)
    ensures Strncmp(b, i, j, Min(|s|, |t|) + 1) < 0 <==> LexLess(Cut(s), Cut(t))
    ensures Strncmp(b, i, j, Min(|s|, |t|) + 1) == 0 <==> Cut(s) == Cut(t)
    decreases |s|
  {
    hide Cut, LexLess;
    StringHereBounds(b, i, s);
    StringHereBounds(b, j, t);
    if s == [] || t == [] || s[0] == 0 || t[0] == 0 {
      StrncmpShort(b, i, j, s, t);
    } else {
      StringHereTail(b, i, s);
      StringHereTail(b, j, t);
      CutOrder(s, t);
      Shorter(s, t);
      if s[0] == t[0] {
        StrncmpIgnoresBehindNul(b, i + 1, j + 1, s[1..], t[1..]);
      }
    }
  }

  lemma {:induction false} StringHereBounds(b: seq<byte>, i: nat, s: seq<byte>)
    requires StringHere(b, i, s)
    ensures i + |s| < |b|
  {
  }

  lemma {:induction false} Shorter(s: seq<byte>, t: seq<byte>)
    requires s != [] && t != []
    ensures Min(|s[1..]|, |t[1..]|) + 1 == Min(|s|, |t|)
  {
  }

  lemma {:induction false} CutOrder(s: seq<byte>, t: seq<byte>)
    requires s != [] && t != [] && s[0] != 0 && t[0] != 0
    ensures LexLess(Cut(s), Cut(t)) <==> s[0] < t[0] || (s[0] == t[0] && LexLess(Cut(s[1..]), Cut(t[1..])))
    ensures Cut(s) == Cut(t) <==> s[0] == t[0] && Cut(s[1..]) == Cut(t[1..])
  {
    assert Cut(s)[1..] == Cut(s[1..]) && Cut(t)[1..] == Cut(t[1..]);
  }

  lemma {:induction false} StrncmpShort(b: seq<byte>, i: nat, j: nat, s: seq<byte>, t: seq<byte>)
    requires StringHere(b, i, s) && StringHere(b, j, t)
    requires s == [] || t == [] || s[0] == 0 || t[0] == 0
    ensures Strncmp(b, i, j, Min(|s|, |t|) + 1) < 0 <==> LexLess(Cut(s), Cut(t))
    ensures Strncmp(b, i, j, Min(|s|, |t|) + 1) == 0 <==> Cut(s) == Cut(t)
  {
    if s != [] {
      StringHereTail(b, i, s);
    }
    if t != [] {
      StringHereTail(b, j, t);
    }
  }

  // ---------------------------------------------------------------------------------------------
  // The pools: ordered sets, represented by their elements in order of insertion

  /** How the key pool decides that it already holds a key. */
  predicate SameKey(b: seq<byte>, i: int, j: int)
  {
    && CString(b, i).Some? && CString(b, j).Some?
    && !(Strcmp(b, i, j) < 0) && !(Strcmp(b, j, i) < 0)
  }

  lemma {:induction false} SameKeyIffEqual(b: seq<byte>, i: int, j: int)
    requires CString(b, i).Some? && CString(b, j).Some?
    ensures SameKey(b, i, j) <==> CString(b, i) == CString(b, j)
  {
    StrcmpIsLexicographic(b, i, j);
    StrcmpIsLexicographic(b, j, i);
    LexLessTrichotomy(CString(b, i).value, CString(b, j).value);
  }

  function FindKey(b: seq<byte>, pool: seq<nat>, at: nat): (r: Option<nat>)
    ensures r.Some? ==> r.value in pool && SameKey(b, r.value, at)
    ensures r.None? ==> forall p :: p in pool ==> !SameKey(b, p, at)
  {
    if pool == [] then None
    else if SameKey(b, pool[0], at) then Some(pool[0])
    else FindKey(b, pool[1..], at)
  }

  /** A pooled string: where it is and how long. */
  datatype Pooled = Pooled(at: nat, len: nat)

  /** How the string pool decides that it already holds a string. */
  predicate SameString(b: seq<byte>, p: Pooled, q: Pooled)
  {
    var n := Min(p.len, q.len) + 1;
    && p.at + n <= |b| && q.at + n <= |b|
    && !(Strncmp(b, p.at, q.at, n) < 0) && !(Strncmp(b, q.at, p.at, n) < 0)
  }

  lemma {:induction false} SameStringIffSameCut(b: seq<byte>, p: Pooled, q: Pooled, s: seq<byte>, t: seq<byte>)
    requires StringHere(b, p.at, s) && |s| == p.len && StringHere(b, q.at, t) && |t| == q.len
    ensures SameString(b, p, q) <==> Cut(s) == Cut(t)
  {
    StrncmpIgnoresBehindNul(b, p.at, q.at, s, t);
    StrncmpIgnoresBehindNul(b, q.at, p.at, t, s);
    LexLessTrichotomy(Cut(s), Cut(t));
  }

  function FindString(b: seq<byte>, pool: seq<Pooled>, q: Pooled): (r: Option<Pooled>)
    ensures r.Some? ==> r.value in pool && SameString(b, r.value, q)
    ensures r.None? ==> forall p :: p in pool ==> !SameString(b, p, q)
  {
    if pool == [] then None
    else if SameString(b, pool[0], q) then Some(pool[0])
    else FindString(b, pool[1..], q)
  }
}
