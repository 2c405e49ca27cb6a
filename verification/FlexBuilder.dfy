/** The Builder class: its methods, with their loops, do to the fields what the machine on values does.

    A vector takes three passes over its elements: one measures the widest of them, each at the place where
    it is going to be, one writes them all in that width, and one writes a byte of packed type for each. A
    map first sorts its pairs in place on the stack. */
module FlexBuilder {
  import opened Bytes
  import opened StringOrder
  import opened FlexWidth
  import opened FlexReader
  import L = FlexLayout
  import opened FlexLayout
  import opened FlexVector
  import opened FlexDenote
  import opened FlexPool
  import opened Sorting
  import M = FlexMachine
  import opened FlexMachine

  /** The elements CreateVector goes through. */
  function Strided<T>(s: seq<T>, start: nat, step: nat): seq<T>
    requires step >= 1
    decreases |s| - start
  {
    if start >= |s| then [] else [s[start]] + Strided(s, start + step, step)
  }

  lemma {:induction false} StridedOne<T>(s: seq<T>, start: nat)
    requires start <= |s|
    ensures Strided(s, start, 1) == s[start..]
    decreases |s| - start
  {
    if start < |s| {
      StridedOne(s, start + 1);
      assert s[start..] == [s[start]] + s[start + 1..];
    }
  }

  lemma {:induction false} StridedTwo<T>(s: seq<T>, start: nat)
    requires start <= |s| && (|s| - start) % 2 == 0
    ensures Strided(s, start, 2) == Evens(s[start..])
    ensures Strided(s, start + 1, 2) == Odds(s[start..])
    decreases |s| - start
  {
    if start < |s| {
      StridedTwo(s, start + 2);
      Halves(s[start..]);
      assert s[start..][2..] == s[start + 2..];
    }
  }

  lemma {:induction false} Halves<T>(s: seq<T>)
    requires |s| >= 2
    ensures Evens(s) == [s[0]] + Evens(s[2..]) && Odds(s) == [s[1]] + Odds(s[2..])
  {
    forall i | 0 <= i < |s| / 2
      ensures Evens(s)[i] == ([s[0]] + Evens(s[2..]))[i] && Odds(s)[i] == ([s[1]] + Odds(s[2..]))[i]
    {
      if i > 0 {
        assert Evens(s[2..])[i - 1] == s[2..][2 * (i - 1)];
      }
    }
  }

  lemma {:induction false} TypesCons(vs: seq<Value>, w: BitWidth)
    requires vs != []
    ensures Types(vs, w) == [StoredPackedType(vs[0], w)] + Types(vs[1..], w)
  {
    hide StoredPackedType;
  }

  lemma {:induction false} PlacedHead(vs: seq<Value>, size: nat)
    requires AllPlaced(vs, size) && vs != []
    ensures Placed(vs[0], size)
  {
  }

  lemma {:induction false} NoWidth(size: nat, index: nat, step: nat)
    requires Addressable(size, index + step * 0)
    ensures MaxWidth([], size, index, step) == 0
  {
  }

  function Interleave<T>(xs: seq<T>, ys: seq<T>): (r: seq<T>)
    requires |xs| == |ys|
    ensures |r| == 2 * |xs|
  {
    if xs == [] then [] else [xs[0], ys[0]] + Interleave(xs[1..], ys[1..])
  }

  lemma {:induction false} InterleaveHalves<T>(xs: seq<T>, ys: seq<T>)
    requires |xs| == |ys|
    ensures Evens(Interleave(xs, ys)) == xs && Odds(Interleave(xs, ys)) == ys
  {
    if xs != [] {
      InterleaveHalves(xs[1..], ys[1..]);
      var r := Interleave(xs, ys);
      Halves(r);
      assert r[2..] == Interleave(xs[1..], ys[1..]);
      assert xs == [xs[0]] + xs[1..] && ys == [ys[0]] + ys[1..];
    }
  }

  lemma {:induction false} MapElements(s: seq<Value>, start: nat, keys: seq<Value>, vals: seq<Value>)
    requires |keys| == |vals| && start <= |s| && s[start..] == Interleave(keys, vals)
    ensures Strided(s, start, 2) == keys && Strided(s, start + 1, 2) == vals
  {
    InterleaveHalves(keys, vals);
    StridedTwo(s, start);
  }

  lemma {:induction false} FirstWritable(vs: seq<Value>, at: nat, w: BitWidth)
    requires AllWritable(vs, at) && AllFit(vs, at, w) && vs != []
    ensures Writable(vs[0], at) && (!IsInline(vs[0].ty) ==> at - vs[0].u < Pow256(ByteWidth(w)))
  {
    hide Writable;
    FirstFits(vs, at, w);
  }

  lemma {:induction false} AllFitTail(vs: seq<Value>, at: nat, w: BitWidth, at': nat)
    requires AllFit(vs, at, w) && vs != [] && at' == at + ByteWidth(w)
    ensures AllFit(vs[1..], at', w)
  {
    hide StoreFits, ByteWidth;
    forall i | 0 <= i < |vs| - 1
      ensures StoreFits(vs[1..][i], at' + i * ByteWidth(w), w)
    {
      assert StoreFits(vs[i + 1], at + (i + 1) * ByteWidth(w), w);
      Distribute(1, i, ByteWidth(w), 0);
    }
  }

  lemma {:induction false} Prefixed(e: Elements, shape: Shape)
    requires e.index >= if e.keys.Some? then 3 else 1
    ensures HeadWords(e, shape) <= e.index
  {
  }

  lemma {:induction false} RootFits(v: Value, size: nat, w: BitWidth)
    requires Placed(v, size) && Addressable(size, 0) && w == ElemWidthOf(v, size, 0)
    ensures !IsInline(v.ty) ==> size + PaddingBytes(size, ByteWidth(w)) - v.u < Pow256(ByteWidth(w))
  {
    hide PaddingBytes, ElemWidthOf;
    ElementFits(v, size, 0, 0, w, size + PaddingBytes(size, ByteWidth(w)));
  }

  class Builder {
    var buf: seq<byte>
    var stack: seq<Value>
    var keyPool: seq<nat>
    var strPool: seq<Pooled>
    var force: BitWidth
    var finished: bool
    const flags: Flags

    ghost function State(): Conf
      reads this
    {
      Conf(buf, stack, keyPool, strPool, force, flags)
    }

    constructor (flags: Flags)
      ensures State() == Fresh(flags) && !finished
    {
      buf, stack, keyPool, strPool, force, finished := [], [], [], [], 0, false;
      this.flags := flags;
    }

    /** Clear: as good as new; the flags stay. */
    method Clear()
      modifies this
      ensures State() == Fresh(flags) && !finished
    {
      buf, stack, finished, force, keyPool, strPool := [], [], false, 0, [], [];
    }

    method Align(w: BitWidth) returns (n: nat)
      modifies this`buf
      ensures buf == L.Align(old(buf), w) && n == ByteWidth(w)
    {
      n := ByteWidth(w);
      buf := buf + Zeros(PaddingBytes(|buf|, n));
    }

    method Write(x: int, n: nat)
      requires -0x8000_0000_0000_0000 <= x
      modifies this`buf
      ensures buf == L.Write(old(buf), x, n)
    {
      buf := buf + LE(Bits64(x), n);
    }

    /** The precondition is the method's own assertion. */
    method WriteOffset(o: nat, n: nat)
      requires o <= |buf| && |buf| - o < Pow256(n)
      modifies this`buf
      ensures buf == L.WriteOffset(old(buf), o, n)
    {
      var relative := |buf| - o;
      Write(relative, n);
    }

    method WriteAny(v: Value, w: BitWidth)
      requires Writable(v, |buf|) && (!IsInline(v.ty) ==> |buf| - v.u < Pow256(ByteWidth(w)))
      modifies this`buf
      ensures buf == L.WriteAny(old(buf), v, ByteWidth(w))
    {
      if IsInline(v.ty) {
        Write(v.u, ByteWidth(w));
      } else {
        WriteOffset(v.u, ByteWidth(w));
      }
    }

    /** Value::ElemWidth. */
    method WidthOfElem(v: Value, index: nat) returns (w: BitWidth)
      requires Placed(v, |buf|) && Addressable(|buf|, index)
      ensures w == ElemWidthOf(v, |buf|, index)
    {
      if IsInline(v.ty) {
        w := v.minWidth;
      } else {
        w := ElemWidth(|buf|, v.u, index);
      }
    }

    method Null()
      modifies this`stack
      ensures Exec(old(State()), CallNull) == Some(State())
    {
      stack := stack + [Value(0, FBT_NULL, 0)];
    }

    method Bool(v: bool)
      modifies this`stack
      ensures Exec(old(State()), CallBool(v)) == Some(State())
    {
      stack := stack + [Value(if v then 1 else 0, FBT_BOOL, 0)];
    }

    method Int(i: int)
      requires IsInt64(i)
      modifies this`stack
      ensures Exec(old(State()), CallInt(i)) == Some(State())
    {
      stack := stack + [Value(i, FBT_INT, WidthI(i))];
    }

    method UInt(u: nat)
      requires IsUInt64(u)
      modifies this`stack
      ensures Exec(old(State()), CallUInt(u)) == Some(State())
    {
      stack := stack + [Value(u, FBT_UINT, WidthU(u))];
    }

    method PushIndirect(x: int, ty: FlexType, w: BitWidth)
      requires -0x8000_0000_0000_0000 <= x
      modifies this`stack, this`buf
      ensures State() == Push(old(State()), L.PushIndirect(old(buf), x, ty, w))
    {
      var n := Align(w);
      var at := |buf|;
      Write(x, n);
      stack := stack + [Value(at, ty, w)];
    }

    method IndirectInt(i: int)
      requires IsInt64(i)
      modifies this`stack, this`buf
      ensures Exec(old(State()), CallIndirectInt(i)) == Some(State())
    {
      PushIndirect(i, FBT_INDIRECT_INT, WidthI(i));
    }

    method IndirectUInt(u: nat)
      requires IsUInt64(u)
      modifies this`stack, this`buf
      ensures Exec(old(State()), CallIndirectUInt(u)) == Some(State())
    {
      PushIndirect(u, FBT_INDIRECT_UINT, WidthU(u));
    }

    /** Serialize the key, look for it in the pool, and take it back if it is there. */
    method Key(s: seq<byte>) returns (at: nat)
      modifies this`stack, this`buf, this`keyPool
      ensures Exec(old(State()), CallKey(s)) == Some(State())
      ensures |stack| > 0 && at == stack[|stack| - 1].u
    {
      at := |buf|;
      buf := buf + s + [0];
      if flags.shareKeys {
        var found := FindKey(buf, keyPool, at);
        if found.Some? {
          buf := buf[..at];
          at := found.value;
        } else {
          keyPool := keyPool + [at];
        }
      }
      stack := stack + [Value(at, FBT_KEY, 0)];
      assert old(buf) == (old(buf) + s + [0])[..|old(buf)|];
    }

    method CreateBlob(s: seq<byte>, trailing: seq<byte>, ty: FlexType) returns (at: nat)
      modifies this`stack, this`buf
      ensures State() == Push(old(State()), L.CreateBlob(old(buf), s, trailing, ty))
      ensures at == L.CreateBlob(old(buf), s, trailing, ty).1.u && old(buf) <= buf
    {
      var w := WidthU(|s|);
      var n := Align(w);
      Write(|s|, n);
      at := |buf|;
      buf := buf + s + trailing;
      stack := stack + [Value(at, ty, w)];
    }

    method String(s: seq<byte>) returns (at: nat)
      modifies this`stack, this`buf, this`strPool
      ensures Exec(old(State()), CallString(s)) == Some(State())
      ensures |stack| > 0 && at == stack[|stack| - 1].u
    {
      hide L.CreateBlob, FindString;
      var resetTo := |buf|;
      at := CreateBlob(s, [0], FBT_STRING);
      ghost var (b, v) := L.CreateBlob(old(buf), s, [0], FBT_STRING);
      assert buf == b && stack == old(stack) + [v] && buf[..resetTo] == old(buf);
      if flags.shareStrings {
        var so := Pooled(at, |s|);
        var found := FindString(buf, strPool, so);
        if found.Some? {
          buf := buf[..resetTo];
          at := found.value.at;
          stack := stack[|stack| - 1 := stack[|stack| - 1].(u := at)];
          assert stack == old(stack) + [v.(u := at)];
        } else {
          strPool := strPool + [so];
        }
      }
      assert State() == AddString(old(State()), s);
    }

    method Blob(s: seq<byte>) returns (at: nat)
      modifies this`stack, this`buf
      ensures Exec(old(State()), CallBlob(s)) == Some(State())
      ensures |stack| > 0 && at == stack[|stack| - 1].u
    {
      at := CreateBlob(s, [], FBT_BLOB);
    }

    method ForceMinimumBitWidth(w: BitWidth)
      modifies this`force
      ensures Exec(old(State()), CallForceMinimumBitWidth(w)) == Some(State())
    {
      force := w;
    }

    /** The widest element, and the assertion that elements of a typed vector are of one type. */
    method MeasureElements(start: nat, step: nat, index: nat, typed: bool, width: BitWidth)
      returns (w: BitWidth, ty: FlexType)
      requires step >= 1
      requires AllPlaced(Strided(stack, start, step), |buf|)
      requires Addressable(|buf|, index + step * |Strided(stack, start, step)|)
      requires typed ==> OneType(Strided(stack, start, step))
      ensures w == MaxW(width, MaxWidth(Strided(stack, start, step), |buf|, index, step))
      ensures typed ==> ty == ElementType(Strided(stack, start, step))
    {
      hide ElemWidthOf, AllPlaced, MaxWidth, Addressable;
      w, ty := width, FBT_KEY;
      var i: nat, at: nat := start, index;
      ghost var all := Strided(stack, start, step);
      ghost var rest := all;
      while i < |stack|
        invariant i >= start && rest == Strided(stack, i, step) && (i == start ==> rest == all)
        invariant AllPlaced(rest, |buf|) && Addressable(|buf|, at + step * |rest|)
        invariant MaxW(w, MaxWidth(rest, |buf|, at, step)) == MaxW(width, MaxWidth(all, |buf|, index, step))
        invariant typed ==> forall k :: 0 <= k < |rest| ==> rest[k].ty == ElementType(all)
        invariant typed ==> ty == if i == start then FBT_KEY else ElementType(all)
      {
        MaxWidthUnfold(rest, |buf|, at, step);
        PlacedHead(rest, |buf|);
        var elemWidth := WidthOfElem(stack[i], at);
        w := MaxW(w, elemWidth);
        if typed {
          if i == start {
            ty := stack[i].ty;
          } else {
            assert ty == stack[i].ty;
          }
        }
        i, at := i + step, at + step;
        rest := rest[1..];
      }
      NoWidth(|buf|, at, step);
    }

    method WriteElements(start: nat, step: nat, w: BitWidth)
      requires step >= 1
      requires AllWritable(Strided(stack, start, step), |buf|) && AllFit(Strided(stack, start, step), |buf|, w)
      modifies this`buf
      ensures buf == WriteElems(old(buf), Strided(stack, start, step), ByteWidth(w))
    {
      hide AllFit, AllWritable, StoreFits, L.WriteAny, Writable, ByteWidth;
      var i: nat := start;
      ghost var all := Strided(stack, start, step);
      ghost var rest := all;
      while i < |stack|
        invariant rest == Strided(stack, i, step)
        invariant AllWritable(rest, |buf|) && AllFit(rest, |buf|, w)
        invariant WriteElems(buf, rest, ByteWidth(w)) == WriteElems(old(buf), all, ByteWidth(w))
      {
        FirstWritable(rest, |buf|, w);
        ghost var before := buf;
        WriteAny(stack[i], w);
        AllWritableTail(rest, |before|, |buf|);
        AllFitTail(rest, |before|, w, |buf|);
        i := i + step;
        rest := rest[1..];
      }
    }

    method WriteTypes(start: nat, step: nat, w: BitWidth)
      requires step >= 1
      modifies this`buf
      ensures buf == old(buf) + Types(Strided(stack, start, step), w)
    {
      hide StoredPackedType;
      var i: nat := start;
      ghost var rest := Strided(stack, start, step);
      while i < |stack|
        invariant rest == Strided(stack, i, step)
        invariant buf + Types(rest, w) == old(buf) + Types(Strided(stack, start, step), w)
      {
        TypesCons(rest, w);
        buf := buf + [StoredPackedType(stack[i], w)];
        i := i + step;
        rest := rest[1..];
      }
    }

    /** What is in front of the elements. */
    method WriteHead(vecLen: nat, shape: Shape, w: BitWidth, keys: Option<Value>, ghost e: Elements)
      requires ElementsOk(e, |buf|) && vecLen == |e.vs| && keys == e.keys
      requires keys.Some? ==> |buf| + PaddingBytes(|buf|, ByteWidth(w)) - keys.value.u < Pow256(ByteWidth(w))
      modifies this`buf
      ensures buf == VectorHead(old(buf), e, shape, w)
    {
      hide AllPlaced, AllWritable;
      var n := Align(w);
      if keys.Some? {
        WriteOffset(keys.value.u, n);
        Write(ByteWidth(keys.value.minWidth), n);
      }
      if shape != Fixed {
        Write(vecLen, n);
      }
    }

    /** The first half of CreateVector: the width that suits every element, and the type of all of them. */
    method MeasureVector(start: nat, vecLen: nat, step: nat, shape: Shape, keys: Option<Value>, ghost e: Elements)
      returns (w: BitWidth, ty: FlexType)
      requires step >= 1 && vecLen == |Strided(stack, start, step)|
      requires e == Elements(Strided(stack, start, step), start + (if keys.Some? then 3 else 1), step, keys)
      requires ElementsOk(e, |buf|) && ShapeOk(e.vs, shape)
      ensures w == VectorWidth(e, |buf|, force) && (shape != Untyped ==> ty == ElementType(e.vs))
    {
      hide AllPlaced, AllWritable, OneType, MaxWidth, ElemWidthOf, IsTypedVectorElementType, WidthU;
      ZeroIndex(e, |buf|);
      w := MaxW(force, WidthU(vecLen));
      var prefixElems := 1;
      if keys.Some? {
        var keysWidth := WidthOfElem(keys.value, 0);
        w := MaxW(w, keysWidth);
        prefixElems := prefixElems + 2;
      }
      w, ty := MeasureElements(start, step, start + prefixElems, shape != Untyped, w);
    }

    /** CreateVector: every other element for a map, each element otherwise. That the offsets fit in the
        width chosen is what WriteOffset asserts. */
    method CreateVector(start: nat, vecLen: nat, step: nat, shape: Shape, keys: Option<Value>, ghost e: Elements)
      returns (v: Value)
      requires step >= 1 && vecLen == |Strided(stack, start, step)|
      requires e == Elements(Strided(stack, start, step), start + (if keys.Some? then 3 else 1), step, keys)
      requires ElementsOk(e, |buf|) && ShapeOk(e.vs, shape)
      modifies this`buf
      ensures (buf, v) == L.CreateVector(old(buf), e, shape, force)
    {
      hide AllPlaced, AllWritable, OneType, VectorHead, VectorWidth, WriteElems, Types, AllFit, HeadWords,
           PaddingBytes, Strided, ByteWidth, Addressable, Placed;
      Prefixed(e, shape);
      ghost var b := buf;
      var w, elemType := MeasureVector(start, vecLen, step, shape, keys, e);
      if keys.Some? {
        KeysOffsetFits(b, e, force, w);
      }
      WriteHead(vecLen, shape, w, keys, e);
      ghost var head := buf;
      var at := |buf|;
      HeadWritable(b, e, shape, w, head);
      AllElementsFit(b, e, shape, force, w, head);
      WriteElements(start, step, w);
      if shape == Untyped {
        WriteTypes(start, step, w);
      }
      var ty := if keys.Some? then FBT_MAP
                else if shape == Untyped then FBT_VECTOR
                else ToTypedVector(elemType, if shape == Fixed then vecLen else 0);
      v := Value(at, ty, w);
    }

    method EndVector(start: nat, shape: Shape) returns (at: int)
      requires M.EndVector(State(), start, shape).Some?
      modifies this`buf, this`stack
      ensures Exec(old(State()), CallEndVector(start, shape)) == Some(State())
      ensures |stack| > 0 && at == stack[|stack| - 1].u
    {
      hide L.CreateVector, ElementsOk, ShapeOk;
      StridedOne(stack, start);
      var v := CreateVector(start, |stack| - start, 1, shape, None, VectorElements(State(), start));
      stack := stack[..start] + [v];
      at := v.u;
    }

    /** The comparator of EndMap's sort. */
    method KeyLess(x: Value, y: Value) returns (less: bool)
      requires CString(buf, x.u).Some? && CString(buf, y.u).Some?
      ensures less <==> LexLess(CString(buf, x.u).value, CString(buf, y.u).value)
    {
      StrcmpIsLexicographic(buf, x.u, y.u);
      less := Strcmp(buf, x.u, y.u) < 0;
    }

    /** The order of the pairs, by their keys. */
    method SortKeys(keys: seq<Value>) returns (order: seq<nat>)
      requires KeysInPlace(buf, keys)
      ensures order == Order(LexLess, KeyStrings(buf, keys), |keys|)
    {
      hide CString, LexLess;
      order := [];
      ghost var ks := KeyStrings(buf, keys);
      for i := 0 to |keys|
        invariant order == Order(LexLess, ks, i)
      {
        var at := 0;
        while at < |order|
          invariant at <= |order|
          invariant forall j :: 0 <= j < at ==> LexLess(ks[order[j]], ks[i])
        {
          var less := KeyLess(keys[order[at]], keys[i]);
          if !less { break; }
          at := at + 1;
        }
        InsertAt(LexLess, ks, i, order, at);
        order := order[..at] + [i] + order[at..];
      }
    }

    /** Sort the pairs on the stack in place. */
    method SortPairs(start: nat)
      requires start <= |stack| && (|stack| - start) % 2 == 0 && KeysInPlace(buf, Evens(stack[start..]))
      modifies this`stack
      ensures var ks := KeyStrings(buf, Evens(old(stack[start..]))); var order := Order(LexLess, ks, |ks|);
        stack == old(stack[..start]) + Interleave(Pick(Evens(old(stack[start..])), order),
                                                  Pick(Odds(old(stack[start..])), order))
    {
      hide KeysInPlace;
      var keys, vals := Evens(stack[start..]), Odds(stack[start..]);
      var order := SortKeys(keys);
      stack := stack[..start] + Interleave(Pick(keys, order), Pick(vals, order));
    }

    /** The key vector and the value vector of a map whose pairs are sorted. */
    method WriteMap(start: nat, len: nat, ghost keys: seq<Value>, ghost vals: seq<Value>) returns (v: Value)
      requires start <= |stack| && |keys| == |vals| == len && stack[start..] == Interleave(keys, vals)
      requires CreateMap(buf, start, keys, vals, force).Some?
      modifies this`buf
      ensures CreateMap(old(buf), start, keys, vals, force) == Some((buf, v))
    {
      hide L.CreateVector, ElementsOk, OneType, Strided;
      MapElements(stack, start, keys, vals);
      var keyVector := CreateVector(start, len, 2, Typed, None, Elements(keys, start + 1, 2, None));
      v := CreateVector(start + 1, len, 2, Untyped, Some(keyVector), Elements(vals, start + 4, 2, Some(keyVector)));
    }

    method EndMap(start: nat) returns (at: int)
      requires M.EndMap(State(), start).Some?
      modifies this`buf, this`stack
      ensures Exec(old(State()), CallEndMap(start)) == Some(State())
      ensures |stack| > 0 && at == stack[|stack| - 1].u
    {
      hide CreateMap, KeysInPlace, Distinct;
      var len := |stack| - start;
      len := len / 2;
      ghost var keys, vals := Evens(stack[start..]), Odds(stack[start..]);
      ghost var order := Order(LexLess, KeyStrings(buf, keys), |keys|);
      SortPairs(start);
      var v := WriteMap(start, len, Pick(keys, order), Pick(vals, order));
      stack := stack[..start] + [v];
      at := v.u;
    }

    /** Finish; a buffer is finished once, with one element left. */
    method Finish()
      requires |stack| == 1 && !finished && Writable(stack[0], |buf|) && Addressable(|buf|, 0)
      modifies this`buf, this`finished
      ensures buf == L.Finish(old(buf), stack[0]) && finished
    {
      hide StoredPackedType, ElemWidthOf, PaddingBytes, StoreFits;
      var w := WidthOfElem(stack[0], 0);
      RootFits(stack[0], |buf|, w);
      var n := Align(w);
      WriteAny(stack[0], w);
      buf := buf + [StoredPackedType(stack[0], 0)];
      buf := buf + [n];
      finished := true;
    }
  }
}
