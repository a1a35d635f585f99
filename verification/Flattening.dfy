/** Copying a strided array of any rank into a flat buffer, as the Python binding does. */
module Flattening {
  import opened Layouts

  /** The offset of an element in the strided array; strides may be negative. */
  function Offset(strides: seq<int>, ix: seq<nat>): int
    requires |strides| == |ix|
  {
    if strides == [] then 0 else strides[0] * ix[0] + Offset(strides[1..], ix[1..])
  }

  /** The element at the origin has the offset zero, and one more along a dimension is one stride more. */
  lemma {:induction false} OffsetSteps(strides: seq<int>, ix: seq<nat>, n: nat)
    requires |strides| == |ix| && n < |ix|
    ensures Offset(strides, ix[n := ix[n] + 1]) == Offset(strides, ix) + strides[n]
    ensures (forall k :: 0 <= k < |ix| ==> ix[k] == 0) ==> Offset(strides, ix) == 0
    decreases n
  {
    var more := ix[n := ix[n] + 1];
    if n == 0 {
      assert more[1..] == ix[1..];
      OriginOffset(strides, ix);
    } else {
      assert more[1..] == ix[1..][n - 1 := ix[n] + 1];
      OffsetSteps(strides[1..], ix[1..], n - 1);
    }
  }

  lemma {:induction false} OriginOffset(strides: seq<int>, ix: seq<nat>)
    requires |strides| == |ix|
    ensures (forall k :: 0 <= k < |ix| ==> ix[k] == 0) ==> Offset(strides, ix) == 0
  {
    if ix != [] {
      OriginOffset(strides[1..], ix[1..]);
    }
  }

  function OffsetAlong(offset: int, stride: int, i: nat): int {
    offset + stride * i
  }

  // ---- What is copied ---------------------------------------------------------------

  /** The elements in row-major order, from the one at `offset` on. */
  function Cells(source: int -> int, strides: seq<int>, shape: seq<nat>, offset: int): seq<int>
    requires |strides| == |shape|
    decreases |shape|, 1, 0
  {
    if shape == [] then [source(offset)] else Rows(source, strides, shape, offset, shape[0])
  }

  /** The elements whose first index is below `i`. */
  function Rows(source: int -> int, strides: seq<int>, shape: seq<nat>, offset: int, i: nat): seq<int>
    requires |strides| == |shape| && shape != []
    decreases |shape|, 0, i
  {
    if i == 0 then []
    else Rows(source, strides, shape, offset, i - 1)
         + Cells(source, strides[1..], shape[1..], OffsetAlong(offset, strides[0], i - 1))
  }

  lemma {:induction false} CellsLength(source: int -> int, strides: seq<int>, shape: seq<nat>, offset: int)
    requires |strides| == |shape|
    ensures |Cells(source, strides, shape, offset)| == Product(shape)
    decreases |shape|, 1, 0
  {
    if shape != [] {
      RowsLength(source, strides, shape, offset, shape[0]);
    }
  }

  lemma {:induction false} RowsLength(source: int -> int, strides: seq<int>, shape: seq<nat>, offset: int, i: nat)
    requires |strides| == |shape| && shape != []
    ensures |Rows(source, strides, shape, offset, i)| == i * Product(shape[1..])
    decreases |shape|, 0, i
  {
    if i > 0 {
      RowsLength(source, strides, shape, offset, i - 1);
      CellsLength(source, strides[1..], shape[1..], OffsetAlong(offset, strides[0], i - 1));
      OneMoreTime(i - 1, Product(shape[1..]));
    }
  }

  lemma OneMoreTime(i: nat, p: nat)
    ensures (i + 1) * p == i * p + p
  {
  }

  lemma {:induction false} RowsPrefix(source: int -> int, strides: seq<int>, shape: seq<nat>,
                                      offset: int, i: nat, j: nat)
    requires |strides| == |shape| && shape != [] && i <= j
    ensures Rows(source, strides, shape, offset, i) <= Rows(source, strides, shape, offset, j)
    decreases j
  {
    if i < j {
      RowsPrefix(source, strides, shape, offset, i, j - 1);
    }
  }

  /** The cell at the row-major position of a multi-index holds the element at its offset. */
  lemma {:induction false} CellAt(source: int -> int, strides: seq<int>, shape: seq<nat>, offset: int, ix: seq<nat>)
    requires |strides| == |shape| && Within(shape, ix)
    ensures var p := Dot(RowFactors(shape), ix);
            && p < |Cells(source, strides, shape, offset)|
            && Cells(source, strides, shape, offset)[p] == source(offset + Offset(strides, ix))
    decreases |shape|
  {
    CellsLength(source, strides, shape, offset);
    RowBelow(shape, ix);
    if shape != [] {
      var i := ix[0];
      var inner := OffsetAlong(offset, strides[0], i);
      CellAt(source, strides[1..], shape[1..], inner, ix[1..]);
      RowStep(shape, ix);
      RowsLength(source, strides, shape, offset, i);
      RowsPrefix(source, strides, shape, offset, i + 1, shape[0]);
      var row := Cells(source, strides[1..], shape[1..], inner);
      var p := Dot(RowFactors(shape[1..]), ix[1..]);
      assert Rows(source, strides, shape, offset, i + 1)[i * Product(shape[1..]) + p] == row[p];
    }
  }

  // ---- When it succeeds -------------------------------------------------------------

  /** No element has a negative offset. */
  ghost predicate NoNegative(strides: seq<int>, shape: seq<nat>, offset: int)
    requires |strides| == |shape|
  {
    forall ix :: Within(shape, ix) ==> offset + Offset(strides, ix) >= 0
  }

  lemma NoNegativeLeaf(offset: int)
    ensures NoNegative([], [], offset) <==> offset >= 0
  {
    assert Within([], []) && Offset([], []) == 0;
  }

  ghost predicate NoNegativeBelow(strides: seq<int>, shape: seq<nat>, offset: int, i: nat)
    requires |strides| == |shape| && shape != []
  {
    forall ix :: Within(shape, ix) && ix[0] < i ==> offset + Offset(strides, ix) >= 0
  }

  lemma NoNegativeRow(strides: seq<int>, shape: seq<nat>, offset: int, i: nat)
    requires |strides| == |shape| && shape != [] && i < shape[0]
    ensures NoNegativeBelow(strides, shape, offset, i + 1)
       <==> NoNegativeBelow(strides, shape, offset, i)
            && NoNegative(strides[1..], shape[1..], OffsetAlong(offset, strides[0], i))
  {
    if NoNegativeBelow(strides, shape, offset, i + 1) {
      forall kx | Within(shape[1..], kx)
        ensures OffsetAlong(offset, strides[0], i) + Offset(strides[1..], kx) >= 0
      {
        var ix := [i] + kx;
        assert ix[1..] == kx && Within(shape, ix);
        assert offset + Offset(strides, ix) >= 0;
      }
    }
    if NoNegative(strides[1..], shape[1..], OffsetAlong(offset, strides[0], i)) {
      forall ix | Within(shape, ix) && ix[0] == i
        ensures offset + Offset(strides, ix) >= 0
      {
        assert OffsetAlong(offset, strides[0], i) + Offset(strides[1..], ix[1..]) >= 0;
      }
    }
  }

  // ---- Which cells are written ------------------------------------------------------

  /** `n` numbers from `first` on. */
  function Range(first: nat, n: nat): seq<nat> {
    if n == 0 then [] else Range(first, n - 1) + [first + n - 1]
  }

  lemma {:induction false} RangeJoin(first: nat, m: nat, n: nat)
    ensures Range(first, m) + Range(first + m, n) == Range(first, m + n)
  {
    if n == 0 {
      assert Range(first, m) + [] == Range(first, m);
    } else {
      RangeJoin(first, m, n - 1);
    }
  }

  // ---- The loops --------------------------------------------------------------------

  lemma {:induction false} OffsetOneMore(strides: seq<int>, ix: seq<nat>, s: int, i: nat)
    requires |strides| == |ix|
    ensures Offset(strides + [s], ix + [i]) == Offset(strides, ix) + s * i
    decreases |strides|
  {
    if strides == [] {
      assert strides + [s] == [s] && ix + [i] == [i];
      assert Offset([s], [i]) == s * i + Offset([s][1..], [i][1..]);
    } else {
      assert (strides + [s])[1..] == strides[1..] + [s] && (ix + [i])[1..] == ix[1..] + [i];
      OffsetOneMore(strides[1..], ix[1..], s, i);
    }
  }

  method CalculateOffset(strides: seq<int>, indices: array<nat>) returns (acc: int)
    requires indices.Length == |strides|
    ensures acc == Offset(strides, indices[..])
  {
    acc := 0;
    var n := 0;
    while n < |strides|
      invariant n <= |strides| && acc == Offset(strides[..n], indices[..n])
    {
      OffsetOneMore(strides[..n], indices[..n], strides[n], indices[n]);
      assert strides[..n + 1] == strides[..n] + [strides[n]] && indices[..n + 1] == indices[..n] + [indices[n]];
      acc := acc + strides[n] * indices[n];
      n := n + 1;
    }
    assert strides[..n] == strides && indices[..n] == indices[..];
  }

  method CalculateIndex(factors: seq<nat>, indices: array<nat>) returns (acc: nat)
    requires indices.Length == |factors|
    ensures acc == Dot(factors, indices[..])
  {
    acc := 0;
    var n := 0;
    while n < |factors|
      invariant n <= |factors| && acc == Dot(factors[..n], indices[..n])
    {
      DotOneMore(factors[..n], indices[..n], factors[n], indices[n]);
      assert factors[..n + 1] == factors[..n] + [factors[n]] && indices[..n + 1] == indices[..n] + [indices[n]];
      acc := acc + factors[n] * indices[n];
      n := n + 1;
    }
    assert factors[..n] == factors && indices[..n] == indices[..];
  }

  /** The number of elements. */
  method GetSize(shape: seq<nat>) returns (result: nat)
    ensures result == Product(shape)
  {
    result := 1;
    var n := 0;
    while n < |shape|
      invariant n <= |shape| && result == Product(shape[..n])
    {
      ProductOneMore(shape[..n], shape[n]);
      assert shape[..n + 1] == shape[..n] + [shape[n]];
      result := result * shape[n];
      n := n + 1;
    }
    assert shape[..n] == shape;
  }

  /** The product of the last `dim` sizes. */
  method TailProduct(shape: seq<nat>, dim: nat) returns (product: nat)
    requires dim <= |shape|
    ensures product == Product(shape[|shape| - dim..])
  {
    product := 1;
    var n := 0;
    while n < dim
      invariant n <= dim && product == Product(shape[|shape| - n..])
    {
      var d := shape[|shape| - n - 1];
      ProductOneMore(shape[|shape| - n..], d);
      assert shape[|shape| - n - 1..] == [d] + shape[|shape| - n..];
      product := product * d;
      n := n + 1;
    }
  }

  /** The factor of each dimension, from the last to the first: the row-major factors. */
  method MakeFactors(shape: seq<nat>) returns (result: seq<nat>)
    ensures result == RowFactors(shape)
  {
    var factors := new nat[|shape|];
    var at := |shape|;
    while at > 0
      invariant 0 <= at <= |shape| && factors[at..] == RowFactors(shape[at..])
    {
      var product := TailProduct(shape, |shape| - at);
      ghost var done := factors[at..];
      at := at - 1;
      factors[at] := product;
      assert factors[at..] == [product] + done;
      assert shape[at..][1..] == shape[at + 1..];
    }
    assert factors[0..] == factors[..] && shape[0..] == shape;
    result := factors[..];
  }

  /** The state of the copy: the indices of the dimensions entered so far, and the current one. */
  class Flattener {
    const shape: seq<nat>
    const strides: seq<int>
    const factors: seq<nat>
    const indices: array<nat>
    const source: int -> int
    var cur: nat
    ghost var written: seq<nat>

    ghost predicate Valid()
      reads this, indices
    {
      && |strides| == |factors| == indices.Length == |shape| && cur < |shape|
      && factors == RowFactors(shape) && Within(shape[..cur], indices[..cur])
    }

    /** Where in the flat buffer and in the strided array the elements entered begin. */
    ghost predicate Stands(n: nat, position: nat, offset: int)
      requires |strides| == |factors| == indices.Length && n <= |strides|
      reads indices
    {
      position == Dot(factors[..n], indices[..n]) && offset == Offset(strides[..n], indices[..n])
    }

    constructor (shape: seq<nat>, strides: seq<int>, source: int -> int)
      requires 1 <= |shape| == |strides|
      ensures this.shape == shape && this.strides == strides && this.source == source
      ensures Valid() && cur == 0 && written == [] && fresh(indices) && Stands(0, 0, 0)
    {
      var fs := MakeFactors(shape);
      this.shape, this.strides, this.source, this.cur, this.written := shape, strides, source, 0, [];
      this.factors := fs;
      indices := new nat[|shape|];
    }

    lemma Entered(i: nat, position: nat, offset: int)
      requires Valid() && Stands(cur, position, offset) && i < shape[cur] && indices[cur] == i
      ensures Within(shape[..cur + 1], indices[..cur + 1])
      ensures Stands(cur + 1, position + factors[cur] * i, OffsetAlong(offset, strides[cur], i))
      ensures cur + 1 == |shape| ==> Within(shape, indices[..]) && factors[..cur + 1] == factors
                                     && strides[..cur + 1] == strides && indices[..cur + 1] == indices[..]
    {
      var n := cur;
      assert shape[..n + 1][..n] == shape[..n] && indices[..n + 1][..n] == indices[..n];
      assert shape[..n + 1][n..] == [shape[n]] && indices[..n + 1][n..] == [i];
      assert Within([shape[n]], [i]) by { assert Within([shape[n]][1..], [i][1..]); }
      WithinSplit(shape[..n + 1], indices[..n + 1], n);
      DotOneMore(factors[..n], indices[..n], factors[n], i);
      OffsetOneMore(strides[..n], indices[..n], strides[n], i);
      assert factors[..n + 1] == factors[..n] + [factors[n]] && indices[..n + 1] == indices[..n] + [i];
      assert strides[..n + 1] == strides[..n] + [strides[n]];
      if n + 1 == |shape| {
        assert indices[..n + 1] == indices[..] && shape[..n + 1] == shape;
      }
    }

    lemma EnteredAt(i: nat, position: nat, offset: int, at: nat, inner: int)
      requires Valid() && Stands(cur, position, offset) && i < shape[cur] && indices[cur] == i
      requires at == position + i * Product(shape[cur..][1..]) && inner == OffsetAlong(offset, strides[cur], i)
      ensures Within(shape[..cur + 1], indices[..cur + 1]) && Stands(cur + 1, at, inner)
      ensures shape[cur..][1..] == shape[cur + 1..] && strides[cur..][1..] == strides[cur + 1..]
      ensures cur + 1 == |shape| ==> && at == Dot(factors, indices[..]) && inner == Offset(strides, indices[..])
                                     && shape[cur + 1..] == [] && strides[cur + 1..] == []
    {
      Entered(i, position, offset);
      RowFactorsAt(shape, cur);
      assert shape[cur..][1..] == shape[cur + 1..];
      assert factors[cur] * i == i * Product(shape[cur + 1..]);
    }

    /** Copies the elements whose first indices are those entered. It throws at the first element
        with a negative offset. */
    method Flatten(out: array<int>, ghost position: nat, ghost offset: int) returns (ok: bool)
      requires Valid() && Stands(cur, position, offset)
      requires position + Product(shape[cur..]) <= out.Length == Product(shape)
      modifies this`cur, this`written, indices, out
      ensures ok <==> NoNegative(strides[old(cur)..], shape[old(cur)..], offset)
      ensures ok ==> Valid() && cur == old(cur) && indices[..cur] == old(indices[..cur])
      ensures ok ==> Filled(source, strides[old(cur)..], shape[old(cur)..], position, offset,
                            old(out[..]), out[..], old(written), written)
      decreases |shape| - cur, 2
    {
      ghost var ds, ss, src := shape[cur..], strides[cur..], source;
      ghost var before, log := out[..], written;
      var ix := 0;
      Nothing(src, ss, ds, position, offset, before, log);
      while ix < shape[cur]
        invariant Valid() && cur == old(cur) && indices[..cur] == old(indices[..cur]) && ix <= shape[cur]
        invariant FilledUpTo(src, ss, ds, position, offset, before, out[..], log, written, ix)
      {
        ok := NextRow(out, ix, position, offset, before, log);
        if !ok {
          return;
        }
        ix := ix + 1;
      }
      ok := true;
    }

    /** One more row, after those that have been copied. */
    method NextRow(out: array<int>, ix: nat, ghost position: nat, ghost offset: int,
                   ghost before: seq<int>, ghost log: seq<nat>) returns (ok: bool)
      requires Valid() && Stands(cur, position, offset) && ix < shape[cur]
      requires position + Product(shape[cur..]) <= out.Length == Product(shape)
      requires FilledUpTo(source, strides[cur..], shape[cur..], position, offset, before, out[..], log, written, ix)
      modifies this`cur, this`written, indices, out
      ensures !ok ==> !NoNegative(strides[old(cur)..], shape[old(cur)..], offset)
      ensures ok ==> Valid() && cur == old(cur) && indices[..cur] == old(indices[..cur])
      ensures ok ==> FilledUpTo(source, strides[old(cur)..], shape[old(cur)..], position, offset,
                                before, out[..], log, written, ix + 1)
      decreases |shape| - cur, 1
    {
      ghost var ds, ss, src := shape[cur..], strides[cur..], source;
      ghost var middle, logged := out[..], written;
      ghost var at := RowStart(ds, position, ix, out.Length);
      ghost var inner := OffsetAlong(offset, ss[0], ix);
      ok := FlattenRow(out, ix, position, offset, at, inner);
      if ok {
        OneRow(src, ss, ds, position, offset, before, middle, out[..], log, logged, written, ix, at, inner);
      } else {
        NoNegativeRow(ss, ds, offset, ix);
      }
    }

    method FlattenRow(out: array<int>, ix: nat, ghost position: nat, ghost offset: int, ghost at: nat, ghost inner: int)
      returns (ok: bool)
      requires Valid() && Stands(cur, position, offset) && ix < shape[cur] && out.Length == Product(shape)
      requires at == position + ix * Product(shape[cur..][1..]) && inner == OffsetAlong(offset, strides[cur], ix)
      requires at + Product(shape[cur..][1..]) <= out.Length
      modifies this`cur, this`written, indices, out
      ensures ok <==> NoNegative(strides[old(cur)..][1..], shape[old(cur)..][1..], inner)
      ensures ok ==> Valid() && cur == old(cur) && indices[..cur] == old(indices[..cur])
      ensures ok ==> Filled(source, strides[old(cur)..][1..], shape[old(cur)..][1..], at, inner,
                            old(out[..]), out[..], old(written), written)
      decreases |shape| - cur, 0
    {
      indices[cur] := ix;
      assert indices[..cur] == old(indices[..cur]);
      EnteredAt(ix, position, offset, at, inner);
      if cur == |shape| - 1 {
        NoNegativeLeaf(inner);
        ok := FlattenLeaf(out, at, inner);
      } else {
        cur := cur + 1;
        ok := Flatten(out, at, inner);
        if ok {
          assert indices[..cur][..cur - 1] == indices[..cur - 1];
          cur := cur - 1;
        }
      }
    }

    method FlattenLeaf(out: array<int>, ghost at: nat, ghost inner: int) returns (ok: bool)
      requires |strides| == |factors| == indices.Length
      requires at == Dot(factors, indices[..]) < out.Length && inner == Offset(strides, indices[..])
      modifies this`written, out
      ensures ok <==> inner >= 0
      ensures ok ==> Filled(source, [], [], at, inner, old(out[..]), out[..], old(written), written)
    {
      var offset := CalculateOffset(strides, indices);
      if offset < 0 {
        return false;
      }
      var index := CalculateIndex(factors, indices);
      out[index] := source(offset);
      written := written + [index];
      assert Range(index, 1) == Range(index, 0) + [index];
      ok := true;
    }
  }

  /** The elements have been copied in row-major order to the cells from `position` on, one write a
      cell, in that order. */
  ghost predicate Filled(source: int -> int, strides: seq<int>, shape: seq<nat>, position: nat, offset: int,
                         before: seq<int>, after: seq<int>, log: seq<nat>, written: seq<nat>)
    requires |strides| == |shape|
  {
    && Copied(before, after, position, Cells(source, strides, shape, offset))
    && written == log + Range(position, Product(shape))
  }

  ghost predicate FilledUpTo(source: int -> int, strides: seq<int>, shape: seq<nat>, position: nat, offset: int,
                             before: seq<int>, after: seq<int>, log: seq<nat>, written: seq<nat>, i: nat)
    requires |strides| == |shape| && shape != []
  {
    && NoNegativeBelow(strides, shape, offset, i)
    && Copied(before, after, position, Rows(source, strides, shape, offset, i))
    && written == log + Range(position, i * Product(shape[1..]))
  }

  lemma Nothing(source: int -> int, strides: seq<int>, shape: seq<nat>, position: nat, offset: int,
                before: seq<int>, log: seq<nat>)
    requires |strides| == |shape| && shape != [] && position <= |before|
    ensures FilledUpTo(source, strides, shape, position, offset, before, before, log, log, 0)
  {
    assert before[position..position] == [];
    assert log + [] == log;
  }

  lemma OneRow(source: int -> int, strides: seq<int>, shape: seq<nat>, position: nat, offset: int,
               before: seq<int>, middle: seq<int>, after: seq<int>,
               log: seq<nat>, logged: seq<nat>, written: seq<nat>, i: nat, at: nat, inner: int)
    requires |strides| == |shape| && shape != [] && i < shape[0]
    requires FilledUpTo(source, strides, shape, position, offset, before, middle, log, logged, i)
    requires at == position + i * Product(shape[1..]) && inner == OffsetAlong(offset, strides[0], i)
    requires NoNegative(strides[1..], shape[1..], inner)
    requires Filled(source, strides[1..], shape[1..], at, inner, middle, after, logged, written)
    ensures FilledUpTo(source, strides, shape, position, offset, before, after, log, written, i + 1)
  {
    var p := Product(shape[1..]);
    NoNegativeRow(strides, shape, offset, i);
    RowsLength(source, strides, shape, offset, i);
    CopiedMore(before, middle, after, position, Rows(source, strides, shape, offset, i),
               Cells(source, strides[1..], shape[1..], inner));
    RangeJoin(position, i * p, p);
    OneMoreTime(i, p);
    Appending(log, Range(position, i * p), Range(at, p));
  }

  lemma RowStart(shape: seq<nat>, position: nat, i: nat, length: nat) returns (at: nat)
    requires shape != [] && i < shape[0] && position + Product(shape) <= length
    ensures at == position + i * Product(shape[1..]) && at + Product(shape[1..]) <= length
  {
    at := position + i * Product(shape[1..]);
    OneMoreTime(i, Product(shape[1..]));
    MulMono(i + 1, shape[0], Product(shape[1..]));
  }

  /** The cells from `position` on are these, and those before it are as they were. */
  ghost predicate Copied(before: seq<int>, after: seq<int>, position: nat, cells: seq<int>) {
    && |before| == |after| && position + |cells| <= |after|
    && after[..position] == before[..position]
    && after[position..position + |cells|] == cells
  }

  lemma CopiedMore(before: seq<int>, middle: seq<int>, after: seq<int>, position: nat, xs: seq<int>, ys: seq<int>)
    requires Copied(before, middle, position, xs) && Copied(middle, after, position + |xs|, ys)
    ensures Copied(before, after, position, xs + ys)
  {
    var n := position + |xs|;
    assert after[..position] == after[..n][..position] == middle[..n][..position] == middle[..position];
    assert after[position..n] == after[..n][position..] == middle[..n][position..] == middle[position..n];
    assert after[position..n + |ys|] == after[position..n] + after[n..n + |ys|];
  }

  lemma Appending(a: seq<nat>, b: seq<nat>, c: seq<nat>)
    ensures a + b + c == a + (b + c)
  {
  }

  /** Copies a whole array: every cell is written exactly once, in order, and the cell at the
      row-major position of a multi-index holds the element at that index's offset. */
  method FlattenAll(shape: seq<nat>, strides: seq<int>, source: int -> int)
    returns (ok: bool, out: array<int>, ghost written: seq<nat>)
    requires 1 <= |shape| == |strides|
    ensures ok <==> NoNegative(strides, shape, 0)
    ensures ok ==> out.Length == Product(shape) && written == Range(0, Product(shape))
    ensures ok ==> forall ix :: Within(shape, ix) ==>
              var p := Dot(RowFactors(shape), ix); p < out.Length && out[p] == source(Offset(strides, ix))
  {
    var size := GetSize(shape);
    out := new int[size];
    var f := new Flattener(shape, strides, source);
    assert shape[0..] == shape && strides[0..] == strides;
    ok := f.Flatten(out, 0, 0);
    written := f.written;
    if ok {
      CellsLength(source, strides, shape, 0);
      assert out[0..0 + Product(shape)] == out[..];
      assert [] + Range(0, Product(shape)) == Range(0, Product(shape));
      forall ix | Within(shape, ix)
        ensures var p := Dot(RowFactors(shape), ix); p < out.Length && out[p] == source(Offset(strides, ix))
      {
        CellAt(source, strides, shape, 0, ix);
        assert out[..][Dot(RowFactors(shape), ix)] == source(0 + Offset(strides, ix));
      }
    }
  }
}
