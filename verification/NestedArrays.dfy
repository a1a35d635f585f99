/** Integer vectors printed as nested arrays by their layout, and read back. */
module NestedArrays {
  import opened Options
  import opened JsonStrings
  import opened Json
  import opened JsonSyntax
  import opened Integers
  import opened Layouts

  function At(values: seq<int>, i: nat): int {
    if i < |values| then values[i] else 0
  }

  function Along(base: nat, w: nat, i: nat): nat {
    base + w * i
  }

  // ---- The printed document ---------------------------------------------------------

  /** The document printed for the elements whose first indices contribute `base` to their position;
      `ws` and `dims` are the factors and sizes of the remaining dimensions. */
  function Nested(values: seq<int>, ws: seq<nat>, dims: seq<nat>, base: nat): Tree
    requires |ws| == |dims|
    decreases |dims|, 2, 0
  {
    if dims == [] then Num(Decimal(At(values, base))) else Arr([], Elements(values, ws, dims, base, 0))
  }

  /** The elements of the first remaining dimension from the i-th on. */
  function Elements(values: seq<int>, ws: seq<nat>, dims: seq<nat>, base: nat, i: nat): Elems
    requires |ws| == |dims| && dims != [] && i <= dims[0]
    decreases |dims|, 1, dims[0] - i
  {
    if i == dims[0] then NoElems
    else Elem(if i == 0 then [] else [' '], Nested(values, ws[1..], dims[1..], Along(base, ws[0], i)), [],
              Elements(values, ws, dims, base, i + 1))
  }

  /** What is still to be printed of an array before its i-th element, followed by `k`. */
  function Rest(values: seq<int>, ws: seq<nat>, dims: seq<nat>, base: nat, i: nat, k: string): string
    requires |ws| == |dims| && dims != [] && i <= dims[0]
  {
    if i == dims[0] then [']'] + k
    else (if i == 0 then [] else [',']) + ElemsText(Elements(values, ws, dims, base, i), k)
  }

  lemma RestStep(values: seq<int>, ws: seq<nat>, dims: seq<nat>, base: nat, i: nat, k: string)
    requires |ws| == |dims| && dims != [] && i < dims[0]
    ensures Rest(values, ws, dims, base, i, k)
         == (if i == 0 then [] else [',', ' '])
            + Text(Nested(values, ws[1..], dims[1..], Along(base, ws[0], i)), Rest(values, ws, dims, base, i + 1, k))
  {
    var es := Elements(values, ws, dims, base, i);
    var rest := Rest(values, ws, dims, base, i + 1, k);
    assert rest == if es.more.NoElems? then [']'] + k else [','] + ElemsText(es.more, k);
    assert [] + rest == rest;
    var text := Text(es.value, rest);
    assert ElemsText(es, k) == es.before + text;
    assert [','] + ([' '] + text) == [',', ' '] + text;
    assert [] + ([] + text) == [] + text;
  }

  lemma RestIsText(values: seq<int>, ws: seq<nat>, dims: seq<nat>, base: nat, k: string)
    requires |ws| == |dims| && dims != []
    ensures Text(Nested(values, ws, dims, base), k) == ['['] + Rest(values, ws, dims, base, 0, k)
  {
    var es := Elements(values, ws, dims, base, 0);
    assert [] + ([']'] + k) == [']'] + k;
    if es.Elem? {
      assert [] + ElemsText(es, k) == ElemsText(es, k);
    }
  }

  /** `s` is the text of the tree, whatever follows it. */
  ghost predicate Prints(s: string, t: Tree) {
    forall k :: s + k == Text(t, k)
  }

  lemma PrintsMore(s: string, item: string, values: seq<int>, ws: seq<nat>, dims: seq<nat>,
                   base: nat, i: nat, k: string)
    requires |ws| == |dims| && dims != [] && i < dims[0]
    requires s + Rest(values, ws, dims, base, i, k) == Text(Nested(values, ws, dims, base), k)
    requires Prints(item, Nested(values, ws[1..], dims[1..], Along(base, ws[0], i)))
    ensures s + (if i == 0 then [] else [',', ' ']) + item + Rest(values, ws, dims, base, i + 1, k)
         == Text(Nested(values, ws, dims, base), k)
  {
    RestStep(values, ws, dims, base, i, k);
    var rest := Rest(values, ws, dims, base, i + 1, k);
    assert item + rest == Text(Nested(values, ws[1..], dims[1..], Along(base, ws[0], i)), rest);
    Appended(s, if i == 0 then [] else [',', ' '], item + rest);
    Appended(s + (if i == 0 then [] else [',', ' ']), item, rest);
  }

  // ---- What a document holds --------------------------------------------------------

  /** The element of an array, if it is there and a number or an array as wanted. */
  predicate HasItem(node: Json, i: nat, wantsArray: bool) {
    node.Array? && i < |node.items| && (if wantsArray then node.items[i].Array? else node.items[i].Number?)
  }

  /** Whether the i-th element of an array can be read for these dimensions, which asks of a number
      only that its conversion reports success. */
  predicate LoadableItem(t: IntType, node: Json, dims: seq<nat>, i: nat)
    requires dims != []
    decreases |dims|, 0
  {
    if |dims| == 1 then HasItem(node, i, false) && IsPassed(t, node.items[i].text)
    else HasItem(node, i, true) && |node.items| == dims[0] && Loadable(t, node.items[i], dims[1..])
  }

  predicate Loadable(t: IntType, node: Json, dims: seq<nat>)
    requires dims != []
    decreases |dims|, 1
  {
    forall i :: 0 <= i < dims[0] ==> LoadableItem(t, node, dims, i)
  }

  /** What the number at a place in a nested array is converted to. */
  function ValueAt(t: IntType, node: Json, ix: seq<nat>): int {
    if ix == [] then
      (if node.Number? && FromText(t, node.text).Some? then FromText(t, node.text).value else 0)
    else if node.Array? && ix[0] < |node.items| then ValueAt(t, node.items[ix[0]], ix[1..])
    else 0
  }

  /** The integer that the number at a place denotes. */
  function IntegerAt(node: Json, ix: seq<nat>): Option<int> {
    if ix == [] then (if node.Number? then IntegerOf(node.text) else None)
    else if node.Array? && ix[0] < |node.items| then IntegerAt(node.items[ix[0]], ix[1..])
    else None
  }

  /** The buffer has each number of the document at the place of its element. */
  ghost predicate Holds(t: IntType, node: Json, ws: seq<nat>, dims: seq<nat>, base: nat, b: seq<int>)
    requires |ws| == |dims|
  {
    forall ix :: Within(dims, ix) ==> At(b, base + Dot(ws, ix)) == ValueAt(t, node, ix)
  }

  /** The buffer has the integers of the document, as written. */
  ghost predicate HoldsIntegers(node: Json, ws: seq<nat>, dims: seq<nat>, b: seq<int>)
    requires |ws| == |dims|
  {
    forall ix :: Within(dims, ix) ==> IntegerAt(node, ix) == Some(At(b, 0 + Dot(ws, ix)))
  }

  /** All integers of the document are of the type. */
  ghost predicate IntegersFit(t: IntType, node: Json, dims: seq<nat>) {
    forall ix :: Within(dims, ix) ==> FitsAt(t, node, ix)
  }

  predicate FitsAt(t: IntType, node: Json, ix: seq<nat>) {
    IntegerAt(node, ix).Some? && InRange(t, IntegerAt(node, ix).value)
  }

  /** In a document that can be loaded every number is an integer; it is kept if it fits, and else
      replaced by another value, as it went unnoticed. */
  lemma {:induction false} LoadableAt(t: IntType, node: Json, dims: seq<nat>, ix: seq<nat>)
    requires dims != [] && Loadable(t, node, dims) && Within(dims, ix)
    ensures IntegerAt(node, ix).Some?
    ensures ValueAt(t, node, ix)
         == if FitsAt(t, node, ix) then IntegerAt(node, ix).value else PassedFor(t, IntegerAt(node, ix).value)
    ensures IntegerAt(node, ix) == Some(ValueAt(t, node, ix)) <==> FitsAt(t, node, ix)
    decreases |dims|
  {
    assert LoadableItem(t, node, dims, ix[0]);
    if |dims| == 1 {
      assert ix[1..] == [];
      NumberAt(t, node.items[ix[0]].text);
    } else {
      LoadableAt(t, node.items[ix[0]], dims[1..], ix[1..]);
    }
  }

  lemma NumberAt(t: IntType, text: string)
    requires IsPassed(t, text)
    ensures var v := IntegerOf(text).value;
            && FromText(t, text) == Some(if InRange(t, v) then v else PassedFor(t, v))
            && (FromText(t, text) == Some(v) <==> InRange(t, v))
  {
    PassedExactly(t, text);
  }

  /** A buffer that holds what the numbers are converted to holds the integers themselves exactly when
      all of them fit. */
  lemma KeepsIntegers(t: IntType, node: Json, ws: seq<nat>, dims: seq<nat>, b: seq<int>)
    requires |ws| == |dims| && dims != [] && Loadable(t, node, dims) && Holds(t, node, ws, dims, 0, b)
    ensures HoldsIntegers(node, ws, dims, b) <==> IntegersFit(t, node, dims)
  {
    forall ix | Within(dims, ix)
      ensures IntegerAt(node, ix) == Some(At(b, 0 + Dot(ws, ix))) <==> FitsAt(t, node, ix)
    {
      LoadableAt(t, node, dims, ix);
    }
  }

  /** An element of an array, or nothing in particular. */
  function ItemAt(node: Json, i: nat): Json {
    if node.Array? && i < |node.items| then node.items[i] else Null
  }

  /** The buffer after the numbers of the document have been written to it in order. */
  function Stored(t: IntType, node: Json, ws: seq<nat>, dims: seq<nat>, base: nat, buffer: seq<int>): (r: seq<int>)
    requires |ws| == |dims|
    ensures |r| == |buffer|
    decreases |dims|, 1, 0
  {
    if dims == [] then (if base < |buffer| then buffer[base := ValueAt(t, node, [])] else buffer)
    else StoredUpTo(t, node, ws, dims, base, buffer, dims[0])
  }

  /** The same after the elements below the i-th of the first dimension. */
  function StoredUpTo(t: IntType, node: Json, ws: seq<nat>, dims: seq<nat>, base: nat, buffer: seq<int>, i: nat)
    : (r: seq<int>)
    requires |ws| == |dims| && dims != []
    ensures |r| == |buffer|
    decreases |dims|, 0, i
  {
    if i == 0 then buffer
    else Stored(t, ItemAt(node, i - 1), ws[1..], dims[1..], Along(base, ws[0], i - 1),
                StoredUpTo(t, node, ws, dims, base, buffer, i - 1))
  }

  /** Some element has this place. */
  ghost predicate Reached(ws: seq<nat>, dims: seq<nat>, base: nat, p: nat)
    requires |ws| == |dims|
  {
    exists ix :: Within(dims, ix) && base + Dot(ws, ix) == p
  }

  ghost predicate ReachedUpTo(ws: seq<nat>, dims: seq<nat>, base: nat, p: nat, i: nat)
    requires |ws| == |dims| && dims != []
  {
    exists ix :: Within(dims, ix) && ix[0] < i && base + Dot(ws, ix) == p
  }

  lemma ReachedMore(ws: seq<nat>, dims: seq<nat>, base: nat, p: nat, i: nat)
    requires |ws| == |dims| && dims != [] && i < dims[0]
    ensures ReachedUpTo(ws, dims, base, p, i + 1)
       <==> ReachedUpTo(ws, dims, base, p, i) || Reached(ws[1..], dims[1..], Along(base, ws[0], i), p)
  {
    if Reached(ws[1..], dims[1..], Along(base, ws[0], i), p) {
      var kx :| Within(dims[1..], kx) && Along(base, ws[0], i) + Dot(ws[1..], kx) == p;
      var ix := [i] + kx;
      assert ix[1..] == kx;
      assert Within(dims, ix) && ix[0] < i + 1 && base + Dot(ws, ix) == p;
    }
    if ReachedUpTo(ws, dims, base, p, i + 1) && !ReachedUpTo(ws, dims, base, p, i) {
      var ix :| Within(dims, ix) && ix[0] < i + 1 && base + Dot(ws, ix) == p;
      assert Within(dims[1..], ix[1..]) && Along(base, ws[0], i) + Dot(ws[1..], ix[1..]) == p;
    }
  }

  lemma Under(t: IntType, node: Json, ws: seq<nat>, dims: seq<nat>, ix: seq<nat>)
    requires |ws| == |dims| && dims != [] && Within(dims, ix)
    ensures Dot(ws, ix) == ws[0] * ix[0] + Dot(ws[1..], ix[1..])
    ensures ValueAt(t, node, ix) == ValueAt(t, ItemAt(node, ix[0]), ix[1..])
  {
    if !(node.Array? && ix[0] < |node.items|) {
      NoValue(t, ix[1..]);
    }
  }

  lemma NoValue(t: IntType, ix: seq<nat>)
    ensures ValueAt(t, Null, ix) == 0
  {
  }

  /** A buffer that holds a document holds each element of it. */
  lemma ItemOf(t: IntType, node: Json, ws: seq<nat>, dims: seq<nat>, base: nat, b: seq<int>, i: nat)
    requires |ws| == |dims| && dims != [] && Holds(t, node, ws, dims, base, b) && i < dims[0]
    ensures Holds(t, ItemAt(node, i), ws[1..], dims[1..], Along(base, ws[0], i), b)
  {
    forall kx | Within(dims[1..], kx)
      ensures At(b, Along(base, ws[0], i) + Dot(ws[1..], kx)) == ValueAt(t, ItemAt(node, i), kx)
    {
      var ix := [i] + kx;
      assert ix[1..] == kx;
      assert Within(dims, ix);
      Under(t, node, ws, dims, ix);
    }
  }

  /** If a buffer `b` holds the document, writing brings its contents to every place that an element
      has, and leaves the other places alone. */
  lemma {:induction false} StoredAt(t: IntType, node: Json, ws: seq<nat>, dims: seq<nat>, base: nat,
                                    buffer: seq<int>, b: seq<int>, p: nat)
    requires |ws| == |dims| && Holds(t, node, ws, dims, base, b) && p < |buffer| == |b|
    ensures Stored(t, node, ws, dims, base, buffer)[p] == if Reached(ws, dims, base, p) then b[p] else buffer[p]
    decreases |dims|, 1, 0
  {
    if dims == [] {
      assert Within([], []) && Dot([], []) == 0;
      assert At(b, base + Dot([], [])) == ValueAt(t, node, []);
    } else {
      StoredUpToAt(t, node, ws, dims, base, buffer, b, p, dims[0]);
      assert Reached(ws, dims, base, p) <==> ReachedUpTo(ws, dims, base, p, dims[0]);
    }
  }

  lemma {:induction false} StoredUpToAt(t: IntType, node: Json, ws: seq<nat>, dims: seq<nat>, base: nat,
                                        buffer: seq<int>, b: seq<int>, p: nat, i: nat)
    requires |ws| == |dims| && dims != [] && i <= dims[0]
    requires Holds(t, node, ws, dims, base, b) && p < |buffer| == |b|
    ensures StoredUpTo(t, node, ws, dims, base, buffer, i)[p]
         == if ReachedUpTo(ws, dims, base, p, i) then b[p] else buffer[p]
    decreases |dims|, 0, i
  {
    if i > 0 {
      var before := StoredUpTo(t, node, ws, dims, base, buffer, i - 1);
      StoredUpToAt(t, node, ws, dims, base, buffer, b, p, i - 1);
      ItemOf(t, node, ws, dims, base, b, i - 1);
      StoredAt(t, ItemAt(node, i - 1), ws[1..], dims[1..], Along(base, ws[0], i - 1), before, b, p);
      ReachedMore(ws, dims, base, p, i - 1);
    }
  }

  /** No element is outside a buffer of this size. */
  ghost predicate InBounds(ws: seq<nat>, dims: seq<nat>, size: nat)
    requires |ws| == |dims|
  {
    forall ix :: Within(dims, ix) ==> Dot(ws, ix) < size
  }

  /** The state of a traversal: the indices of the dimensions entered so far, and the current one. */
  class Geometry {
    const order: Order
    const dims: seq<nat>
    const indices: array<nat>
    var cur: nat

    ghost predicate Valid()
      reads this, indices
    {
      indices.Length == |dims| && cur < |dims| && Within(dims[..cur], indices[..cur])
    }

    ghost function Ws(): (ws: seq<nat>)
      ensures |ws| == |dims|
    {
      Factors(order, dims)
    }

    /** What the indices entered so far contribute to the position. */
    ghost function Base(): nat
      requires Valid()
      reads this, indices
    {
      Dot(Ws()[..cur], indices[..cur])
    }

    constructor (order: Order, dims: seq<nat>)
      requires dims != []
      ensures this.order == order && this.dims == dims && cur == 0 && Valid() && fresh(indices)
    {
      this.order, this.dims, this.cur := order, dims, 0;
      indices := new nat[|dims|];
    }

    lemma Entered(i: nat)
      requires Valid() && i < dims[cur] && indices[cur] == i
      ensures Within(dims[..cur + 1], indices[..cur + 1])
      ensures Dot(Ws()[..cur + 1], indices[..cur + 1]) == Along(Base(), Ws()[cur], i)
      ensures cur + 1 == |dims| ==> Within(dims, indices[..]) && Dot(Ws(), indices[..]) == Along(Base(), Ws()[cur], i)
    {
      var n := cur;
      assert dims[..n + 1][..n] == dims[..n] && indices[..n + 1][..n] == indices[..n];
      assert dims[..n + 1][n..] == [dims[n]] && indices[..n + 1][n..] == [i];
      assert Within([dims[n]], [i]) by { assert Within([dims[n]][1..], [i][1..]); }
      WithinSplit(dims[..n + 1], indices[..n + 1], n);
      DotOneMore(Ws()[..n], indices[..n], Ws()[n], i);
      assert Ws()[..n + 1] == Ws()[..n] + [Ws()[n]] && indices[..n + 1] == indices[..n] + [i];
      if n + 1 == |dims| {
        assert Ws()[..n + 1] == Ws() && indices[..n + 1] == indices[..] && dims[..n + 1] == dims;
      }
    }

    /** Prints the current dimension and those after it. */
    method NestedToString(values: seq<int>) returns (s: string)
      requires Valid() && InBounds(Ws(), dims, |values|)
      modifies this`cur, indices
      ensures Valid() && cur == old(cur) && indices[..cur] == old(indices[..cur])
      ensures Prints(s, Nested(values, Ws()[cur..], dims[cur..], Base()))
      decreases |dims| - cur, 2
    {
      ghost var ws, ds, base := Ws()[cur..], dims[cur..], Base();
      s := ['['];
      var i := 0;
      Begins(values, ws, ds, base);
      while i < dims[cur]
        invariant Valid() && cur == old(cur) && indices[..cur] == old(indices[..cur]) && i <= dims[cur]
        invariant PrintedUpTo(s, values, ws, ds, base, i)
      {
        s := NextToString(values, s, i, base);
        i := i + 1;
      }
      s := s + [']'];
      Ends(s, values, ws, ds, base);
    }

    /** Adds one more element to the text so far. */
    method NextToString(values: seq<int>, before: string, i: nat, ghost base: nat) returns (s: string)
      requires Valid() && InBounds(Ws(), dims, |values|) && i < dims[cur] && base == Base()
      requires PrintedUpTo(before, values, Ws()[cur..], dims[cur..], base, i)
      modifies this`cur, indices
      ensures Valid() && cur == old(cur) && indices[..cur] == old(indices[..cur])
      ensures PrintedUpTo(s, values, Ws()[cur..], dims[cur..], base, i + 1)
      decreases |dims| - cur, 1
    {
      s := before + if i == 0 then [] else [',', ' '];
      var item := ItemToString(values, i);
      assert Ws()[cur..][1..] == Ws()[cur + 1..] && dims[cur..][1..] == dims[cur + 1..];
      Continues(before, item, values, Ws()[cur..], dims[cur..], base, i);
      s := s + item;
    }

    method ItemToString(values: seq<int>, i: nat) returns (item: string)
      requires Valid() && InBounds(Ws(), dims, |values|) && i < dims[cur]
      modifies this`cur, indices
      ensures Valid() && cur == old(cur) && indices[..cur] == old(indices[..cur])
      ensures Prints(item, Nested(values, Ws()[cur + 1..], dims[cur + 1..], Along(Base(), Ws()[cur], i)))
      decreases |dims| - cur, 0
    {
      indices[cur] := i;
      assert indices[..cur] == old(indices[..cur]);
      Entered(i);
      if cur == |dims| - 1 {
        var index := CalculateArrayIndex(order, dims, indices);
        item := Decimal(values[index]);
      } else {
        cur := cur + 1;
        item := NestedToString(values);
        assert indices[..cur][..cur - 1] == indices[..cur - 1];
        cur := cur - 1;
      }
    }

    /** Reads the current dimension and those after it into the buffer, in order. */
    method NestedFromString(t: IntType, node: Json, buffer: array<int>, ghost base: nat) returns (ok: bool)
      requires Valid() && InBounds(Ws(), dims, buffer.Length) && base == Base()
      modifies this`cur, indices, buffer
      ensures ok <==> Loadable(t, node, dims[old(cur)..])
      ensures ok ==> Valid() && cur == old(cur) && indices[..cur] == old(indices[..cur])
      ensures ok ==> buffer[..] == Stored(t, node, Ws()[old(cur)..], dims[old(cur)..], base, old(buffer[..]))
      decreases |dims| - cur, 3
    {
      ghost var ws, ds, first := Ws()[cur..], dims[cur..], buffer[..];
      var i := 0;
      while i < dims[cur]
        invariant Valid() && cur == old(cur) && indices[..cur] == old(indices[..cur]) && i <= dims[cur]
        invariant LoadedUpTo(t, node, ws, ds, base, first, buffer[..], i)
      {
        ok := NextFromString(t, node, i, buffer, base, first);
        if !ok {
          return;
        }
        i := i + 1;
      }
      LoadedAll(t, node, ws, ds, base, first, buffer[..]);
      ok := true;
    }

    /** One more element of the array. */
    method NextFromString(t: IntType, node: Json, i: nat, buffer: array<int>, ghost base: nat, ghost first: seq<int>)
      returns (ok: bool)
      requires Valid() && InBounds(Ws(), dims, buffer.Length) && base == Base() && i < dims[cur]
      requires LoadedUpTo(t, node, Ws()[cur..], dims[cur..], base, first, buffer[..], i)
      modifies this`cur, indices, buffer
      ensures !ok ==> !Loadable(t, node, dims[old(cur)..])
      ensures ok ==> Valid() && cur == old(cur) && indices[..cur] == old(indices[..cur])
      ensures ok ==> LoadedUpTo(t, node, Ws()[old(cur)..], dims[old(cur)..], base, first, buffer[..], i + 1)
      decreases |dims| - cur, 2
    {
      ghost var ws, ds, before := Ws()[cur..], dims[cur..], buffer[..];
      ok := ItemFromString(t, node, i, buffer, Along(base, ws[0], i));
      if ok {
        LoadedMore(t, node, ws, ds, base, first, before, buffer[..], i);
      } else {
        NotLoadable(t, node, ds, i);
      }
    }

    method ItemFromString(t: IntType, node: Json, i: nat, buffer: array<int>, ghost base: nat) returns (ok: bool)
      requires Valid() && InBounds(Ws(), dims, buffer.Length)
      requires i < dims[cur] && base == Along(Base(), Ws()[cur], i)
      modifies this`cur, indices, buffer
      ensures ok <==> LoadableItem(t, node, dims[old(cur)..], i)
      ensures ok ==> Valid() && cur == old(cur) && indices[..cur] == old(indices[..cur])
      ensures ok ==> buffer[..] == Stored(t, ItemAt(node, i), Ws()[old(cur)..][1..], dims[old(cur)..][1..], base,
                                          old(buffer[..]))
      decreases |dims| - cur, 1
    {
      indices[cur] := i;
      assert indices[..cur] == old(indices[..cur]);
      Entered(i);
      assert dims[cur..][1..] == dims[cur + 1..] && Ws()[cur..][1..] == Ws()[cur + 1..];
      if cur == |dims| - 1 {
        assert Ws()[cur + 1..] == [] && dims[cur + 1..] == [];
        ok := LeafFromString(t, node, i, buffer, base);
      } else {
        if !HasItem(node, i, true) || |node.items| != dims[cur] {
          return false;
        }
        ok := InnerFromString(t, node.items[i], buffer, base);
      }
    }

    /** Goes one dimension deeper, and back. */
    method InnerFromString(t: IntType, node: Json, buffer: array<int>, ghost base: nat) returns (ok: bool)
      requires Valid() && InBounds(Ws(), dims, buffer.Length) && cur + 1 < |dims|
      requires Within(dims[..cur + 1], indices[..cur + 1]) && base == Dot(Ws()[..cur + 1], indices[..cur + 1])
      modifies this`cur, indices, buffer
      ensures ok <==> Loadable(t, node, dims[old(cur) + 1..])
      ensures ok ==> Valid() && cur == old(cur) && indices[..cur] == old(indices[..cur])
      ensures ok ==> buffer[..] == Stored(t, node, Ws()[old(cur) + 1..], dims[old(cur) + 1..], base, old(buffer[..]))
      decreases |dims| - cur, 0
    {
      cur := cur + 1;
      ok := NestedFromString(t, node, buffer, base);
      if ok {
        assert indices[..cur][..cur - 1] == indices[..cur - 1];
        cur := cur - 1;
        assert Within(dims[..cur + 1][..cur], indices[..cur + 1][..cur]) by {
          WithinSplit(dims[..cur + 1], indices[..cur + 1], cur);
        }
        assert dims[..cur + 1][..cur] == dims[..cur] && indices[..cur + 1][..cur] == indices[..cur];
      }
    }

    method LeafFromString(t: IntType, node: Json, i: nat, buffer: array<int>, ghost base: nat) returns (ok: bool)
      requires Valid() && InBounds(Ws(), dims, buffer.Length)
      requires cur == |dims| - 1 && i < dims[cur] && indices[cur] == i && base == Along(Base(), Ws()[cur], i)
      modifies buffer
      ensures ok <==> LoadableItem(t, node, dims[cur..], i)
      ensures ok ==> buffer[..] == Stored(t, ItemAt(node, i), [], [], base, old(buffer[..]))
    {
      if !HasItem(node, i, false) {
        return false;
      }
      Entered(i);
      PassedExactly(t, node.items[i].text);
      var index := CalculateArrayIndex(order, dims, indices);
      var value := FromText(t, node.items[i].text);
      if value == None {
        return false;
      }
      buffer[index] := value.value;
      ok := true;
    }
  }

  /** The elements below the i-th can be read, and have been written. */
  ghost predicate LoadedUpTo(t: IntType, node: Json, ws: seq<nat>, dims: seq<nat>, base: nat,
                             first: seq<int>, now: seq<int>, i: nat)
    requires |ws| == |dims| && dims != []
  {
    && (forall j :: 0 <= j < i ==> LoadableItem(t, node, dims, j))
    && now == StoredUpTo(t, node, ws, dims, base, first, i)
  }

  lemma LoadedMore(t: IntType, node: Json, ws: seq<nat>, dims: seq<nat>, base: nat,
                   first: seq<int>, before: seq<int>, now: seq<int>, i: nat)
    requires |ws| == |dims| && dims != [] && LoadedUpTo(t, node, ws, dims, base, first, before, i)
    requires LoadableItem(t, node, dims, i)
    requires now == Stored(t, ItemAt(node, i), ws[1..], dims[1..], Along(base, ws[0], i), before)
    ensures LoadedUpTo(t, node, ws, dims, base, first, now, i + 1)
  {
  }

  lemma LoadedAll(t: IntType, node: Json, ws: seq<nat>, dims: seq<nat>, base: nat, first: seq<int>, now: seq<int>)
    requires |ws| == |dims| && dims != [] && LoadedUpTo(t, node, ws, dims, base, first, now, dims[0])
    ensures Loadable(t, node, dims) && now == Stored(t, node, ws, dims, base, first)
  {
  }

  lemma NotLoadable(t: IntType, node: Json, dims: seq<nat>, i: nat)
    requires dims != [] && i < dims[0] && !LoadableItem(t, node, dims, i)
    ensures !Loadable(t, node, dims)
  {
  }

  /** `s` is the part of the printed array before its i-th element. */
  ghost predicate PrintedUpTo(s: string, values: seq<int>, ws: seq<nat>, dims: seq<nat>, base: nat, i: nat) {
    && |ws| == |dims| && dims != [] && i <= dims[0]
    && forall k :: s + Rest(values, ws, dims, base, i, k) == Text(Nested(values, ws, dims, base), k)
  }

  lemma Begins(values: seq<int>, ws: seq<nat>, dims: seq<nat>, base: nat)
    requires |ws| == |dims| && dims != []
    ensures PrintedUpTo(['['], values, ws, dims, base, 0)
  {
    forall k
      ensures ['['] + Rest(values, ws, dims, base, 0, k) == Text(Nested(values, ws, dims, base), k)
    {
      RestIsText(values, ws, dims, base, k);
    }
  }

  lemma Continues(s: string, item: string, values: seq<int>, ws: seq<nat>, dims: seq<nat>, base: nat, i: nat)
    requires |ws| == |dims| && dims != [] && i < dims[0]
    requires Prints(item, Nested(values, ws[1..], dims[1..], Along(base, ws[0], i)))
    requires PrintedUpTo(s, values, ws, dims, base, i)
    ensures PrintedUpTo(s + (if i == 0 then [] else [',', ' ']) + item, values, ws, dims, base, i + 1)
  {
    var s' := s + if i == 0 then [] else [',', ' '];
    forall k
      ensures s' + item + Rest(values, ws, dims, base, i + 1, k) == Text(Nested(values, ws, dims, base), k)
    {
      PrintsMore(s, item, values, ws, dims, base, i, k);
    }
  }

  lemma Ends(s: string, values: seq<int>, ws: seq<nat>, dims: seq<nat>, base: nat)
    requires |ws| == |dims| && dims != []
    requires exists s' :: PrintedUpTo(s', values, ws, dims, base, dims[0]) && s == s' + [']']
    ensures Prints(s, Nested(values, ws, dims, base))
  {
    var s' :| PrintedUpTo(s', values, ws, dims, base, dims[0]) && s == s' + [']'];
    forall k
      ensures s + k == Text(Nested(values, ws, dims, base), k)
    {
      Appended(s', [']'], k);
    }
  }
}
