/** Printing an integer vector by its layout and reading the text back with the same layout gives
    the vector again. */
module NestedRoundTrip {
  import opened Options
  import opened Json
  import opened JsonShapes
  import opened JsonSyntax
  import opened JsonProofs
  import opened Integers
  import opened Layouts
  import opened NestedArrays

  ghost predicate AllInRange(t: IntType, values: seq<int>) {
    forall i :: 0 <= i < |values| ==> InRange(t, values[i])
  }

  /** The printed document is well-formed JSON within the reader's limits. */
  ghost predicate Fine(tree: Tree, depth: nat) {
    && WellFormed(tree)
    && Legal(ShapeOf(tree), false) && !KeyAfter(ShapeOf(tree), false)
    && Depth(ShapeOf(tree)) <= depth
  }

  ghost predicate ElemsFine(es: Elems, depth: nat) {
    && WellFormedElems(es)
    && LegalItems(ItemsOf(es), false) && !KeyAfterItems(ItemsOf(es), false)
    && ItemsDepth(ItemsOf(es)) <= depth
  }

  lemma NumberFine(t: IntType, v: int)
    requires InRange(t, v)
    ensures Fine(Num(Decimal(v)), 0) && ShapeOf(Num(Decimal(v))) == Leaf(Number(Decimal(v)))
  {
    DecimalIsNumber(t, v);
  }

  lemma ElemFine(es: Elems, depth: nat)
    requires es.Elem? && Blank(es.before) && Blank(es.after) && Fine(es.value, depth) && ElemsFine(es.more, depth)
    ensures ElemsFine(es, depth)
  {
  }

  lemma {:induction false} NestedFine(t: IntType, values: seq<int>, ws: seq<nat>, dims: seq<nat>, base: nat)
    requires |ws| == |dims| && AllInRange(t, values)
    ensures Fine(Nested(values, ws, dims, base), |dims|)
    decreases |dims|, 2, 0
  {
    if dims == [] {
      NumberFine(t, At(values, base));
    } else {
      ElementsFine(t, values, ws, dims, base, 0);
    }
  }

  lemma {:induction false} ElementsFine(t: IntType, values: seq<int>, ws: seq<nat>, dims: seq<nat>, base: nat, i: nat)
    requires |ws| == |dims| && dims != [] && i <= dims[0] && AllInRange(t, values)
    ensures ElemsFine(Elements(values, ws, dims, base, i), |dims| - 1)
    decreases |dims|, 1, dims[0] - i
  {
    if i < dims[0] {
      NestedFine(t, values, ws[1..], dims[1..], Along(base, ws[0], i));
      ElementsFine(t, values, ws, dims, base, i + 1);
      ElemFine(Elements(values, ws, dims, base, i), |dims| - 1);
    }
  }

  // ---- What the printed document holds ----------------------------------------------

  function MeaningOf(values: seq<int>, ws: seq<nat>, dims: seq<nat>, base: nat): Json
    requires |ws| == |dims|
  {
    Meaning(ShapeOf(Nested(values, ws, dims, base)))
  }

  lemma {:induction false} ElementsMeaning(values: seq<int>, ws: seq<nat>, dims: seq<nat>,
                                           base: nat, i: nat, before: seq<Json>)
    requires |ws| == |dims| && dims != [] && i <= dims[0] && |before| == i
    ensures var items := ItemsMeaning(ItemsOf(Elements(values, ws, dims, base, i)), before);
            && |items| == dims[0] && items[..i] == before
            && forall j :: i <= j < dims[0] ==> items[j] == MeaningOf(values, ws[1..], dims[1..], Along(base, ws[0], j))
    decreases dims[0] - i
  {
    if i < dims[0] {
      var v := MeaningOf(values, ws[1..], dims[1..], Along(base, ws[0], i));
      ElementsMeaning(values, ws, dims, base, i + 1, before + [v]);
      var items := ItemsMeaning(ItemsOf(Elements(values, ws, dims, base, i + 1)), before + [v]);
      assert items == ItemsMeaning(ItemsOf(Elements(values, ws, dims, base, i)), before);
      assert items[..i + 1] == before + [v];
      assert items[..i] == items[..i + 1][..i];
      assert items[i] == items[..i + 1][i];
    }
  }

  lemma ArrayMeaning(values: seq<int>, ws: seq<nat>, dims: seq<nat>, base: nat)
    requires |ws| == |dims| && dims != []
    ensures var j := MeaningOf(values, ws, dims, base);
            && j.Array? && |j.items| == dims[0]
            && forall i :: 0 <= i < dims[0] ==>
                 j.items[i] == MeaningOf(values, ws[1..], dims[1..], Along(base, ws[0], i))
  {
    ElementsMeaning(values, ws, dims, base, 0, []);
  }

  lemma LeafMeaning(t: IntType, values: seq<int>, base: nat)
    requires AllInRange(t, values)
    ensures MeaningOf(values, [], [], base) == Number(Decimal(At(values, base)))
    ensures FromText(t, Decimal(At(values, base))) == Some(At(values, base))
  {
    NumberFine(t, At(values, base));
    DecimalRead(t, At(values, base));
  }

  lemma {:induction false} PrintedLoads(t: IntType, values: seq<int>, ws: seq<nat>, dims: seq<nat>, base: nat)
    requires |ws| == |dims| && dims != [] && AllInRange(t, values)
    ensures Loadable(t, MeaningOf(values, ws, dims, base), dims)
    decreases |dims|
  {
    var node := MeaningOf(values, ws, dims, base);
    ArrayMeaning(values, ws, dims, base);
    forall i | 0 <= i < dims[0]
      ensures LoadableItem(t, node, dims, i)
    {
      var b := Along(base, ws[0], i);
      if |dims| == 1 {
        assert ws[1..] == [] && dims[1..] == [];
        LeafMeaning(t, values, b);
        PassedExactly(t, Decimal(At(values, b)));
      } else {
        PrintedLoads(t, values, ws[1..], dims[1..], b);
        ArrayMeaning(values, ws[1..], dims[1..], b);
      }
    }
  }

  lemma {:induction false} PrintedValueAt(t: IntType, values: seq<int>, ws: seq<nat>, dims: seq<nat>,
                                          base: nat, ix: seq<nat>)
    requires |ws| == |dims| && AllInRange(t, values) && Within(dims, ix)
    ensures ValueAt(t, MeaningOf(values, ws, dims, base), ix) == At(values, base + Dot(ws, ix))
    decreases |dims|
  {
    if dims == [] {
      LeafMeaning(t, values, base);
    } else {
      ArrayMeaning(values, ws, dims, base);
      PrintedValueAt(t, values, ws[1..], dims[1..], Along(base, ws[0], ix[0]), ix[1..]);
    }
  }

  lemma PrintedHolds(t: IntType, values: seq<int>, ws: seq<nat>, dims: seq<nat>)
    requires |ws| == |dims| && AllInRange(t, values)
    ensures Holds(t, MeaningOf(values, ws, dims, 0), ws, dims, 0, values)
  {
    forall ix | Within(dims, ix)
      ensures At(values, 0 + Dot(ws, ix)) == ValueAt(t, MeaningOf(values, ws, dims, 0), ix)
    {
      PrintedValueAt(t, values, ws, dims, 0, ix);
    }
  }

  lemma PrintedParses(t: IntType, values: seq<int>, ws: seq<nat>, dims: seq<nat>, text: string)
    requires |ws| == |dims| < MAX_DEPTH && AllInRange(t, values) && Prints(text, Nested(values, ws, dims, 0))
    ensures Parse(text) == Some(MeaningOf(values, ws, dims, 0))
  {
    var tree := Nested(values, ws, dims, 0);
    NestedFine(t, values, ws, dims, 0);
    ParsesDocument([], tree, []);
    assert [] + Text(tree, []) == Text(tree, []);
    assert text + [] == text;
  }

  // ---- The order of the elements ----------------------------------------------------

  /** The position of an element: column-major with the first index running fastest, row-major with
      the last. */
  function Position(order: Order, dims: seq<nat>, ix: seq<nat>): nat
    requires |ix| == |dims|
  {
    if order == ColumnMajor then ColumnPosition(dims, ix) else RowPosition(dims, ix)
  }

  /** The program computes these positions. */
  predicate KeepsOrder(order: Order, dims: seq<nat>) {
    order == ColumnMajor || RowsRight(dims)
  }

  lemma OrderKept(order: Order, dims: seq<nat>)
    requires KeepsOrder(order, dims)
    ensures OneToOne(Factors(order, dims), dims)
    ensures forall ix :: Within(dims, ix) ==> Dot(Factors(order, dims), ix) == Position(order, dims, ix)
  {
    if order == ColumnMajor {
      ColumnOneToOne(dims);
    } else {
      RowMajorExactly(dims);
      RowPlaces(dims);
    }
  }

  /** The text is a document that has at each multi-index the value at its position. */
  ghost predicate Shows(text: string, order: Order, dims: seq<nat>, values: seq<int>) {
    && Parse(text).Some?
    && forall ix :: Within(dims, ix) ==>
         IntegerAt(Parse(text).value, ix) == Some(At(values, Position(order, dims, ix)))
  }

  lemma {:induction false} PrintedIntegerAt(t: IntType, values: seq<int>, ws: seq<nat>, dims: seq<nat>,
                                            base: nat, ix: seq<nat>)
    requires |ws| == |dims| && AllInRange(t, values) && Within(dims, ix)
    ensures IntegerAt(MeaningOf(values, ws, dims, base), ix) == Some(At(values, base + Dot(ws, ix)))
    decreases |dims|
  {
    if dims == [] {
      LeafMeaning(t, values, base);
      DecimalDenotes(At(values, base));
    } else {
      ArrayMeaning(values, ws, dims, base);
      PrintedIntegerAt(t, values, ws[1..], dims[1..], Along(base, ws[0], ix[0]), ix[1..]);
    }
  }

  lemma ShownAt(order: Order, dims: seq<nat>, t: IntType, values: seq<int>, ws: seq<nat>, ix: seq<nat>)
    requires |ws| == |dims| && Within(dims, ix) && AllInRange(t, values) && Dot(ws, ix) == Position(order, dims, ix)
    ensures IntegerAt(MeaningOf(values, ws, dims, 0), ix) == Some(At(values, Position(order, dims, ix)))
  {
    PrintedIntegerAt(t, values, ws, dims, 0, ix);
  }

  lemma PrintedShows(order: Order, dims: seq<nat>, t: IntType, values: seq<int>, text: string)
    requires |dims| < MAX_DEPTH && KeepsOrder(order, dims) && AllInRange(t, values)
    requires Prints(text, Nested(values, Factors(order, dims), dims, 0))
    ensures Shows(text, order, dims, values)
  {
    var ws := Factors(order, dims);
    OrderKept(order, dims);
    PrintedParses(t, values, ws, dims, text);
    forall ix | Within(dims, ix)
      ensures IntegerAt(MeaningOf(values, ws, dims, 0), ix) == Some(At(values, Position(order, dims, ix)))
    {
      ShownAt(order, dims, t, values, ws, ix);
    }
  }

  /** The buffer has at the position of each multi-index what the number there is converted to. */
  ghost predicate InPlace(t: IntType, node: Json, order: Order, dims: seq<nat>, b: seq<int>) {
    forall ix :: Within(dims, ix) ==> At(b, Position(order, dims, ix)) == ValueAt(t, node, ix)
  }

  lemma HeldInPlace(t: IntType, node: Json, order: Order, dims: seq<nat>, b: seq<int>)
    requires KeepsOrder(order, dims) && Holds(t, node, Factors(order, dims), dims, 0, b)
    ensures InPlace(t, node, order, dims, b)
  {
    OrderKept(order, dims);
    forall ix | Within(dims, ix)
      ensures At(b, Position(order, dims, ix)) == ValueAt(t, node, ix)
    {
      assert At(b, 0 + Dot(Factors(order, dims), ix)) == ValueAt(t, node, ix);
    }
  }

  // ---- Loading any document ---------------------------------------------------------

  /** When every place has exactly one element, some buffer holds the document. */
  lemma {:induction false} HoldingPrefix(t: IntType, node: Json, ws: seq<nat>, dims: seq<nat>, n: nat)
    returns (b: seq<int>)
    requires |ws| == |dims| && OneToOne(ws, dims) && n <= Product(dims)
    ensures |b| == n && forall ix :: Within(dims, ix) && Dot(ws, ix) < n ==> b[Dot(ws, ix)] == ValueAt(t, node, ix)
  {
    if n == 0 {
      b := [];
    } else {
      b := HoldingPrefix(t, node, ws, dims, n - 1);
      assert Attained(ws, dims, n - 1);
      var at :| Within(dims, at) && Dot(ws, at) == n - 1;
      b := b + [ValueAt(t, node, at)];
    }
  }

  lemma HoldingBuffer(t: IntType, node: Json, ws: seq<nat>, dims: seq<nat>) returns (b: seq<int>)
    requires |ws| == |dims| && OneToOne(ws, dims)
    ensures |b| == Product(dims) && Holds(t, node, ws, dims, 0, b)
  {
    b := HoldingPrefix(t, node, ws, dims, Product(dims));
  }

  /** Loading brings every number of any document to the place of its element. */
  lemma LoadsEveryNumber(t: IntType, node: Json, ws: seq<nat>, dims: seq<nat>, buffer: seq<int>)
    requires |ws| == |dims| && OneToOne(ws, dims) && |buffer| == Product(dims)
    ensures Holds(t, node, ws, dims, 0, Stored(t, node, ws, dims, 0, buffer))
  {
    var b := HoldingBuffer(t, node, ws, dims);
    forall ix | Within(dims, ix)
      ensures At(Stored(t, node, ws, dims, 0, buffer), 0 + Dot(ws, ix)) == ValueAt(t, node, ix)
    {
      assert At(b, 0 + Dot(ws, ix)) == ValueAt(t, node, ix);
      assert Reached(ws, dims, 0, Dot(ws, ix));
      StoredAt(t, node, ws, dims, 0, buffer, b, Dot(ws, ix));
    }
  }

  /** What loading a printed buffer gives: its own values wherever an element has its place, and what
      was there before elsewhere. */
  lemma Restored(t: IntType, values: seq<int>, ws: seq<nat>, dims: seq<nat>, initial: seq<int>, p: nat)
    requires |ws| == |dims| && AllInRange(t, values) && p < |values| == |initial|
    ensures Stored(t, MeaningOf(values, ws, dims, 0), ws, dims, 0, initial)[p]
         == if Attained(ws, dims, p) then values[p] else initial[p]
  {
    PrintedHolds(t, values, ws, dims);
    StoredAt(t, MeaningOf(values, ws, dims, 0), ws, dims, 0, initial, values, p);
    if Attained(ws, dims, p) {
      var ix :| Within(dims, ix) && Dot(ws, ix) == p;
      assert 0 + Dot(ws, ix) == p;
    }
    if Reached(ws, dims, 0, p) {
      var ix :| Within(dims, ix) && 0 + Dot(ws, ix) == p;
      assert Dot(ws, ix) == p;
    }
  }

  /** Every initial content of the new buffer gives way to the printed values. */
  ghost predicate AlwaysRestored(t: IntType, values: seq<int>, ws: seq<nat>, dims: seq<nat>)
    requires |ws| == |dims|
  {
    forall initial :: |initial| == |values|
                      ==> Stored(t, MeaningOf(values, ws, dims, 0), ws, dims, 0, initial) == values
  }

  /** A layout that stays inside the buffer restores it exactly when it is one-to-one. */
  lemma RestoredExactly(t: IntType, values: seq<int>, ws: seq<nat>, dims: seq<nat>)
    requires |ws| == |dims| && AllInRange(t, values)
    requires |values| == Product(dims) && InBounds(ws, dims, |values|)
    ensures AlwaysRestored(t, values, ws, dims) <==> OneToOne(ws, dims)
  {
    if OneToOne(ws, dims) {
      forall initial | |initial| == |values|
        ensures Stored(t, MeaningOf(values, ws, dims, 0), ws, dims, 0, initial) == values
      {
        forall p | 0 <= p < |values|
          ensures Stored(t, MeaningOf(values, ws, dims, 0), ws, dims, 0, initial)[p] == values[p]
        {
          assert Attained(ws, dims, p);
          Restored(t, values, ws, dims, initial, p);
        }
      }
    } else {
      if forall v :: 0 <= v < Product(dims) ==> Attained(ws, dims, v) {
        AttainedOneToOne(ws, dims);
      } else {
        var p :| 0 <= p < Product(dims) && !Attained(ws, dims, p);
        var initial := values[p := values[p] + 1];
        Restored(t, values, ws, dims, initial, p);
        assert Stored(t, MeaningOf(values, ws, dims, 0), ws, dims, 0, initial) != values;
      }
    }
  }

  /** Row-major, two by two by three: the places stay inside the buffer, and one is never written. */
  lemma CollidingLayout()
    ensures InBounds(Factors(RowMajor, [2, 2, 3]), [2, 2, 3], Product([2, 2, 3]))
    ensures !OneToOne(Factors(RowMajor, [2, 2, 3]), [2, 2, 3])
  {
    RowMajorCube(2, 2, 3);
    CubeBounds();
  }

  lemma CubeBounds()
    ensures InBounds(Factors(RowMajor, [2, 2, 3]), [2, 2, 3], Product([2, 2, 3]))
  {
    CubeFactors(2, 2, 3);
    ProductConcat([2, 2], [3]);
    ProductConcat([2], [2]);
    ProductOne(2);
    ProductOne(3);
    assert [2, 2] + [3] == [2, 2, 3] && [2] + [2] == [2, 2];
    var ws: seq<nat>, dims: seq<nat> := [6, 2, 1], [2, 2, 3];
    forall ix | Within(dims, ix)
      ensures Dot(ws, ix) < 12
    {
      assert Within(dims[1..], ix[1..]) && Within(dims[1..][1..], ix[1..][1..]);
      assert ws[1..] == [2, 1] && ws[1..][1..] == [1] && ws[1..][1..][1..] == [];
      assert Dot(ws, ix) == 6 * ix[0] + Dot([2, 1], ix[1..]);
      assert Dot([2, 1], ix[1..]) == 2 * ix[1] + Dot([1], ix[1..][1..]);
      assert Dot([1], ix[1..][1..]) == 1 * ix[2] + Dot([], ix[1..][1..][1..]);
    }
  }

  // ---- The whole way ----------------------------------------------------------------

  /** Prints a vector by its layout. */
  method Print(order: Order, dims: seq<nat>, values: seq<int>) returns (text: string)
    requires dims != [] && InBounds(Factors(order, dims), dims, |values|)
    ensures Prints(text, Nested(values, Factors(order, dims), dims, 0))
    ensures |dims| < MAX_DEPTH && KeepsOrder(order, dims)
        ==> forall t :: AllInRange(t, values) ==> Shows(text, order, dims, values)
  {
    var printer := new Geometry(order, dims);
    ghost var ws := Factors(order, dims);
    assert ws[0..] == ws && dims[0..] == dims;
    text := printer.NestedToString(values);
    forall t | |dims| < MAX_DEPTH && KeepsOrder(order, dims) && AllInRange(t, values)
      ensures Shows(text, order, dims, values)
    {
      PrintedShows(order, dims, t, values, text);
    }
  }

  /** Whether a text can be loaded by a layout. */
  predicate LoadableText(t: IntType, text: string, dims: seq<nat>)
    requires dims != []
  {
    Parse(text).Some? && Parse(text).value.Array? && Loadable(t, Parse(text).value, dims)
  }

  /** Reads any text as JSON and loads it into a new buffer, whose initial content is arbitrary. */
  method Load(order: Order, dims: seq<nat>, t: IntType, count: nat, text: string)
    returns (ok: bool, buffer: array<int>, ghost initial: seq<int>)
    requires dims != [] && InBounds(Factors(order, dims), dims, count)
    ensures ok <==> LoadableText(t, text, dims)
    ensures buffer.Length == |initial| == count
    ensures ok ==> buffer[..] == Stored(t, Parse(text).value, Factors(order, dims), dims, 0, initial)
    ensures ok && KeepsOrder(order, dims) && count == Product(dims)
        ==> InPlace(t, Parse(text).value, order, dims, buffer[..])
    ensures ok && OneToOne(Factors(order, dims), dims) && count == Product(dims)
        ==> && Holds(t, Parse(text).value, Factors(order, dims), dims, 0, buffer[..])
            && (HoldsIntegers(Parse(text).value, Factors(order, dims), dims, buffer[..])
                <==> IntegersFit(t, Parse(text).value, dims))
  {
    ghost var ws := Factors(order, dims);
    assert ws[0..] == ws && dims[0..] == dims;
    buffer := new int[count];
    initial := buffer[..];
    var root := Parse(text);
    if root.None? || !root.value.Array? {
      return false, buffer, initial;
    }
    var loader := new Geometry(order, dims);
    ok := loader.NestedFromString(t, root.value, buffer, 0);
    if ok && OneToOne(ws, dims) && count == Product(dims) {
      LoadsEveryNumber(t, root.value, ws, dims, initial);
      KeepsIntegers(t, root.value, ws, dims, buffer[..]);
      if KeepsOrder(order, dims) {
        HeldInPlace(t, root.value, order, dims, buffer[..]);
      }
    } else if KeepsOrder(order, dims) {
      OrderKept(order, dims);
    }
  }

  /** The printed values, wherever an element has its place. */
  ghost predicate AsPrinted(r: seq<int>, values: seq<int>, ws: seq<nat>, dims: seq<nat>)
    requires |ws| == |dims|
  {
    && |r| == |values|
    && (forall p :: 0 <= p < |values| && Attained(ws, dims, p) ==> r[p] == values[p])
    && (OneToOne(ws, dims) && |values| == Product(dims) ==> r == values)
  }

  lemma StoredAsPrinted(t: IntType, values: seq<int>, ws: seq<nat>, dims: seq<nat>, initial: seq<int>)
    requires |ws| == |dims| && AllInRange(t, values) && |initial| == |values|
    ensures AsPrinted(Stored(t, MeaningOf(values, ws, dims, 0), ws, dims, 0, initial), values, ws, dims)
  {
    var r := Stored(t, MeaningOf(values, ws, dims, 0), ws, dims, 0, initial);
    forall p | 0 <= p < |values|
      ensures Attained(ws, dims, p) ==> r[p] == values[p]
    {
      Restored(t, values, ws, dims, initial, p);
    }
  }

  lemma LoadsPrinted(t: IntType, values: seq<int>, ws: seq<nat>, dims: seq<nat>, text: string, initial: seq<int>)
    requires 1 <= |ws| == |dims| < MAX_DEPTH && AllInRange(t, values) && |initial| == |values|
    requires Prints(text, Nested(values, ws, dims, 0))
    ensures LoadableText(t, text, dims)
    ensures AsPrinted(Stored(t, Parse(text).value, ws, dims, 0, initial), values, ws, dims)
  {
    PrintedParses(t, values, ws, dims, text);
    PrintedLoads(t, values, ws, dims, 0);
    ArrayMeaning(values, ws, dims, 0);
    StoredAsPrinted(t, values, ws, dims, initial);
  }

  /** Printing a vector and loading the text gives the vector, wherever an element has its place. */
  method RoundTrip(order: Order, dims: seq<nat>, t: IntType, values: seq<int>) returns (ok: bool, buffer: array<int>)
    requires 1 <= |dims| < MAX_DEPTH && InBounds(Factors(order, dims), dims, |values|) && AllInRange(t, values)
    ensures ok && buffer.Length == |values|
    ensures forall p :: 0 <= p < |values| && Attained(Factors(order, dims), dims, p) ==> buffer[p] == values[p]
    ensures OneToOne(Factors(order, dims), dims) && |values| == Product(dims) ==> buffer[..] == values
  {
    var text := Print(order, dims, values);
    ghost var initial;
    ok, buffer, initial := Load(order, dims, t, |values|, text);
    LoadsPrinted(t, values, Factors(order, dims), dims, text, initial);
    assert forall p :: 0 <= p < |values| ==> buffer[..][p] == buffer[p];
  }
}
