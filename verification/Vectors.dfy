/** Integer vectors without a layout: printed as one array, typed on the command line, read back. */
module Vectors {
  import opened Options
  import opened Json
  import opened JsonSyntax
  import opened Integers
  import opened NestedArrays
  import opened NestedRoundTrip
  import opened CommandLine

  /** Prints a vector, an element at a time. */
  method VectorToString(values: seq<int>) returns (s: string)
    ensures Prints(s, Nested(values, [1], [|values|], 0))
  {
    s := ['['];
    Begins(values, [1], [|values|], 0);
    var i := 0;
    while i < |values|
      invariant i <= |values| && PrintedUpTo(s, values, [1], [|values|], 0, i)
    {
      var item := Decimal(values[i]);
      OneElement(values, i);
      Continues(s, item, values, [1], [|values|], 0, i);
      s := s + (if i == 0 then [] else [',', ' ']) + item;
      i := i + 1;
    }
    s := s + [']'];
    Ends(s, values, [1], [|values|], 0);
  }

  lemma OneElement(values: seq<int>, i: nat)
    requires i < |values|
    ensures Prints(Decimal(values[i]), Nested(values, [1][1..], [|values|][1..], Along(0, [1][0], i)))
  {
    assert [1][1..] == [] && [|values|][1..] == [] && Along(0, 1, i) == i;
    assert forall k :: Decimal(values[i]) + k == Text(Num(Decimal(values[i])), k);
  }

  datatype Result = Success | Truncation | Failure

  function Element(t: IntType, item: Json, floating: string -> Option<real>): Conversion {
    if item.Number? then Read(t, item.text, floating) else Failed
  }

  /** Whether a document is an array of numbers that can all be converted. */
  predicate IsVector(t: IntType, node: Option<Json>, floating: string -> Option<real>) {
    && node.Some? && node.value.Array?
    && forall i :: 0 <= i < |node.value.items| ==> !Element(t, node.value.items[i], floating).Failed?
  }

  /** The elements converted so far, and whether all conversions reported success. */
  ghost predicate ReadUpTo(t: IntType, items: seq<Json>, floating: string -> Option<real>,
                           values: seq<int>, passed: bool)
  {
    && |values| <= |items| && AllConverted(t, items, floating, values)
    && (passed <==> AllPassed(t, items[..|values|]))
  }

  ghost predicate AllConverted(t: IntType, items: seq<Json>, floating: string -> Option<real>, values: seq<int>)
    requires |values| <= |items|
  {
    forall i :: 0 <= i < |values| ==> Converted(Element(t, items[i], floating), values[i])
  }

  ghost predicate AllPassed(t: IntType, items: seq<Json>) {
    forall i :: 0 <= i < |items| ==> PassedElement(t, items[i])
  }

  predicate PassedElement(t: IntType, item: Json) { item.Number? && IsPassed(t, item.text) }

  predicate Converted(c: Conversion, value: int) { !c.Failed? && c.value == value }

  lemma ElementPassed(t: IntType, item: Json, floating: string -> Option<real>)
    ensures Element(t, item, floating).Passed? <==> PassedElement(t, item)
  {
    if item.Number? {
      PassedExactly(t, item.text);
    }
  }

  lemma ReadMore(t: IntType, items: seq<Json>, floating: string -> Option<real>, values: seq<int>, passed: bool)
    requires ReadUpTo(t, items, floating, values, passed) && |values| < |items|
    requires !Element(t, items[|values|], floating).Failed?
    ensures var c := Element(t, items[|values|], floating);
            ReadUpTo(t, items, floating, values + [c.value], passed && c.Passed?)
  {
    var c := Element(t, items[|values|], floating);
    ElementPassed(t, items[|values|], floating);
    ConvertedMore(t, items, floating, values, c.value);
    PassedMore(t, items, |values|);
  }

  lemma ConvertedMore(t: IntType, items: seq<Json>, floating: string -> Option<real>, values: seq<int>, v: int)
    requires |values| < |items| && AllConverted(t, items, floating, values)
    requires Converted(Element(t, items[|values|], floating), v)
    ensures AllConverted(t, items, floating, values + [v])
  {
    var now := values + [v];
    forall i | 0 <= i < |now|
      ensures Converted(Element(t, items[i], floating), now[i])
    {
      if i < |values| {
        assert now[i] == values[i];
      }
    }
  }

  lemma PassedMore(t: IntType, items: seq<Json>, n: nat)
    requires n < |items|
    ensures AllPassed(t, items[..n + 1]) <==> AllPassed(t, items[..n]) && PassedElement(t, items[n])
  {
    assert items[..n + 1] == items[..n] + [items[n]];
    assert forall i :: 0 <= i < n ==> items[..n + 1][i] == items[..n][i];
    assert items[..n + 1][n] == items[n];
  }

  /** Converts the elements one by one; one that cannot be converted fails the whole. */
  method ReadElements(t: IntType, node: Json, floating: string -> Option<real>) returns (r: Result, values: seq<int>)
    requires node.Array?
    ensures r.Failure? <==> !IsVector(t, Some(node), floating)
    ensures !r.Failure? ==> |values| == |node.items| && ReadUpTo(t, node.items, floating, values, r.Success?)
  {
    var arr := new int[|node.items|];
    var truncated := false;
    var ix := 0;
    while ix < |node.items|
      invariant ix <= |node.items| && ReadUpTo(t, node.items, floating, arr[..ix], !truncated)
    {
      if !HasItem(node, ix, false) {
        return Failure, [];
      }
      var value := Read(t, node.items[ix].text, floating);
      if value.Failed? {
        return Failure, [];
      }
      ReadMore(t, node.items, floating, arr[..ix], !truncated);
      truncated := truncated || value.Truncated?;
      arr[ix] := value.value;
      ix := ix + 1;
      assert arr[..ix] == arr[..ix - 1] + [value.value];
    }
    assert arr[..] == arr[..ix];
    r, values := if truncated then Truncation else Success, arr[..];
  }

  /** The values are the integers the elements denote. */
  ghost predicate Denoted(items: seq<Json>, values: seq<int>) {
    && |values| == |items|
    && forall i :: 0 <= i < |items| ==> items[i].Number? && IntegerOf(items[i].text) == Some(values[i])
  }

  ghost predicate AllElementsFit(t: IntType, items: seq<Json>) {
    forall i :: 0 <= i < |items| ==> items[i].Number? && Fits(t, items[i].text)
  }

  lemma DenotedExactly(t: IntType, items: seq<Json>, floating: string -> Option<real>, values: seq<int>, passed: bool)
    requires |values| == |items| && ReadUpTo(t, items, floating, values, passed)
    ensures Denoted(items, values) <==> AllElementsFit(t, items)
  {
    forall i | 0 <= i < |items|
      ensures items[i].Number? && (IntegerOf(items[i].text) == Some(values[i]) <==> Fits(t, items[i].text))
    {
      assert Converted(Element(t, items[i], floating), values[i]);
      KeptExactly(t, items[i].text, floating);
    }
  }

  /** Reads a vector. The result says whether all conversions reported success, which is less than
      that the values are those of the text. */
  method ParseVector(t: IntType, text: string, floating: string -> Option<real>) returns (r: Result, values: seq<int>)
    ensures r.Failure? <==> !IsVector(t, Parse(text), floating)
    ensures !r.Failure? ==> |values| == |Parse(text).value.items|
                            && ReadUpTo(t, Parse(text).value.items, floating, values, r.Success?)
                            && (Denoted(Parse(text).value.items, values)
                                <==> AllElementsFit(t, Parse(text).value.items))
  {
    var root := Parse(text);
    if root.None? || !root.value.Array? {
      return Failure, [];
    }
    r, values := ReadElements(t, root.value, floating);
    if !r.Failure? {
      DenotedExactly(t, root.value.items, floating, values, r.Success?);
    }
  }

  /** The document of a printed vector, element by element. */
  ghost predicate Holds(t: IntType, node: Json, floating: string -> Option<real>, values: seq<int>) {
    && node.Array? && |node.items| == |values|
    && forall i :: 0 <= i < |values| ==> Element(t, node.items[i], floating) == Passed(values[i])
  }

  lemma PrintedItem(t: IntType, values: seq<int>, node: Json, i: nat, floating: string -> Option<real>)
    requires AllInRange(t, values) && i < |values| && node == MeaningOf(values, [1], [|values|], 0)
    ensures node.Array? && |node.items| == |values| && Element(t, node.items[i], floating) == Passed(values[i])
  {
    ArrayMeaning(values, [1], [|values|], 0);
    assert [1][1..] == [] && [|values|][1..] == [] && Along(0, [1][0], i) == i;
    LeafMeaning(t, values, i);
  }

  lemma PrintedHolds(t: IntType, values: seq<int>, node: Json, floating: string -> Option<real>)
    requires AllInRange(t, values) && node == MeaningOf(values, [1], [|values|], 0)
    ensures Holds(t, node, floating, values)
  {
    ArrayMeaning(values, [1], [|values|], 0);
    forall i | 0 <= i < |values|
      ensures Element(t, node.items[i], floating) == Passed(values[i])
    {
      PrintedItem(t, values, node, i, floating);
    }
  }

  lemma PrintedVector(t: IntType, values: seq<int>, text: string, floating: string -> Option<real>)
    requires AllInRange(t, values) && Prints(text, Nested(values, [1], [|values|], 0))
    ensures Parse(text).Some? && Holds(t, Parse(text).value, floating, values)
  {
    PrintedParses(t, values, [1], [|values|], text);
    PrintedHolds(t, values, MeaningOf(values, [1], [|values|], 0), floating);
  }

  lemma ReadExactly(t: IntType, node: Json, floating: string -> Option<real>, values: seq<int>,
                    again: seq<int>, passed: bool)
    requires Holds(t, node, floating, values)
    requires |again| == |values| && ReadUpTo(t, node.items, floating, again, passed)
    ensures passed && again == values
  {
    forall i | 0 <= i < |values|
      ensures again[i] == values[i] && PassedElement(t, node.items[i])
    {
      assert Converted(Element(t, node.items[i], floating), again[i]);
      ElementPassed(t, node.items[i], floating);
    }
  }

  lemma HoldsIsVector(t: IntType, node: Json, floating: string -> Option<real>, values: seq<int>)
    requires Holds(t, node, floating, values)
    ensures IsVector(t, Some(node), floating)
  {
  }

  /** Every integer vector, printed and typed back as the value of a set command, is read unchanged. */
  method SetVectorAsPrinted(t: IntType, values: seq<int>, floating: string -> Option<real>)
    returns (r: Result, again: seq<int>)
    requires AllInRange(t, values)
    ensures r.Success? && again == values
  {
    var text := VectorToString(values);
    NestedTidy(values, [1], [|values|], 0, []);
    assert text + [] == text;
    var line := TypedBack(text);
    PrintedVector(t, values, text, floating);
    HoldsIsVector(t, Parse(text).value, floating, values);
    r, again := ParseVector(t, line, floating);
    ReadExactly(t, Parse(text).value, floating, values, again, r.Success?);
  }
}
