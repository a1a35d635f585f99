/** Exactly which texts the reader accepts, and what it makes of them. */
module JsonLanguage {
  import opened Options
  import opened JsonStrings
  import opened Json
  import opened JsonShapes
  import opened JsonSyntax
  import opened JsonProofs

  /** The reader is at a value, and gets through. */
  ghost predicate AtValue(st: State, ts: seq<Token>) {
    && Wants(st) && (st.isKey ==> st.stack != []) && |st.stack| < MAX_DEPTH
    && ts != [] && ts[0] != Mark(']') && Run(st, ts).Some?
  }

  lemma Split(ts: seq<Token>)
    requires ts != []
    ensures ts == [ts[0]] + ts[1..]
  {
  }

  /** Between two values only a comma or the right bracket gets through. */
  lemma AfterElement(st: State, ts: seq<Token>)
    requires st.stack != [] && st.next == End && Run(st, ts).Some?
    ensures ts != [] && (ts[0] == Mark(',') || ts[0] == Mark(if Top(st.stack).isObject then '}' else ']'))
  {
  }

  lemma {:induction false} FindShape(st: State, ts: seq<Token>) returns (s: Shape, ks: seq<Token>)
    requires AtValue(st, ts) && !(ts[0].Quoted? && st.isKey)
    ensures |ks| < |ts| && ts == ShapeTokens(s, ks) && Accepted(s, |st.stack|, st.isKey)
    ensures Run(st, ts) == Run(Done(st, s), ks)
    decreases |ts|, 1
  {
    Split(ts);
    match ts[0]
    case Plain(v) =>
      s, ks := Leaf(v), ts[1..];
    case Quoted(text) =>
      s, ks := Literal(text), ts[1..];
    case Mark(c) =>
      if c == '[' {
        s, ks := FindList(st, ts);
      } else {
        s, ks := FindRecord(st, ts);
      }
  }

  lemma {:induction false} FindList(st: State, ts: seq<Token>) returns (s: Shape, ks: seq<Token>)
    requires AtValue(st, ts) && ts[0] == Mark('[')
    ensures |ks| < |ts| && ts == ShapeTokens(s, ks) && Accepted(s, |st.stack|, st.isKey)
    ensures Run(st, ts) == Run(Done(st, s), ks)
    decreases |ts|, 0
  {
    Split(ts);
    RunOpen(st, false, ts[1..]);
    var st' := Opened(st, false);
    assert Run(st', ts[1..]).Some?;
    if ts[1..] != [] && ts[1] == Mark(']') {
      s, ks := List(NoItems), ts[2..];
      Split(ts[1..]);
      EmptyShape(s, ks, |st.stack|, st.isKey);
      RunEmpty(st, s, ks);
    } else {
      var es;
      es, ks := FindItems(st', ts[1..]);
      s := List(es);
      ContainerAccepted(s, |st.stack|, st.isKey);
      RunList(st, s, ks);
    }
  }

  lemma {:induction false} FindRecord(st: State, ts: seq<Token>) returns (s: Shape, ks: seq<Token>)
    requires AtValue(st, ts) && ts[0] == Mark('{')
    ensures |ks| < |ts| && ts == ShapeTokens(s, ks) && Accepted(s, |st.stack|, st.isKey)
    ensures Run(st, ts) == Run(Done(st, s), ks)
    decreases |ts|, 0
  {
    Split(ts);
    RunOpen(st, true, ts[1..]);
    var st' := Opened(st, true);
    assert Run(st', ts[1..]).Some?;
    if ts[1..] != [] && ts[1] == Mark('}') {
      s, ks := Record(NoParts), ts[2..];
      Split(ts[1..]);
      EmptyShape(s, ks, |st.stack|, st.isKey);
      RunEmpty(st, s, ks);
    } else {
      var ps;
      ps, ks := FindParts(st', ts[1..]);
      s := Record(ps);
      ContainerAccepted(s, |st.stack|, st.isKey);
      RunRecord(st, s, ks);
    }
  }

  lemma {:induction false} FindItems(st: State, ts: seq<Token>) returns (es: Items, ks: seq<Token>)
    requires Wants(st) && 0 < |st.stack| < MAX_DEPTH && !Top(st.stack).isObject && Run(st, ts).Some?
    requires ts != [] ==> ts[0] != Mark(']')
    ensures |ks| < |ts| && es.Item? && ts == ItemsTokens(es, ks) && AcceptedItems(es, |st.stack|, st.isKey)
    decreases |ts|, 3
  {
    if ts[0].Quoted? && st.isKey {
      var st1 := st.(name := ts[0].text, next := ObjectKey);
      Split(ts);
      RunOne(st, ts[0], ts[1..]);
      assert Run(st1, ts[1..]).Some?;
      Split(ts[1..]);
      assert ts[1] == Mark(':');
      RunKey(st, ts[0].text, ts[1..][1..]);
      es, ks := FindItem(st.(isKey := false, next := Value, name := ts[0].text), ts[1..][1..]);
      es := es.(tag := Some(ts[0].text));
    } else {
      es, ks := FindItem(st, ts);
    }
    ItemAccepted(es, |st.stack|, st.isKey);
  }

  /** An element without a label, and the rest of its array. */
  lemma {:induction false} FindItem(st: State, ts: seq<Token>) returns (es: Items, ks: seq<Token>)
    requires AtValue(st, ts) && 0 < |st.stack| && !Top(st.stack).isObject && !(ts[0].Quoted? && st.isKey)
    ensures |ks| < |ts| && es.Item? && es.tag.None? && ts == ItemsTokens(es, ks)
    ensures Accepted(es.value, |st.stack|, st.isKey)
         && AcceptedItems(es.more, |st.stack|, KeyAfter(es.value, st.isKey))
    decreases |ts|, 2
  {
    var s, rest := FindShape(st, ts);
    var st' := Done(st, s);
    AfterElement(st', rest);
    Split(rest);
    if rest[0] == Mark(',') {
      RunComma(st', rest[1..]);
      var more;
      more, ks := FindItems(st'.(next := Value), rest[1..]);
      es := Item(None, s, more);
    } else {
      es, ks := Item(None, s, NoItems), rest[1..];
    }
  }

  lemma {:induction false} FindParts(st: State, ts: seq<Token>) returns (ps: Parts, ks: seq<Token>)
    requires st.isKey && (st.next == Next.Str || st.next == ObjectString) && Run(st, ts).Some?
    requires 0 < |st.stack| < MAX_DEPTH && Top(st.stack).isObject && (ts != [] ==> ts[0] != Mark('}'))
    ensures |ks| < |ts| && ps.Part? && ts == PartsTokens(ps, ks) && AcceptedParts(ps, |st.stack|)
    decreases |ts|, 3
  {
    assert ts[0].Quoted?;
    Split(ts);
    RunOne(st, ts[0], ts[1..]);
    Split(ts[1..]);
    assert ts[1] == Mark(':');
    RunKey(st, ts[0].text, ts[1..][1..]);
    var st1 := st.(isKey := false, next := Value, name := ts[0].text);
    var s, rest := FindShape(st1, ts[1..][1..]);
    var st' := Done(st1, s);
    AfterElement(st', rest);
    Split(rest);
    if rest[0] == Mark(',') {
      RunComma(st', rest[1..]);
      var more;
      more, ks := FindParts(st'.(isKey := true, next := Next.Str), rest[1..]);
      ps := Part(ts[0].text, s, more);
    } else {
      ps, ks := Part(ts[0].text, s, NoParts), rest[1..];
    }
    PartAccepted(ps, |st.stack|);
  }

  /** The text is, token by token, a structure within the reader's limits. */
  ghost predicate Spells(text: string, s: Shape) {
    Tokens(text) == ShapeTokens(s, []) && Accepted(s, 0, false)
  }

  lemma NothingAfterDocument(st: State, ts: seq<Token>)
    requires st.stack == [] && st.next == End && Run(st, ts).Some?
    ensures ts == []
  {
  }

  /** The reader accepts exactly the texts that spell a structure within its limits, and gives that
      structure's meaning. */
  lemma AcceptsExactly(text: string, v: Json)
    ensures Parse(text) == Some(v) <==> exists s :: Spells(text, s) && Meaning(s) == v
  {
    if Parse(text).Some? {
      var s, ks := FindShape(START, Tokens(text));
      NothingAfterDocument(Done(START, s), ks);
      assert Spells(text, s);
    }
    forall s | Spells(text, s)
      ensures Parse(text) == Some(Meaning(s))
    {
      RunShape(START, s, []);
    }
  }

  /** A text without empty objects is accepted exactly when it spells a structure within the limits,
      no label standing before any element. Its numbers may be any runs of number characters. */
  lemma AcceptsFilled(text: string, s: Shape)
    requires Tokens(text) == ShapeTokens(s, []) && Filled(s)
    ensures Parse(text).Some? <==> Unlabelled(s) && Readable(s) && Depth(s) <= 63
  {
    FilledIsPlain(s);
    RunShape(START, s, []);
  }

  /** An array that begins with an empty object. */
  function AfterEmpty(rest: Items): Shape {
    List(Item(None, Record(NoParts), rest))
  }

  lemma AfterEmptyAccepted(rest: Items)
    requires ItemsDepth(rest) == 0
    ensures Accepted(AfterEmpty(rest), 0, false) <==> LegalItems(rest, true)
  {
    var items := Item(None, Record(NoParts), rest);
    assert KeyAfterParts(NoParts) && LegalParts(NoParts) && PartsDepth(NoParts) == 0;
    assert KeyAfter(Record(NoParts), false) && Legal(Record(NoParts), false);
    assert LegalItems(items, false) <==> LegalItems(rest, true);
    assert Depth(Record(NoParts)) == 1 && ItemsDepth(items) == 1;
  }

  lemma OneElement(tag: Option<string>, s: Shape)
    requires s.Leaf? || s.Literal?
    ensures ItemsDepth(Item(tag, s, NoItems)) == 0
    ensures LegalItems(Item(tag, s, NoItems), true) <==> tag.Some? || s.Leaf?
    ensures ItemsMeaning(Item(tag, s, NoItems), [Object([])]) == [Object([]), Meaning(s)]
  {
    assert Depth(s) == 0 && ItemsDepth(NoItems) == 0;
    assert forall key :: LegalItems(NoItems, key);
    assert ItemsMeaning(NoItems, [Object([])] + [Meaning(s)]) == [Object([]), Meaning(s)];
  }

  /** The reader refuses a well-formed array for the string after its empty object, */
  lemma StringAfterEmptyObject(t: Tree, before: string, after: string, text: string)
    requires Blank(before) && WellFormed(t) && Blank(after)
    requires ShapeOf(t) == AfterEmpty(Item(None, Literal(text), NoItems))
    ensures Parse(before + Text(t, after)) == None
  {
    ParsesDocument(before, t, after);
    OneElement(None, Literal(text));
    AfterEmptyAccepted(Item(None, Literal(text), NoItems));
  }

  /** and reads one with a label in that place, which JSON does not have. */
  lemma LabelAfterEmptyObject(text: string, name: string, v: Json)
    requires Tokens(text) == ShapeTokens(AfterEmpty(Item(Some(name), Leaf(v), NoItems)), [])
    ensures Parse(text) == Some(Array([Object([]), v]))
  {
    var rest := Item(Some(name), Leaf(v), NoItems);
    OneElement(Some(name), Leaf(v));
    AfterEmptyAccepted(rest);
    assert Spells(text, AfterEmpty(rest));
    assert PartsMeaning(NoParts, []) == [];
    assert Meaning(Record(NoParts)) == Object([]);
    assert [] + [Object([])] == [Object([])];
    assert ItemsMeaning(Item(None, Record(NoParts), rest), []) == ItemsMeaning(rest, [Object([])]);
    assert Meaning(AfterEmpty(rest)) == Array([Object([]), v]);
    AcceptsExactly(text, Array([Object([]), v]));
  }

  // ---- The shortest such texts ------------------------------------------------------

  lemma TwoMarks(c: char, d: char, k: string)
    requires IsMark(c) && IsMark(d)
    ensures Tokens([c, d] + k) == [Mark(c), Mark(d)] + Tokens(k)
  {
    MarkTokens(d, k);
    MarkTokens(c, [d] + k);
    assert [c] + ([d] + k) == [c, d] + k;
  }

  lemma FourSplit<T>(a: T, b: T, c: T, d: T, k: seq<T>)
    ensures [a, b] + ([c, d] + k) == [a, b, c, d] + k
  {
  }

  lemma OpeningTokens(k: string)
    ensures Tokens("[{}," + k) == [Mark('['), Mark('{'), Mark('}'), Mark(',')] + Tokens(k)
  {
    TwoMarks('}', ',', k);
    TwoMarks('[', '{', ['}', ','] + k);
    FourSplit('[', '{', '}', ',', k);
    FourSplit(Mark('['), Mark('{'), Mark('}'), Mark(','), Tokens(k));
  }

  lemma LetterTokens(k: string)
    ensures Tokens("\"x\"" + k) == [Quoted("x")] + Tokens(k)
  {
    LetterLiteral(k);
    LiteralTokens([Raw('x')], k);
  }

  lemma LetterLiteral(k: string)
    ensures ValidUnits([Raw('x')]) && LiteralBytes([Raw('x')]) == "x"
    ensures ['"'] + LiteralText([Raw('x')], k) == "\"x\"" + k
  {
    var us := [Raw('x')];
    assert us[1..] == [];
    assert LiteralText(us, k) == ['x'] + LiteralText(us[1..], k) == ['x'] + (['"'] + k);
    assert LiteralBytes(us) == ['x'] + LiteralBytes(us[1..]) == "x";
  }

  lemma OneTokens(k: string)
    requires k != [] ==> !InNumber(k[0])
    ensures Tokens("1" + k) == [Plain(Number("1"))] + Tokens(k)
  {
    assert ("1" + k)[..1] == "1" && ("1" + k)[1..] == k;
    assert NumberEnd("1" + k, 1) == 1;
  }

  lemma LabelledTokens()
    ensures Tokens("\"x\":1]") == [Quoted("x"), Mark(':'), Plain(Number("1")), Mark(']')]
  {
    LetterTokens(":1]");
    MarkTokens(':', "1]");
    OneTokens("]");
    MarkTokens(']', []);
    assert "\"x\"" + ":1]" == "\"x\":1]" && [':'] + "1]" == ":1]" && "1" + "]" == "1]" && [']'] + [] == "]";
  }

  lemma RestTokens(rest: Items)
    requires rest.Item?
    ensures ShapeTokens(AfterEmpty(rest), []) == [Mark('['), Mark('{'), Mark('}'), Mark(',')] + ItemsTokens(rest, [])
  {
    var ks := [Mark(',')] + ItemsTokens(rest, []);
    assert ShapeTokens(Record(NoParts), ks) == [Mark('{')] + ([Mark('}')] + ks);
    assert ItemsTokens(Item(None, Record(NoParts), rest), []) == ShapeTokens(Record(NoParts), ks);
  }

  lemma StringRefused(text: string, x: string)
    requires Tokens(text) == [Mark('['), Mark('{'), Mark('}'), Mark(',')] + [Quoted(x), Mark(']')]
    ensures Parse(text) == None
  {
    var rest := Item(None, Literal(x), NoItems);
    RestTokens(rest);
    assert ItemsTokens(rest, []) == [Quoted(x)] + ([Mark(']')] + []) == [Quoted(x), Mark(']')];
    OneElement(None, Literal(x));
    AfterEmptyAccepted(rest);
    RunShape(START, AfterEmpty(rest), []);
  }

  lemma LabelAccepted(text: string, x: string, v: Json)
    requires Tokens(text) == [Mark('['), Mark('{'), Mark('}'), Mark(',')] + [Quoted(x), Mark(':'), Plain(v), Mark(']')]
    ensures Parse(text) == Some(Array([Object([]), v]))
  {
    var rest := Item(Some(x), Leaf(v), NoItems);
    RestTokens(rest);
    assert ShapeTokens(Leaf(v), [Mark(']')] + []) == [Plain(v), Mark(']')];
    assert ItemsTokens(rest, []) == [Quoted(x), Mark(':'), Plain(v), Mark(']')];
    LabelAfterEmptyObject(text, x, v);
  }

  lemma RefusedText()
    ensures Parse("[{},\"x\"]") == None
  {
    OpeningTokens("\"x\"]");
    LetterTokens("]");
    MarkTokens(']', []);
    assert "[{}," + "\"x\"]" == "[{},\"x\"]" && "\"x\"" + "]" == "\"x\"]" && [']'] + [] == "]";
    StringRefused("[{},\"x\"]", "x");
  }

  lemma AcceptedText()
    ensures Parse("[{},\"x\":1]") == Some(Array([Object([]), Number("1")]))
  {
    OpeningTokens("\"x\":1]");
    LabelledTokens();
    assert "[{}," + "\"x\":1]" == "[{},\"x\":1]";
    LabelAccepted("[{},\"x\":1]", "x", Number("1"));
  }
}
