/** The reader gives back exactly what a document says, or nothing exactly when the document is
    beyond its limits. */
module JsonProofs {
  import opened Options
  import opened JsonGrammar
  import opened JsonStrings
  import opened Json
  import opened JsonShapes
  import opened JsonSyntax

  /** The reader's blanks, the characters of its numbers, its escapes and its hex digits are those of
      the grammar. */
  lemma ReaderCharacters(c: char)
    ensures IsSpace(c) <==> IsWhite(c)
    ensures StartsNumber(c) <==> MayBeginNumber(c)
    ensures InNumber(c) <==> MayBeInNumber(c)
    ensures IsSimpleEscape(c) <==> IsEscapable(c)
    ensures IsSimpleEscape(c) ==> Unescaped(c) == EscapeMeaning(c)
    ensures IsHex(c) <==> IsHexDigit(c)
    ensures IsHex(c) ==> HexDigit(c) == HexValue(c)
  {
    SameEscape(c);
    SameHex(c);
  }

  // ---- Tokens of a text -------------------------------------------------------------

  lemma {:induction false} BlankTokens(gap: string, k: string)
    requires Blank(gap)
    ensures Tokens(gap + k) == Tokens(k)
    decreases |gap|
  {
    if gap == [] {
      assert gap + k == k;
    } else {
      assert (gap + k)[1..] == gap[1..] + k;
      BlankTokens(gap[1..], k);
    }
  }

  lemma MarkTokens(c: char, k: string)
    requires IsMark(c)
    ensures Tokens([c] + k) == [Mark(c)] + Tokens(k)
  {
    assert ([c] + k)[1..] == k;
  }

  lemma LiteralTokens(us: seq<Unit>, k: string)
    requires ValidUnits(us)
    ensures Tokens(['"'] + LiteralText(us, k)) == [Quoted(LiteralBytes(us))] + Tokens(k)
  {
    assert (['"'] + LiteralText(us, k))[1..] == LiteralText(us, k);
    ScanLiteral(us, k, []);
    assert [] + LiteralBytes(us) == LiteralBytes(us);
  }

  lemma WordTokens(c: char, k: string)
    requires c == 't' || c == 'f' || c == 'n'
    ensures Tokens(Word(c) + k) == [Plain(WordValue(c))] + Tokens(k)
  {
    var s := Word(c) + k;
    assert s[..|Word(c)|] == Word(c) && s[|Word(c)|..] == k;
  }

  lemma {:induction false} NumberEnds(text: string, k: string, p: nat)
    requires p <= |text| && p <= 127 && AllInNumber(text[p..])
    requires k != [] ==> !InNumber(k[0])
    ensures NumberEnd(text + k, p) == if |text| <= 127 then |text| else 127
    decreases |text| - p
  {
    if p < |text| && p < 127 {
      assert text[p..][1..] == text[p + 1..];
      assert (text + k)[p] == text[p];
      NumberEnds(text, k, p + 1);
    } else if p == |text| && k != [] {
      assert (text + k)[p] == k[0];
    }
  }

  lemma {:induction false} InNumberAt(s: string, i: nat)
    requires AllInNumber(s) && i < |s|
    ensures InNumber(s[i])
    decreases i
  {
    if i > 0 {
      InNumberAt(s[1..], i - 1);
    }
  }

  lemma NumberTokens(text: string, k: string)
    requires WellFormed(Num(text)) && (k != [] ==> !InNumber(k[0]))
    ensures Tokens(text + k) == ShapeTokens(ShapeOf(Num(text)), Tokens(k))
  {
    var s := text + k;
    NumberEnds(text, k, 1);
    if |text| > 127 {
      InNumberAt(text[1..], 126);
    } else {
      assert s[..|text|] == text && s[|text|..] == k;
    }
  }

  predicate EndsNumber(k: string) { k != [] ==> !InNumber(k[0]) }

  lemma BlankEndsNumber(gap: string, c: char, k: string)
    requires Blank(gap) && IsMark(c)
    ensures EndsNumber(gap + ([c] + k))
  {
  }

  lemma {:induction false} TextTokens(t: Tree, k: string)
    requires WellFormed(t) && EndsNumber(k)
    ensures Tokens(Text(t, k)) == ShapeTokens(ShapeOf(t), Tokens(k))
    decreases t
  {
    match t
    case Nothing => WordTokens('n', k);
    case Yes => WordTokens('t', k);
    case No => WordTokens('f', k);
    case Num(text) => NumberTokens(text, k);
    case Str(units) => LiteralTokens(units, k);
    case Arr(gap, elems) =>
      MarkTokens('[', if elems.NoElems? then gap + ([']'] + k) else ElemsText(elems, k));
      if elems.NoElems? {
        BlankTokens(gap, [']'] + k);
        MarkTokens(']', k);
      } else {
        ElemsTextTokens(elems, k);
      }
    case Obj(gap, members) =>
      MarkTokens('{', if members.NoMembers? then gap + (['}'] + k) else MembersText(members, k));
      if members.NoMembers? {
        BlankTokens(gap, ['}'] + k);
        MarkTokens('}', k);
      } else {
        MembersTextTokens(members, k);
      }
  }

  lemma {:induction false} ElemsTextTokens(es: Elems, k: string)
    requires es.Elem? && WellFormedElems(es)
    ensures Tokens(ElemsText(es, k)) == ItemsTokens(ItemsOf(es), Tokens(k))
    decreases es
  {
    var mark := if es.more.NoElems? then ']' else ',';
    var tail := if es.more.NoElems? then k else ElemsText(es.more, k);
    BlankTokens(es.before, Text(es.value, es.after + ([mark] + tail)));
    BlankEndsNumber(es.after, mark, tail);
    TextTokens(es.value, es.after + ([mark] + tail));
    BlankTokens(es.after, [mark] + tail);
    MarkTokens(mark, tail);
    if es.more.Elem? {
      ElemsTextTokens(es.more, k);
    }
  }

  lemma {:induction false} MembersTextTokens(ms: Members, k: string)
    requires ms.Member? && WellFormedMembers(ms)
    ensures Tokens(MembersText(ms, k)) == PartsTokens(PartsOf(ms), Tokens(k))
    decreases ms
  {
    var mark := if ms.more.NoMembers? then '}' else ',';
    var tail := if ms.more.NoMembers? then k else MembersText(ms.more, k);
    var text := Text(ms.value, ms.after + ([mark] + tail));
    KeyTokens(ms, text);
    BlankEndsNumber(ms.after, mark, tail);
    TextTokens(ms.value, ms.after + ([mark] + tail));
    BlankTokens(ms.after, [mark] + tail);
    MarkTokens(mark, tail);
    if ms.more.Member? {
      MembersTextTokens(ms.more, k);
    }
  }

  lemma KeyTokens(ms: Members, text: string)
    requires ms.Member? && WellFormedMembers(ms)
    ensures Tokens(ms.before + (['"'] + LiteralText(ms.key, ms.between + ([':'] + (ms.gap + text)))))
         == [Quoted(LiteralBytes(ms.key))] + ([Mark(':')] + Tokens(text))
  {
    var colon := [':'] + (ms.gap + text);
    BlankTokens(ms.before, ['"'] + LiteralText(ms.key, ms.between + colon));
    LiteralTokens(ms.key, ms.between + colon);
    BlankTokens(ms.between, colon);
    MarkTokens(':', ms.gap + text);
    BlankTokens(ms.gap, text);
  }

  // ---- Running the tokens of a value ------------------------------------------------

  lemma RunOne(st: State, t: Token, ks: seq<Token>)
    ensures Run(st, [t] + ks) == match Feed(st, t) case None => None case Some(st') => Run(st', ks)
  {
    assert ([t] + ks)[1..] == ks;
  }

  predicate Wants(st: State) {
    st.next == Value || st.next == ArrayValue
  }

  function Done(st: State, s: Shape): State {
    Enter(st, Meaning(s)).(isKey := KeyAfter(s, st.isKey))
  }

  /** The innermost container closed with these contents. */
  function Finished(st: State, v: Json, key: bool): State
    requires st.stack != []
  {
    Enter(st.(stack := Below(st.stack), name := Top(st.stack).name), v).(isKey := key)
  }

  lemma RunClose(st: State, ks: seq<Token>)
    requires st.stack != []
    requires st.next == End || st.next == (if Top(st.stack).isObject then ObjectString else ArrayValue)
    ensures var n := Top(st.stack);
            Run(st, [Mark(if n.isObject then '}' else ']')] + ks) == Run(Finished(st, Closed(n), st.isKey), ks)
  {
    RunOne(st, Mark(if Top(st.stack).isObject then '}' else ']'), ks);
  }

  lemma RunComma(st: State, ks: seq<Token>)
    requires st.stack != [] && st.next == End
    ensures Run(st, [Mark(',')] + ks)
         == Run(if Top(st.stack).isObject then st.(isKey := true, next := Next.Str) else st.(next := Value), ks)
  {
    RunOne(st, Mark(','), ks);
  }

  lemma RunOpen(st: State, isObject: bool, ks: seq<Token>)
    requires Wants(st)
    ensures Run(st, [Mark(if isObject then '{' else '[')] + ks)
         == if |st.stack| + 1 >= MAX_DEPTH then None else Run(Opened(st, isObject), ks)
  {
    RunOne(st, Mark(if isObject then '{' else '['), ks);
  }

  function Opened(st: State, isObject: bool): State {
    State(st.stack + [Node(isObject, st.name, [], [])], isObject || st.isKey,
          if isObject then ObjectString else ArrayValue, [], st.document)
  }

  /** A container opened and closed is one value entered. */
  lemma OpenedFinished(st: State, isObject: bool, v: Json, key: bool)
    ensures Finished(Opened(st, isObject), v, key) == Enter(st, v).(isKey := key)
  {
    assert Below(Opened(st, isObject).stack) == st.stack;
  }

  /** A value entered into an open container, which is finished later. */
  lemma EnteredFinished(st: State, v: Json, st': State, w: Json, key: bool)
    requires st.stack != [] && st'.stack == Enter(st, v).stack && st'.document == st.document
    ensures Finished(st', w, key) == Finished(st, w, key)
  {
    assert Below(st'.stack) == Below(st.stack);
  }

  /** A key and its colon, in an object or where the reader takes a string for a key. */
  lemma RunKey(st: State, name: string, ks: seq<Token>)
    requires st.isKey && (Wants(st) || st.next == Next.Str || st.next == ObjectString)
    ensures Run(st, [Quoted(name)] + ([Mark(':')] + ks)) == Run(st.(isKey := false, next := Value, name := name), ks)
  {
    RunOne(st, Quoted(name), [Mark(':')] + ks);
    RunOne(st.(name := name, next := ObjectKey), Mark(':'), ks);
  }

  lemma ContainerAccepted(s: Shape, depth: nat, key: bool)
    ensures s.List? ==> (Accepted(s, depth, key) <==> AcceptedItems(s.items, depth + 1, key))
    ensures s.Record? ==> (Accepted(s, depth, key) <==> AcceptedParts(s.parts, depth + 1))
  {
  }

  lemma ItemAccepted(es: Items, depth: nat, key: bool)
    requires es.Item? && depth < MAX_DEPTH
    ensures AcceptedItems(es, depth, key)
       <==> (es.tag.Some? ==> key) && Accepted(es.value, depth, key && es.tag.None?)
            && AcceptedItems(es.more, depth, KeyAfter(es.value, key && es.tag.None?))
    ensures AcceptedItems(NoItems, depth, key)
  {
  }

  lemma PartAccepted(ps: Parts, depth: nat)
    requires ps.Part? && depth < MAX_DEPTH
    ensures AcceptedParts(ps, depth) <==> Accepted(ps.value, depth, false) && AcceptedParts(ps.more, depth)
    ensures AcceptedParts(NoParts, depth)
  {
  }

  /** The reader goes on after the value, or refuses it. */
  predicate Passes(st: State, ts: seq<Token>, accepted: bool, st': State, ks: seq<Token>) {
    Run(st, ts) == if accepted then Run(st', ks) else None
  }

  lemma {:induction false} RunShape(st: State, s: Shape, ks: seq<Token>)
    requires Wants(st) && (st.isKey ==> st.stack != []) && |st.stack| < MAX_DEPTH
    requires ks != [] ==> ks[0] != Mark(':')
    ensures Passes(st, ShapeTokens(s, ks), Accepted(s, |st.stack|, st.isKey), Done(st, s), ks)
    decreases s
  {
    match s
    case Leaf(v) => RunOne(st, Plain(v), ks);
    case Literal(text) => RunOne(st, Quoted(text), ks);
    case Unreadable => RunOne(st, Bad, []);
    case List(items) => if items.NoItems? { RunEmpty(st, s, ks); } else { RunList(st, s, ks); }
    case Record(parts) => if parts.NoParts? { RunEmpty(st, s, ks); } else { RunRecord(st, s, ks); }
  }

  predicate IsEmpty(s: Shape) { (s.List? && s.items.NoItems?) || (s.Record? && s.parts.NoParts?) }

  lemma EmptyShape(s: Shape, ks: seq<Token>, depth: nat, key: bool)
    requires IsEmpty(s)
    ensures ShapeTokens(s, ks) == [Mark(if s.Record? then '{' else '[')] + ([Mark(if s.Record? then '}' else ']')] + ks)
    ensures Meaning(s) == if s.Record? then Object([]) else Array([])
    ensures KeyAfter(s, key) == (s.Record? || key)
    ensures Accepted(s, depth, key) <==> depth + 1 < MAX_DEPTH
  {
    assert Depth(s) == 1;
    if s.List? {
      assert LegalItems(s.items, key);
    } else {
      assert LegalParts(s.parts);
    }
  }

  lemma RunEmpty(st: State, s: Shape, ks: seq<Token>)
    requires IsEmpty(s) && Wants(st)
    ensures Passes(st, ShapeTokens(s, ks), Accepted(s, |st.stack|, st.isKey), Done(st, s), ks)
  {
    EmptyShape(s, ks, |st.stack|, st.isKey);
    RunOpen(st, s.Record?, [Mark(if s.Record? then '}' else ']')] + ks);
    RunClose(Opened(st, s.Record?), ks);
    OpenedFinished(st, s.Record?, Meaning(s), KeyAfter(s, st.isKey));
  }

  lemma {:induction false} RunList(st: State, s: Shape, ks: seq<Token>)
    requires s.List? && s.items.Item? && Wants(st)
    ensures Passes(st, ShapeTokens(s, ks), Accepted(s, |st.stack|, st.isKey), Done(st, s), ks)
    decreases s, 0
  {
    RunOpen(st, false, ItemsTokens(s.items, ks));
    ContainerAccepted(s, |st.stack|, st.isKey);
    if |st.stack| + 1 < MAX_DEPTH {
      RunItems(Opened(st, false), s.items, ks);
      OpenedFinished(st, false, Meaning(s), KeyAfter(s, st.isKey));
    }
  }

  lemma {:induction false} RunRecord(st: State, s: Shape, ks: seq<Token>)
    requires s.Record? && s.parts.Part? && Wants(st)
    ensures Passes(st, ShapeTokens(s, ks), Accepted(s, |st.stack|, st.isKey), Done(st, s), ks)
    decreases s, 0
  {
    RunOpen(st, true, PartsTokens(s.parts, ks));
    ContainerAccepted(s, |st.stack|, st.isKey);
    if |st.stack| + 1 < MAX_DEPTH {
      RunParts(Opened(st, true), s.parts, ks);
      OpenedFinished(st, true, Meaning(s), KeyAfter(s, st.isKey));
    }
  }

  /** A label where none may be: the string is an element, and a colon cannot follow one. */
  lemma StrayLabel(st: State, name: string, ks: seq<Token>)
    requires !st.isKey && Wants(st)
    ensures Run(st, [Quoted(name)] + ([Mark(':')] + ks)) == None
  {
    RunOne(st, Quoted(name), [Mark(':')] + ks);
    RunOne(Enter(st, String(name)), Mark(':'), ks);
  }

  lemma {:induction false} RunItems(st: State, es: Items, ks: seq<Token>)
    requires es.Item? && Wants(st) && 0 < |st.stack| < MAX_DEPTH && !Top(st.stack).isObject
    ensures Passes(st, ItemsTokens(es, ks), AcceptedItems(es, |st.stack|, st.isKey),
                   Finished(st, Array(ItemsMeaning(es, Top(st.stack).items)), KeyAfterItems(es, st.isKey)), ks)
    decreases es, 1
  {
    ItemAccepted(es, |st.stack|, st.isKey);
    var tail := if es.more.NoItems? then [Mark(']')] + ks else [Mark(',')] + ItemsTokens(es.more, ks);
    if es.tag.None? {
      RunItem(st, es, ks);
    } else if !st.isKey {
      StrayLabel(st, es.tag.value, ShapeTokens(es.value, tail));
    } else {
      RunKey(st, es.tag.value, ShapeTokens(es.value, tail));
      RunItem(st.(isKey := false, next := Value, name := es.tag.value), es, ks);
    }
  }

  /** The reader at an element, past its label if it has one. */
  lemma {:induction false} RunItem(st: State, es: Items, ks: seq<Token>)
    requires es.Item? && Wants(st) && 0 < |st.stack| < MAX_DEPTH && !Top(st.stack).isObject
    ensures var tail := if es.more.NoItems? then [Mark(']')] + ks else [Mark(',')] + ItemsTokens(es.more, ks);
            Passes(st, ShapeTokens(es.value, tail),
                   Accepted(es.value, |st.stack|, st.isKey)
                   && AcceptedItems(es.more, |st.stack|, KeyAfter(es.value, st.isKey)),
                   Finished(st, Array(ItemsMeaning(es, Top(st.stack).items)),
                            KeyAfterItems(es.more, KeyAfter(es.value, st.isKey))), ks)
    decreases es, 0
  {
    var st' := Done(st, es.value);
    var v := Array(ItemsMeaning(es, Top(st.stack).items));
    var key := KeyAfterItems(es.more, KeyAfter(es.value, st.isKey));
    if es.more.NoItems? {
      RunShape(st, es.value, [Mark(']')] + ks);
      RunClose(st', ks);
      EnteredFinished(st, Meaning(es.value), st', v, key);
    } else {
      RunShape(st, es.value, [Mark(',')] + ItemsTokens(es.more, ks));
      RunComma(st', ItemsTokens(es.more, ks));
      RunItems(st'.(next := Value), es.more, ks);
      EnteredFinished(st, Meaning(es.value), st'.(next := Value), v, key);
    }
  }

  lemma {:induction false} RunParts(st: State, ps: Parts, ks: seq<Token>)
    requires ps.Part? && st.isKey && (st.next == Next.Str || st.next == ObjectString)
    requires 0 < |st.stack| < MAX_DEPTH && Top(st.stack).isObject
    ensures Passes(st, PartsTokens(ps, ks), AcceptedParts(ps, |st.stack|),
                   Finished(st, Object(PartsMeaning(ps, Top(st.stack).fields)), KeyAfterParts(ps)), ks)
    decreases ps, 1
  {
    var tail := if ps.more.NoParts? then [Mark('}')] + ks else [Mark(',')] + PartsTokens(ps.more, ks);
    RunKey(st, ps.name, ShapeTokens(ps.value, tail));
    PartAccepted(ps, |st.stack|);
    RunPart(st.(isKey := false, next := Value, name := ps.name), ps, ks);
  }

  lemma AddsPart(n: Node, ps: Parts)
    requires ps.Part? && n.isObject
    ensures Add(n, ps.name, Meaning(ps.value)).isObject
    ensures PartsMeaning(ps, n.fields) == PartsMeaning(ps.more, Add(n, ps.name, Meaning(ps.value)).fields)
  {
    FieldFound(n.fields, ps.name);
  }

  /** The reader at the value of a field, past its key. */
  lemma {:induction false} RunPart(st: State, ps: Parts, ks: seq<Token>)
    requires ps.Part? && !st.isKey && st.next == Value && st.name == ps.name
    requires 0 < |st.stack| < MAX_DEPTH && Top(st.stack).isObject
    ensures var tail := if ps.more.NoParts? then [Mark('}')] + ks else [Mark(',')] + PartsTokens(ps.more, ks);
            Passes(st, ShapeTokens(ps.value, tail),
                   Accepted(ps.value, |st.stack|, false) && AcceptedParts(ps.more, |st.stack|),
                   Finished(st, Object(PartsMeaning(ps, Top(st.stack).fields)), KeyAfterParts(ps)), ks)
    decreases ps, 0
  {
    var st' := Done(st, ps.value);
    var v, key := Object(PartsMeaning(ps, Top(st.stack).fields)), KeyAfterParts(ps);
    AddsPart(Top(st.stack), ps);
    if ps.more.NoParts? {
      RunShape(st, ps.value, [Mark('}')] + ks);
      RunClose(st', ks);
      EnteredFinished(st, Meaning(ps.value), st', v, key);
    } else {
      var st2 := st'.(isKey := true, next := Next.Str);
      RunShape(st, ps.value, [Mark(',')] + PartsTokens(ps.more, ks));
      RunComma(st', PartsTokens(ps.more, ks));
      RunParts(st2, ps.more, ks);
      EnteredFinished(st, Meaning(ps.value), st2, v, key);
    }
  }

  /** Every document, with any blanks around it, is read as what it says, unless it is nested more
      than 63 deep, has a number of more than 127 characters, or has a string in an array that
      comes after an empty object with no key in between: then, and only then, it is refused. */
  lemma ParsesDocument(before: string, t: Tree, after: string)
    requires Blank(before) && WellFormed(t) && Blank(after)
    ensures Parse(before + Text(t, after)) == if Accepted(ShapeOf(t), 0, false) then Some(Meaning(ShapeOf(t))) else None
  {
    BlankTokens(before, Text(t, after));
    assert after + [] == after;
    BlankTokens(after, []);
    TextTokens(t, after);
    RunShape(START, ShapeOf(t), []);
  }
}
