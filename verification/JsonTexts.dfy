/** The language of the reader as texts: which of the texts it accepts are JSON by RFC 8259, and
    which JSON texts it accepts. */
module JsonTexts {
  import opened Options
  import opened JsonStrings
  import opened Json
  import opened JsonShapes
  import opened JsonSyntax
  import opened JsonProofs
  import opened JsonLanguage

  // ---- From tokens back to text -----------------------------------------------------

  lemma {:induction false} CutSpaces(s: string) returns (gap: string, rest: string)
    ensures s == gap + rest && Blank(gap) && (rest != [] ==> !IsSpace(rest[0]))
    decreases |s|
  {
    gap, rest := [], s;
    if s != [] && IsSpace(s[0]) {
      gap, rest := CutSpaces(s[1..]);
      BlankMore(s[0], gap);
      gap := [s[0]] + gap;
    }
  }

  lemma BlankMore(c: char, gap: string)
    requires IsSpace(c) && Blank(gap)
    ensures Blank([c] + gap)
  {
    ReaderCharacters(c);
    assert ([c] + gap)[1..] == gap;
  }

  lemma CutBlank(s: string) returns (gap: string, rest: string)
    ensures s == gap + rest && Blank(gap) && (rest != [] ==> !IsSpace(rest[0])) && Tokens(rest) == Tokens(s)
  {
    gap, rest := CutSpaces(s);
    BlankTokens(gap, rest);
  }

  /** The head and the tail of two equal series of tokens. */
  lemma SameHead(t: Token, ts: seq<Token>, u: Token, us: seq<Token>)
    requires [t] + ts == [u] + us
    ensures t == u && ts == us
  {
    assert ([t] + ts)[0] == t && ([u] + us)[0] == u;
    assert ([t] + ts)[1..] == ts && ([u] + us)[1..] == us;
  }

  lemma CutMark(s: string, c: char, ks: seq<Token>) returns (gap: string, rest: string)
    requires Tokens(s) == [Mark(c)] + ks
    ensures s == gap + ([c] + rest) && Blank(gap) && Tokens(rest) == ks
  {
    var start;
    gap, start := CutBlank(s);
    MarkFirst(start, c, ks);
    rest := start[1..];
    assert start == [c] + rest;
  }

  lemma MarkFirst(s: string, c: char, ks: seq<Token>)
    requires Tokens(s) == [Mark(c)] + ks && (s != [] ==> !IsSpace(s[0]))
    ensures s != [] && s[0] == c && Tokens(s[1..]) == ks
  {
    assert Tokens(s)[0] == Mark(c);
    assert IsMark(s[0]);
    SameHead(Mark(s[0]), Tokens(s[1..]), Mark(c), ks);
  }

  lemma CutQuoted(s: string, text: string, ks: seq<Token>) returns (gap: string, us: seq<Unit>, rest: string)
    requires Tokens(s) == [Quoted(text)] + ks
    ensures s == gap + (['"'] + LiteralText(us, rest)) && Blank(gap)
    ensures ValidUnits(us) && LiteralBytes(us) == text && Tokens(rest) == ks
  {
    var start;
    gap, start := CutBlank(s);
    QuotedFirst(start, text, ks);
    us, rest := FindUnits(start[1..], []);
    ScanLiteral(us, rest, []);
    assert [] + LiteralBytes(us) == LiteralBytes(us);
    assert start == ['"'] + start[1..];
  }

  lemma QuotedFirst(s: string, text: string, ks: seq<Token>)
    requires Tokens(s) == [Quoted(text)] + ks && (s != [] ==> !IsSpace(s[0]))
    ensures s != [] && s[0] == '"'
    ensures var r := Scan(s[1..], []); r.Some? && r.value.0 == text && Tokens(r.value.1) == ks
  {
    assert Tokens(s)[0] == Quoted(text);
    assert s[0] == '"';
    var r := Scan(s[1..], []);
    SameHead(Quoted(r.value.0), Tokens(r.value.1), Quoted(text), ks);
  }

  lemma CutPlain(s: string, v: Json, ks: seq<Token>) returns (gap: string, t: Tree, rest: string)
    requires Tokens(s) == [Plain(v)] + ks
    ensures s == gap + Text(t, rest) && Blank(gap) && WellFormed(t) && ShapeOf(t) == Leaf(v) && Tokens(rest) == ks
  {
    var start;
    gap, start := CutBlank(s);
    assert Tokens(start)[0] == Plain(v);
    if StartsNumber(start[0]) {
      t, rest := NumberFirst(start, v, ks);
    } else {
      t, rest := WordFirst(start, v, ks);
    }
  }

  lemma WordFirst(s: string, v: Json, ks: seq<Token>) returns (t: Tree, rest: string)
    requires Tokens(s) == [Plain(v)] + ks && s != [] && !IsSpace(s[0]) && !StartsNumber(s[0])
    ensures s == Text(t, rest) && WellFormed(t) && ShapeOf(t) == Leaf(v) && Tokens(rest) == ks
  {
    assert Tokens(s)[0] == Plain(v);
    var w := Word(s[0]);
    rest := s[|w|..];
    SameHead(Plain(WordValue(s[0])), Tokens(rest), Plain(v), ks);
    t := if s[0] == 't' then Yes else if s[0] == 'f' then No else Nothing;
    assert s == w + rest;
  }

  lemma {:induction false} NumberEndInside(s: string, p: nat)
    requires p <= |s| && p <= 127
    ensures AllInNumber(s[p..NumberEnd(s, p)]) && NumberEnd(s, p) <= 127
    decreases |s| - p
  {
    if p < |s| && InNumber(s[p]) && p + 1 < 128 {
      NumberEndInside(s, p + 1);
      var run := s[p..NumberEnd(s, p)];
      assert run[1..] == s[p + 1..NumberEnd(s, p)];
    }
  }

  lemma NumberFirst(s: string, v: Json, ks: seq<Token>) returns (t: Tree, rest: string)
    requires Tokens(s) == [Plain(v)] + ks && s != [] && !IsSpace(s[0]) && StartsNumber(s[0])
    ensures s == Text(t, rest) && WellFormed(t) && ShapeOf(t) == Leaf(v) && Tokens(rest) == ks
  {
    assert Tokens(s)[0] == Plain(v);
    var q := NumberEnd(s, 1);
    var text := s[..q];
    rest := s[q..];
    NumberEndInside(s, 1);
    assert text[1..] == s[1..q];
    SameHead(Plain(Number(text)), Tokens(rest), Plain(v), ks);
    t := Num(text);
    assert s == text + rest;
  }

  lemma {:induction false} NoTokens(s: string)
    requires Tokens(s) == []
    ensures Blank(s)
    decreases |s|
  {
    if s != [] {
      NoTokens(s[1..]);
    }
  }

  /** A text whose tokens begin with those of an unlabelled structure begins with a tree of that
      structure. */
  lemma {:induction false} FindTree(s: Shape, text: string, ks: seq<Token>) returns (gap: string, t: Tree, rest: string)
    requires Tokens(text) == ShapeTokens(s, ks) && Unlabelled(s) && Readable(s)
    ensures text == gap + Text(t, rest) && Blank(gap) && WellFormed(t) && ShapeOf(t) == s && Tokens(rest) == ks
    decreases s
  {
    match s
    case Leaf(v) => gap, t, rest := CutPlain(text, v, ks);
    case Literal(bytes) =>
      var us;
      gap, us, rest := CutQuoted(text, bytes, ks);
      t := Tree.Str(us);
    case List(items) => gap, t, rest := FindArray(s, text, ks);
    case Record(parts) => gap, t, rest := FindObject(s, text, ks);
  }

  lemma {:induction false} FindArray(s: Shape, text: string, ks: seq<Token>)
    returns (gap: string, t: Tree, rest: string)
    requires s.List? && Tokens(text) == ShapeTokens(s, ks) && Unlabelled(s) && Readable(s)
    ensures text == gap + Text(t, rest) && Blank(gap) && WellFormed(t) && ShapeOf(t) == s && Tokens(rest) == ks
    decreases s, 0
  {
    var body;
    if s.items.NoItems? {
      gap, body := CutMark(text, '[', [Mark(']')] + ks);
      var inner;
      inner, rest := CutMark(body, ']', ks);
      t := Arr(inner, NoElems);
    } else {
      gap, body := CutMark(text, '[', ItemsTokens(s.items, ks));
      var elems;
      elems, rest := FindElems(s.items, body, ks);
      t := Arr([], elems);
    }
  }

  lemma {:induction false} FindObject(s: Shape, text: string, ks: seq<Token>)
    returns (gap: string, t: Tree, rest: string)
    requires s.Record? && Tokens(text) == ShapeTokens(s, ks) && Unlabelled(s) && Readable(s)
    ensures text == gap + Text(t, rest) && Blank(gap) && WellFormed(t) && ShapeOf(t) == s && Tokens(rest) == ks
    decreases s, 0
  {
    var body;
    if s.parts.NoParts? {
      gap, body := CutMark(text, '{', [Mark('}')] + ks);
      var inner;
      inner, rest := CutMark(body, '}', ks);
      t := Obj(inner, NoMembers);
    } else {
      gap, body := CutMark(text, '{', PartsTokens(s.parts, ks));
      var members;
      members, rest := FindMembers(s.parts, body, ks);
      t := Obj([], members);
    }
  }

  lemma {:induction false} FindElems(es: Items, text: string, ks: seq<Token>) returns (elems: Elems, rest: string)
    requires es.Item? && Tokens(text) == ItemsTokens(es, ks) && UnlabelledItems(es) && ReadableItems(es)
    ensures elems.Elem? && text == ElemsText(elems, rest) && WellFormedElems(elems)
    ensures ItemsOf(elems) == es && Tokens(rest) == ks
    decreases es
  {
    if es.more.NoItems? {
      var before, t, tail := FindTree(es.value, text, [Mark(']')] + ks);
      var after;
      after, rest := CutMark(tail, ']', ks);
      elems := Elem(before, t, after, NoElems);
    } else {
      var before, t, tail := FindTree(es.value, text, [Mark(',')] + ItemsTokens(es.more, ks));
      var after, next := CutMark(tail, ',', ItemsTokens(es.more, ks));
      var more;
      more, rest := FindElems(es.more, next, ks);
      elems := Elem(before, t, after, more);
    }
  }

  lemma {:induction false} FindMembers(ps: Parts, text: string, ks: seq<Token>) returns (members: Members, rest: string)
    requires ps.Part? && Tokens(text) == PartsTokens(ps, ks) && UnlabelledParts(ps) && ReadableParts(ps)
    ensures members.Member? && text == MembersText(members, rest) && WellFormedMembers(members)
    ensures PartsOf(members) == ps && Tokens(rest) == ks
    decreases ps
  {
    var tokens := if ps.more.NoParts? then [Mark('}')] + ks else [Mark(',')] + PartsTokens(ps.more, ks);
    var before, key, colon := CutQuoted(text, ps.name, [Mark(':')] + ShapeTokens(ps.value, tokens));
    var between, body := CutMark(colon, ':', ShapeTokens(ps.value, tokens));
    var gap, t, tail := FindTree(ps.value, body, tokens);
    if ps.more.NoParts? {
      var after;
      after, rest := CutMark(tail, '}', ks);
      members := Member(before, key, between, gap, t, after, NoMembers);
    } else {
      var after, next := CutMark(tail, ',', PartsTokens(ps.more, ks));
      var more;
      more, rest := FindMembers(ps.more, next, ks);
      members := Member(before, key, between, gap, t, after, more);
    }
  }

  /** A text written as a document with blanks around it. */
  ghost predicate Written(text: string, before: string, t: Tree, after: string) {
    Blank(before) && WellFormed(t) && Blank(after) && text == before + Text(t, after)
  }

  /** Every accepted text without labels is written as a document that has its structure. */
  lemma FindText(text: string, s: Shape) returns (before: string, t: Tree, after: string)
    requires Tokens(text) == ShapeTokens(s, []) && Unlabelled(s) && Readable(s)
    ensures Written(text, before, t, after) && ShapeOf(t) == s
  {
    before, t, after := FindTree(s, text, []);
    NoTokens(after);
  }

  lemma WrittenTokens(text: string, before: string, t: Tree, after: string)
    requires Written(text, before, t, after)
    ensures Tokens(text) == ShapeTokens(ShapeOf(t), [])
  {
    BlankTokens(before, Text(t, after));
    if after != [] {
      ReaderCharacters(after[0]);
    }
    assert EndsNumber(after);
    assert after + [] == after;
    BlankTokens(after, []);
    TextTokens(t, after);
  }

  lemma {:induction false} TreesUnlabelled(t: Tree)
    ensures Unlabelled(ShapeOf(t))
    decreases t
  {
    match t
    case Arr(_, elems) => ElemsUnlabelled(elems);
    case Obj(_, members) => MembersUnlabelled(members);
    case _ =>
  }

  lemma {:induction false} ElemsUnlabelled(es: Elems)
    ensures UnlabelledItems(ItemsOf(es))
    decreases es
  {
    if es.Elem? {
      TreesUnlabelled(es.value);
      ElemsUnlabelled(es.more);
    }
  }

  lemma {:induction false} MembersUnlabelled(ms: Members)
    ensures UnlabelledParts(PartsOf(ms))
    decreases ms
  {
    if ms.Member? {
      TreesUnlabelled(ms.value);
      MembersUnlabelled(ms.more);
    }
  }

  lemma {:induction false} LegalReadable(s: Shape, key: bool)
    requires Legal(s, key)
    ensures Readable(s)
    decreases s
  {
    match s
    case List(items) => LegalItemsReadable(items, key);
    case Record(parts) => LegalPartsReadable(parts);
    case _ =>
  }

  lemma {:induction false} LegalItemsReadable(es: Items, key: bool)
    requires LegalItems(es, key)
    ensures ReadableItems(es)
    decreases es
  {
    if es.Item? {
      LegalReadable(es.value, key && es.tag.None?);
      LegalItemsReadable(es.more, KeyAfter(es.value, key && es.tag.None?));
    }
  }

  lemma {:induction false} LegalPartsReadable(ps: Parts)
    requires LegalParts(ps)
    ensures ReadableParts(ps)
    decreases ps
  {
    if ps.Part? {
      LegalReadable(ps.value, false);
      LegalPartsReadable(ps.more);
    }
  }

  /** The text spells a structure without labels, with this meaning. */
  ghost predicate ReadUnlabelled(text: string, v: Json) {
    exists s :: Spells(text, s) && Unlabelled(s) && Meaning(s) == v
  }

  /** The text is written as a document within the limits, with this meaning. */
  ghost predicate WrittenWithin(text: string, v: Json) {
    exists before, t, after ::
      Written(text, before, t, after) && Accepted(ShapeOf(t), 0, false) && Meaning(ShapeOf(t)) == v
  }

  /** The exact language as texts: what is read without labels is just what is written as a document
      within the limits, and it is read as what that says. */
  lemma AcceptsWritten(text: string, v: Json)
    ensures ReadUnlabelled(text, v) <==> WrittenWithin(text, v)
    ensures ReadUnlabelled(text, v) ==> Parse(text) == Some(v)
  {
    if ReadUnlabelled(text, v) {
      var s :| Spells(text, s) && Unlabelled(s) && Meaning(s) == v;
      LegalReadable(s, false);
      var before, t, after := FindText(text, s);
      AcceptsExactly(text, v);
    }
    if WrittenWithin(text, v) {
      var before, t, after :|
        Written(text, before, t, after) && Accepted(ShapeOf(t), 0, false) && Meaning(ShapeOf(t)) == v;
      WrittenTokens(text, before, t, after);
      TreesUnlabelled(t);
      assert Spells(text, ShapeOf(t));
    }
  }

  // ---- Numbers ----------------------------------------------------------------------

  predicate IsDigit(c: char) { '0' <= c <= '9' }

  predicate AllDigits(s: string) {
    s != [] ==> IsDigit(s[0]) && AllDigits(s[1..])
  }

  predicate IsWhole(s: string) {
    s == ['0'] || (s != [] && '1' <= s[0] <= '9' && AllDigits(s[1..]))
  }

  predicate IsFraction(s: string) {
    |s| >= 2 && s[0] == '.' && AllDigits(s[1..])
  }

  predicate IsExponent(s: string) {
    && |s| >= 2 && (s[0] == 'e' || s[0] == 'E')
    && (AllDigits(s[1..]) || (|s| >= 3 && (s[1] == '+' || s[1] == '-') && AllDigits(s[2..])))
  }

  ghost predicate NumberParts(s: string, minus: string, whole: string, fraction: string, exponent: string) {
    && s == minus + (whole + (fraction + exponent))
    && (minus == [] || minus == ['-']) && IsWhole(whole)
    && (fraction == [] || IsFraction(fraction)) && (exponent == [] || IsExponent(exponent))
  }

  /** A number by section 6 of RFC 8259. */
  ghost predicate IsNumber(s: string) {
    exists minus, whole, fraction, exponent :: NumberParts(s, minus, whole, fraction, exponent)
  }

  lemma {:induction false} DigitsInNumber(s: string)
    requires AllDigits(s)
    ensures AllInNumber(s)
  {
    if s != [] {
      DigitsInNumber(s[1..]);
    }
  }

  lemma {:induction false} JoinedInNumber(s: string, k: string)
    requires AllInNumber(s) && AllInNumber(k)
    ensures AllInNumber(s + k)
  {
    if s == [] {
      assert s + k == k;
    } else {
      assert (s + k)[1..] == s[1..] + k;
      JoinedInNumber(s[1..], k);
    }
  }

  lemma FractionInNumber(s: string)
    requires s == [] || IsFraction(s)
    ensures AllInNumber(s)
  {
    if s != [] {
      DigitsInNumber(s[1..]);
    }
  }

  lemma ExponentInNumber(s: string)
    requires s == [] || IsExponent(s)
    ensures AllInNumber(s)
  {
    if s != [] {
      if AllDigits(s[1..]) {
        DigitsInNumber(s[1..]);
      } else {
        DigitsInNumber(s[2..]);
        assert s[1..][1..] == s[2..];
      }
    }
  }

  lemma WholeInNumber(whole: string, k: string)
    requires IsWhole(whole) && AllInNumber(k)
    ensures whole + k != [] && StartsNumber((whole + k)[0]) && AllInNumber((whole + k)[1..]) && AllInNumber(whole + k)
  {
    if whole == ['0'] {
      assert whole[1..] == [];
    } else {
      DigitsInNumber(whole[1..]);
    }
    JoinedInNumber(whole[1..], k);
    assert (whole + k)[1..] == whole[1..] + k;
  }

  /** The reader's idea of a number covers all of them. */
  lemma NumbersCovered(s: string)
    requires IsNumber(s)
    ensures WellFormed(Num(s))
  {
    var minus, whole, fraction, exponent :| NumberParts(s, minus, whole, fraction, exponent);
    FractionInNumber(fraction);
    ExponentInNumber(exponent);
    var k := fraction + exponent;
    JoinedInNumber(fraction, exponent);
    WholeInNumber(whole, k);
    if minus == [] {
      assert s == whole + k;
    } else {
      assert s[1..] == whole + k;
    }
  }

  // ---- JSON texts -------------------------------------------------------------------

  /** All numbers of the document are numbers of JSON. */
  ghost predicate Strict(t: Tree) {
    match t
    case Num(text) => IsNumber(text)
    case Arr(_, elems) => StrictElems(elems)
    case Obj(_, members) => StrictMembers(members)
    case _ => true
  }

  ghost predicate StrictElems(es: Elems) {
    es.Elem? ==> Strict(es.value) && StrictElems(es.more)
  }

  ghost predicate StrictMembers(ms: Members) {
    ms.Member? ==> Strict(ms.value) && StrictMembers(ms.more)
  }

  /** A JSON text by RFC 8259: a value with blanks around it. */
  ghost predicate IsJson(text: string) {
    exists before, t, after :: Written(text, before, t, after) && Strict(t)
  }

  /** One that is within the reader's limits: 63 levels, and 127 characters a number. */
  ghost predicate IsSmallJson(text: string) {
    exists before, t, after ::
      Written(text, before, t, after) && Strict(t) && Readable(ShapeOf(t)) && Depth(ShapeOf(t)) <= 63
  }

  /** All numbers among the tokens are numbers of JSON. */
  ghost predicate StrictTokens(ts: seq<Token>) {
    ts != [] ==> (ts[0].Plain? && ts[0].value.Number? ==> IsNumber(ts[0].value.text)) && StrictTokens(ts[1..])
  }

  lemma StrictCons(t: Token, ts: seq<Token>)
    ensures StrictTokens([t] + ts) <==> (t.Plain? && t.value.Number? ==> IsNumber(t.value.text)) && StrictTokens(ts)
  {
    assert ([t] + ts)[1..] == ts;
  }

  lemma {:induction false} StrictTree(t: Tree, ks: seq<Token>)
    requires Readable(ShapeOf(t))
    ensures StrictTokens(ShapeTokens(ShapeOf(t), ks)) <==> Strict(t) && StrictTokens(ks)
    decreases t
  {
    match t
    case Arr(_, elems) =>
      if elems.NoElems? {
        StrictCons(Mark(']'), ks);
        StrictCons(Mark('['), [Mark(']')] + ks);
      } else {
        StrictElemsTokens(elems, ks);
        StrictCons(Mark('['), ItemsTokens(ItemsOf(elems), ks));
      }
    case Obj(_, members) =>
      if members.NoMembers? {
        StrictCons(Mark('}'), ks);
        StrictCons(Mark('{'), [Mark('}')] + ks);
      } else {
        StrictMembersTokens(members, ks);
        StrictCons(Mark('{'), PartsTokens(PartsOf(members), ks));
      }
    case Nothing => StrictCons(Plain(Null), ks);
    case Yes => StrictCons(Plain(Bool("true")), ks);
    case No => StrictCons(Plain(Bool("false")), ks);
    case Num(text) => StrictCons(Plain(Number(text)), ks);
    case Str(units) => StrictCons(Quoted(LiteralBytes(units)), ks);
  }

  lemma {:induction false} StrictElemsTokens(es: Elems, ks: seq<Token>)
    requires es.Elem? && ReadableItems(ItemsOf(es))
    ensures StrictTokens(ItemsTokens(ItemsOf(es), ks)) <==> StrictElems(es) && StrictTokens(ks)
    decreases es
  {
    if es.more.NoElems? {
      StrictCons(Mark(']'), ks);
      StrictTree(es.value, [Mark(']')] + ks);
    } else {
      StrictElemsTokens(es.more, ks);
      StrictCons(Mark(','), ItemsTokens(ItemsOf(es.more), ks));
      StrictTree(es.value, [Mark(',')] + ItemsTokens(ItemsOf(es.more), ks));
    }
  }

  lemma {:induction false} StrictMembersTokens(ms: Members, ks: seq<Token>)
    requires ms.Member? && ReadableParts(PartsOf(ms))
    ensures StrictTokens(PartsTokens(PartsOf(ms), ks)) <==> StrictMembers(ms) && StrictTokens(ks)
    decreases ms
  {
    var tail := if ms.more.NoMembers? then [Mark('}')] + ks else [Mark(',')] + PartsTokens(PartsOf(ms.more), ks);
    if ms.more.NoMembers? {
      StrictCons(Mark('}'), ks);
    } else {
      StrictMembersTokens(ms.more, ks);
      StrictCons(Mark(','), PartsTokens(PartsOf(ms.more), ks));
    }
    StrictTree(ms.value, tail);
    StrictCons(Mark(':'), ShapeTokens(ShapeOf(ms.value), tail));
    StrictCons(Quoted(LiteralBytes(ms.key)), [Mark(':')] + ShapeTokens(ShapeOf(ms.value), tail));
  }

  /** An accepted text is JSON exactly when it has no labels and all its numbers are numbers of JSON. */
  lemma AcceptedIsJson(text: string, s: Shape)
    requires Spells(text, s) && Unlabelled(s)
    ensures IsJson(text) <==> StrictTokens(Tokens(text))
  {
    LegalReadable(s, false);
    var before, t, after := FindText(text, s);
    StrictTree(t, []);
    if IsJson(text) {
      AcceptedJsonStrict(text, s);
    }
  }

  lemma AcceptedJsonStrict(text: string, s: Shape)
    requires Spells(text, s) && IsJson(text)
    ensures StrictTokens(Tokens(text))
  {
    var before, t, after :| Written(text, before, t, after) && Strict(t);
    AcceptsExactly(text, Meaning(s));
    ParsesDocument(before, t, after);
    LegalReadable(ShapeOf(t), false);
    WrittenTokens(text, before, t, after);
    StrictTree(t, []);
  }

  // ---- Texts without empty objects --------------------------------------------------

  /** No left brace is followed by a right one. */
  predicate NoEmptyObject(ts: seq<Token>) {
    ts != [] ==> !(|ts| > 1 && ts[0] == Mark('{') && ts[1] == Mark('}')) && NoEmptyObject(ts[1..])
  }

  lemma NoEmptyTail(t: Token, ts: seq<Token>)
    requires NoEmptyObject([t] + ts)
    ensures NoEmptyObject(ts)
  {
    assert ([t] + ts)[1..] == ts;
  }

  lemma EmptyObjectSeen(ks: seq<Token>)
    ensures !NoEmptyObject([Mark('{')] + ([Mark('}')] + ks))
  {
    var ts := [Mark('{')] + ([Mark('}')] + ks);
    assert ts[0] == Mark('{') && ts[1] == Mark('}');
  }

  lemma {:induction false} FilledTokens(s: Shape, ks: seq<Token>)
    requires Readable(s) && NoEmptyObject(ShapeTokens(s, ks))
    ensures Filled(s) && NoEmptyObject(ks)
    decreases s
  {
    match s
    case Leaf(v) => NoEmptyTail(Plain(v), ks);
    case Literal(text) => NoEmptyTail(Quoted(text), ks);
    case List(items) =>
      if items.NoItems? {
        NoEmptyTail(Mark('['), [Mark(']')] + ks);
        NoEmptyTail(Mark(']'), ks);
      } else {
        NoEmptyTail(Mark('['), ItemsTokens(items, ks));
        FilledItemsTokens(items, ks);
      }
    case Record(parts) =>
      if parts.NoParts? {
        EmptyObjectSeen(ks);
        assert false;
      } else {
        NoEmptyTail(Mark('{'), PartsTokens(parts, ks));
        FilledPartsTokens(parts, ks);
      }
  }

  lemma {:induction false} FilledItemsTokens(es: Items, ks: seq<Token>)
    requires es.Item? && ReadableItems(es) && NoEmptyObject(ItemsTokens(es, ks))
    ensures FilledItems(es) && NoEmptyObject(ks)
    decreases es
  {
    var tail := if es.more.NoItems? then [Mark(']')] + ks else [Mark(',')] + ItemsTokens(es.more, ks);
    if es.tag.Some? {
      NoEmptyTail(Quoted(es.tag.value), [Mark(':')] + ShapeTokens(es.value, tail));
      NoEmptyTail(Mark(':'), ShapeTokens(es.value, tail));
    }
    FilledTokens(es.value, tail);
    if es.more.NoItems? {
      NoEmptyTail(Mark(']'), ks);
    } else {
      NoEmptyTail(Mark(','), ItemsTokens(es.more, ks));
      FilledItemsTokens(es.more, ks);
    }
  }

  lemma {:induction false} FilledPartsTokens(ps: Parts, ks: seq<Token>)
    requires ps.Part? && ReadableParts(ps) && NoEmptyObject(PartsTokens(ps, ks))
    ensures FilledParts(ps) && NoEmptyObject(ks)
    decreases ps
  {
    var tail := if ps.more.NoParts? then [Mark('}')] + ks else [Mark(',')] + PartsTokens(ps.more, ks);
    NoEmptyTail(Quoted(ps.name), [Mark(':')] + ShapeTokens(ps.value, tail));
    NoEmptyTail(Mark(':'), ShapeTokens(ps.value, tail));
    FilledTokens(ps.value, tail);
    if ps.more.NoParts? {
      NoEmptyTail(Mark('}'), ks);
    } else {
      NoEmptyTail(Mark(','), PartsTokens(ps.more, ks));
      FilledPartsTokens(ps.more, ks);
    }
  }

  /** A text without empty objects is accepted, and has only numbers of JSON, exactly when it is a
      JSON text within the reader's limits. */
  lemma AcceptsJson(text: string)
    requires NoEmptyObject(Tokens(text))
    ensures Parse(text).Some? && StrictTokens(Tokens(text)) <==> IsSmallJson(text)
  {
    if Parse(text).Some? && StrictTokens(Tokens(text)) {
      AcceptedIsSmallJson(text);
    }
    if IsSmallJson(text) {
      SmallJsonAccepted(text);
    }
  }

  lemma AcceptedIsSmallJson(text: string)
    requires NoEmptyObject(Tokens(text)) && Parse(text).Some? && StrictTokens(Tokens(text))
    ensures IsSmallJson(text)
  {
    AcceptsExactly(text, Parse(text).value);
    var s :| Spells(text, s) && Meaning(s) == Parse(text).value;
    LegalReadable(s, false);
    FilledTokens(s, []);
    FilledIsPlain(s);
    var before, t, after := FindText(text, s);
    StrictTree(t, []);
  }

  lemma SmallJsonAccepted(text: string)
    requires NoEmptyObject(Tokens(text)) && IsSmallJson(text)
    ensures Parse(text).Some? && StrictTokens(Tokens(text))
  {
    var before, t, after :|
      Written(text, before, t, after) && Strict(t) && Readable(ShapeOf(t)) && Depth(ShapeOf(t)) <= 63;
    WrittenTokens(text, before, t, after);
    FilledTokens(ShapeOf(t), []);
    FilledIsPlain(ShapeOf(t));
    TreesUnlabelled(t);
    ParsesDocument(before, t, after);
    StrictTree(t, []);
  }

  // ---- Numbers that are none ----------------------------------------------------------

  lemma OneToken(text: string, v: Json)
    requires Tokens(text) == [Plain(v)]
    ensures Spells(text, Leaf(v)) && Parse(text) == Some(v)
  {
    assert ShapeTokens(Leaf(v), []) == [Plain(v)] + [] == [Plain(v)];
    RunShape(START, Leaf(v), []);
  }

  /** A text that is one number token is accepted as that number, whether it is JSON or not. */
  lemma NumberText(text: string)
    requires WellFormed(Num(text)) && |text| <= 127
    ensures Parse(text) == Some(Number(text)) && (IsJson(text) <==> IsNumber(text))
  {
    NumberTokens(text, []);
    assert text + [] == text && [Plain(Number(text))] + [] == [Plain(Number(text))];
    OneToken(text, Number(text));
    AcceptedIsJson(text, Leaf(Number(text)));
    StrictCons(Plain(Number(text)), []);
  }

  lemma NumberStarts(s: string, minus: string, whole: string, fraction: string, exponent: string)
    requires NumberParts(s, minus, whole, fraction, exponent)
    ensures s != [] && (s[0] == '-' ==> |s| > 1 && IsDigit(s[1]))
    ensures s[0] == '0' && |s| > 1 ==> !IsDigit(s[1])
  {
    var k := fraction + exponent;
    if minus == [] {
      assert s == whole + k;
      if whole == ['0'] && k != [] {
        assert s[1] == k[0];
      }
    } else {
      assert s[1] == (whole + k)[0] == whole[0];
    }
  }

  /** A minus that no digit follows, and a zero that one follows, begin no number. */
  lemma NotANumber(s: string)
    requires s == [] || (s[0] == '-' && (|s| == 1 || !IsDigit(s[1]))) || (s[0] == '0' && |s| > 1 && IsDigit(s[1]))
    ensures !IsNumber(s)
  {
    forall minus, whole, fraction, exponent
      ensures !NumberParts(s, minus, whole, fraction, exponent)
    {
      if NumberParts(s, minus, whole, fraction, exponent) {
        NumberStarts(s, minus, whole, fraction, exponent);
      }
    }
  }

  lemma LoneMinus()
    ensures Parse("-") == Some(Number("-")) && !IsJson("-")
  {
    assert "-"[1..] == [];
    NumberText("-");
    NotANumber("-");
  }

  lemma LeadingZero()
    ensures Parse("01") == Some(Number("01")) && !IsJson("01")
  {
    assert "01"[1..] == "1" && "1"[1..] == [];
    assert AllInNumber("1");
    NumberText("01");
    NotANumber("01");
  }
}
