/** The structures the reader takes for documents: values, arrays and objects, and arrays in which
    an element carries a label, which the reader lets through in one situation. */
module JsonShapes {
  import opened Options
  import opened Json

  datatype Shape =
    | Leaf(value: Json)
    | Literal(text: string)
    | Unreadable
    | List(items: Items)
    | Record(parts: Parts)

  datatype Items = NoItems | Item(tag: Option<string>, value: Shape, more: Items)

  datatype Parts = NoParts | Part(name: string, value: Shape, more: Parts)

  // ---- Tokens -----------------------------------------------------------------------

  /** The tokens of a value, followed by `ks`. */
  function ShapeTokens(s: Shape, ks: seq<Token>): seq<Token> {
    match s
    case Leaf(v) => [Plain(v)] + ks
    case Literal(text) => [Quoted(text)] + ks
    case Unreadable => [Bad]
    case List(items) => [Mark('[')] + (if items.NoItems? then [Mark(']')] + ks else ItemsTokens(items, ks))
    case Record(parts) => [Mark('{')] + (if parts.NoParts? then [Mark('}')] + ks else PartsTokens(parts, ks))
  }

  function ItemsTokens(es: Items, ks: seq<Token>): seq<Token>
    requires es.Item?
  {
    var tail := if es.more.NoItems? then [Mark(']')] + ks else [Mark(',')] + ItemsTokens(es.more, ks);
    if es.tag.None? then ShapeTokens(es.value, tail)
    else [Quoted(es.tag.value)] + ([Mark(':')] + ShapeTokens(es.value, tail))
  }

  function PartsTokens(ps: Parts, ks: seq<Token>): seq<Token>
    requires ps.Part?
  {
    var tail := if ps.more.NoParts? then [Mark('}')] + ks else [Mark(',')] + PartsTokens(ps.more, ks);
    [Quoted(ps.name)] + ([Mark(':')] + ShapeTokens(ps.value, tail))
  }

  // ---- Meaning ----------------------------------------------------------------------

  function Meaning(s: Shape): Json {
    match s
    case Leaf(v) => v
    case Literal(text) => String(text)
    case Unreadable => Null
    case List(items) => Array(ItemsMeaning(items, []))
    case Record(parts) => Object(PartsMeaning(parts, []))
  }

  /** The items after `before`; labels are lost. */
  function ItemsMeaning(es: Items, before: seq<Json>): seq<Json> {
    if es.NoItems? then before else ItemsMeaning(es.more, before + [Meaning(es.value)])
  }

  /** Some field has the name. */
  predicate IsTaken(fields: seq<Field>, name: string) {
    exists i :: 0 <= i < |fields| && fields[i].key == Named(name)
  }

  /** The fields after `before`; the first field with a name gets it. */
  function PartsMeaning(ps: Parts, before: seq<Field>): seq<Field> {
    if ps.NoParts? then before
    else
      var key := if IsTaken(before, ps.name) then Duplicate else Named(ps.name);
      PartsMeaning(ps.more, before + [Field(key, Meaning(ps.value))])
  }

  /** Looking up a name finds the value of the first field that has it, if one has. */
  lemma {:induction false} FieldFound(fields: seq<Field>, name: string)
    ensures FieldOf(fields, name).Some? <==> IsTaken(fields, name)
    ensures forall i :: 0 <= i < |fields| && fields[i].key == Named(name) && !IsTaken(fields[..i], name)
                    ==> FieldOf(fields, name) == Some(fields[i].value)
  {
    if fields != [] {
      var rest := fields[1..];
      FieldFound(rest, name);
      assert forall i :: 0 < i < |fields| ==> fields[i] == rest[i - 1];
      if IsTaken(rest, name) {
        var i :| 0 <= i < |rest| && rest[i].key == Named(name);
        assert fields[i + 1].key == Named(name);
      }
      forall i | 0 <= i < |fields| && fields[i].key == Named(name) && !IsTaken(fields[..i], name)
        ensures FieldOf(fields, name) == Some(fields[i].value)
      {
        if i > 0 {
          assert fields[..i][0] == fields[0];
          assert forall j :: 0 < j < i ==> fields[..i][j] == rest[..i - 1][j - 1];
          assert !IsTaken(rest[..i - 1], name);
          assert rest[i - 1] == fields[i];
        }
      }
    }
  }

  function NamesOf(ps: Parts): seq<string> {
    if ps.NoParts? then [] else [ps.name] + NamesOf(ps.more)
  }

  function ValuesOf(ps: Parts): (vs: seq<Json>)
    ensures |vs| == |NamesOf(ps)|
  {
    if ps.NoParts? then [] else [Meaning(ps.value)] + ValuesOf(ps.more)
  }

  /** A field that comes after fields of these names. */
  function FieldAfter(names: seq<string>, name: string, v: Json): Field {
    Field(if name in names then Duplicate else Named(name), v)
  }

  ghost predicate TakenAre(fields: seq<Field>, names: seq<string>) {
    forall name :: IsTaken(fields, name) <==> name in names
  }

  lemma OneMoreTaken(fields: seq<Field>, names: seq<string>, name: string, v: Json)
    requires TakenAre(fields, names)
    ensures TakenAre(fields + [FieldAfter(names, name, v)], names + [name])
  {
    var fields' := fields + [FieldAfter(names, name, v)];
    forall other
      ensures IsTaken(fields', other) <==> other in names + [name]
    {
      if IsTaken(fields, other) {
        var i :| 0 <= i < |fields| && fields[i].key == Named(other);
        assert fields'[i].key == Named(other);
      }
      assert fields'[|fields|] == FieldAfter(names, name, v);
      if IsTaken(fields', other) && !IsTaken(fields, other) {
        var i :| 0 <= i < |fields'| && fields'[i].key == Named(other);
        assert i < |fields| ==> fields[i].key == Named(other);
      }
    }
  }

  lemma OneBack(fields: seq<Field>, before: seq<Field>, field: Field)
    requires |before| < |fields| && fields[..|before| + 1] == before + [field]
    ensures fields[..|before|] == before && fields[|before|] == field
  {
    assert fields[..|before|] == fields[..|before| + 1][..|before|];
    assert fields[|before|] == fields[..|before| + 1][|before|];
  }

  lemma {:induction false} PartsAfter(ps: Parts, before: seq<Field>, names: seq<string>)
    requires TakenAre(before, names) && |before| == |names|
    ensures var fields, all := PartsMeaning(ps, before), names + NamesOf(ps);
            && |fields| == |all| && fields[..|before|] == before
            && forall i :: |before| <= i < |all| ==>
                 fields[i] == FieldAfter(all[..i], all[i], ValuesOf(ps)[i - |before|])
  {
    if ps.Part? {
      var field := FieldAfter(names, ps.name, Meaning(ps.value));
      OneMoreTaken(before, names, ps.name, Meaning(ps.value));
      PartsAfter(ps.more, before + [field], names + [ps.name]);
      assert PartsMeaning(ps, before) == PartsMeaning(ps.more, before + [field]);
      assert names + NamesOf(ps) == (names + [ps.name]) + NamesOf(ps.more);
      OneBack(PartsMeaning(ps, before), before, field);
      assert (names + NamesOf(ps))[..|before|] == names;
    } else {
      assert names + [] == names;
    }
  }

  /** The fields of an object are its members in order, and each has its name unless one before it
      has that name already. */
  lemma RecordFields(ps: Parts)
    ensures var fields, names := PartsMeaning(ps, []), NamesOf(ps);
            && |fields| == |names|
            && forall i :: 0 <= i < |names| ==> fields[i] == FieldAfter(names[..i], names[i], ValuesOf(ps)[i])
  {
    PartsAfter(ps, [], []);
    assert [] + NamesOf(ps) == NamesOf(ps);
  }

  // ---- Limits -----------------------------------------------------------------------

  function Max(a: nat, b: nat): nat { if a < b then b else a }

  /** How deep arrays and objects are nested. */
  function Depth(s: Shape): nat {
    match s
    case List(items) => 1 + ItemsDepth(items)
    case Record(parts) => 1 + PartsDepth(parts)
    case _ => 0
  }

  function ItemsDepth(es: Items): nat {
    if es.NoItems? then 0 else Max(Depth(es.value), ItemsDepth(es.more))
  }

  function PartsDepth(ps: Parts): nat {
    if ps.NoParts? then 0 else Max(Depth(ps.value), PartsDepth(ps.more))
  }

  /** Whether the reader takes the next string for a key after a value, if it did before it: an
      object without members leaves it so, and only a colon puts it right. */
  predicate KeyAfter(s: Shape, key: bool) {
    match s
    case List(items) => KeyAfterItems(items, key)
    case Record(parts) => KeyAfterParts(parts)
    case _ => key
  }

  predicate KeyAfterItems(es: Items, key: bool) {
    if es.NoItems? then key else KeyAfterItems(es.more, KeyAfter(es.value, key && es.tag.None?))
  }

  predicate KeyAfterParts(ps: Parts) {
    ps.NoParts? || (if ps.more.NoParts? then KeyAfter(ps.value, false) else KeyAfterParts(ps.more))
  }

  /** Where the next string is taken for a key, an element cannot be a string, and may be labelled;
      elsewhere it is the other way round. */
  predicate Legal(s: Shape, key: bool) {
    match s
    case Leaf(_) => true
    case Literal(_) => !key
    case Unreadable => false
    case List(items) => LegalItems(items, key)
    case Record(parts) => LegalParts(parts)
  }

  predicate LegalItems(es: Items, key: bool) {
    es.Item? ==>
      && (es.tag.Some? ==> key)
      && Legal(es.value, key && es.tag.None?)
      && LegalItems(es.more, KeyAfter(es.value, key && es.tag.None?))
  }

  predicate LegalParts(ps: Parts) {
    ps.Part? ==> Legal(ps.value, false) && LegalParts(ps.more)
  }

  /** What the reader accepts `depth` containers deep: no more than 63 may be open at a time. */
  predicate Accepted(s: Shape, depth: nat, key: bool) {
    depth + Depth(s) <= 63 && Legal(s, key)
  }

  predicate AcceptedItems(es: Items, depth: nat, key: bool) {
    depth + ItemsDepth(es) <= 63 && LegalItems(es, key)
  }

  predicate AcceptedParts(ps: Parts, depth: nat) {
    depth + PartsDepth(ps) <= 63 && LegalParts(ps)
  }

  // ---- Documents without empty objects ----------------------------------------------

  predicate Filled(s: Shape) {
    match s
    case List(items) => FilledItems(items)
    case Record(parts) => parts.Part? && FilledParts(parts)
    case _ => true
  }

  predicate FilledItems(es: Items) {
    es.Item? ==> Filled(es.value) && FilledItems(es.more)
  }

  predicate FilledParts(ps: Parts) {
    ps.Part? ==> Filled(ps.value) && FilledParts(ps.more)
  }

  predicate Unlabelled(s: Shape) {
    match s
    case List(items) => UnlabelledItems(items)
    case Record(parts) => UnlabelledParts(parts)
    case _ => true
  }

  predicate UnlabelledItems(es: Items) {
    es.Item? ==> es.tag.None? && Unlabelled(es.value) && UnlabelledItems(es.more)
  }

  predicate UnlabelledParts(ps: Parts) {
    ps.Part? ==> Unlabelled(ps.value) && UnlabelledParts(ps.more)
  }

  predicate Readable(s: Shape) {
    match s
    case List(items) => ReadableItems(items)
    case Record(parts) => ReadableParts(parts)
    case _ => !s.Unreadable?
  }

  predicate ReadableItems(es: Items) {
    es.Item? ==> Readable(es.value) && ReadableItems(es.more)
  }

  predicate ReadableParts(ps: Parts) {
    ps.Part? ==> Readable(ps.value) && ReadableParts(ps.more)
  }

  /** Without empty objects the reader never mistakes a string, so what it accepts is exactly the
      structures of JSON within its limits. */
  lemma {:induction false} FilledIsPlain(s: Shape)
    requires Filled(s)
    ensures !KeyAfter(s, false)
    ensures Legal(s, false) <==> Unlabelled(s) && Readable(s)
    decreases s
  {
    match s
    case List(items) => FilledItemsPlain(items);
    case Record(parts) => FilledPartsPlain(parts);
    case _ =>
  }

  lemma {:induction false} FilledItemsPlain(es: Items)
    requires FilledItems(es)
    ensures !KeyAfterItems(es, false)
    ensures LegalItems(es, false) <==> UnlabelledItems(es) && ReadableItems(es)
    decreases es
  {
    if es.Item? {
      FilledIsPlain(es.value);
      FilledItemsPlain(es.more);
    }
  }

  lemma {:induction false} FilledPartsPlain(ps: Parts)
    requires FilledParts(ps)
    ensures ps.Part? ==> !KeyAfterParts(ps)
    ensures LegalParts(ps) <==> UnlabelledParts(ps) && ReadableParts(ps)
    decreases ps
  {
    if ps.Part? {
      FilledIsPlain(ps.value);
      FilledPartsPlain(ps.more);
    }
  }
}
