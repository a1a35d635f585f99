/** JSON documents as written, with their blanks and escapes. */
module JsonSyntax {
  import opened Options
  import opened JsonGrammar
  import opened JsonStrings
  import opened Json
  import opened JsonShapes

  datatype Tree =
    | Nothing
    | Yes
    | No
    | Num(text: string)
    | Str(units: seq<Unit>)
    | Arr(gap: string, elems: Elems)
    | Obj(gap: string, members: Members)

  datatype Elems = NoElems | Elem(before: string, value: Tree, after: string, more: Elems)

  datatype Members =
    | NoMembers
    | Member(before: string, key: seq<Unit>, between: string, gap: string, value: Tree, after: string, more: Members)

  predicate Blank(s: string) {
    s != [] ==> IsWhite(s[0]) && Blank(s[1..])
  }

  predicate AllInNumber(s: string) {
    s != [] ==> MayBeInNumber(s[0]) && AllInNumber(s[1..])
  }

  predicate WellFormed(t: Tree) {
    match t
    case Num(text) => text != [] && MayBeginNumber(text[0]) && AllInNumber(text[1..])
    case Str(units) => ValidUnits(units)
    case Arr(gap, elems) => Blank(gap) && WellFormedElems(elems)
    case Obj(gap, members) => Blank(gap) && WellFormedMembers(members)
    case _ => true
  }

  predicate WellFormedElems(es: Elems) {
    es.Elem? ==> Blank(es.before) && WellFormed(es.value) && Blank(es.after) && WellFormedElems(es.more)
  }

  predicate WellFormedMembers(ms: Members) {
    ms.Member? ==>
      && Blank(ms.before) && ValidUnits(ms.key) && Blank(ms.between) && Blank(ms.gap)
      && WellFormed(ms.value) && Blank(ms.after) && WellFormedMembers(ms.more)
  }

  // ---- Text -------------------------------------------------------------------------

  /** The text of a value, followed by `k`. */
  function Text(t: Tree, k: string): string {
    match t
    case Nothing => "null" + k
    case Yes => "true" + k
    case No => "false" + k
    case Num(text) => text + k
    case Str(units) => ['"'] + LiteralText(units, k)
    case Arr(gap, elems) => ['['] + (if elems.NoElems? then gap + ([']'] + k) else ElemsText(elems, k))
    case Obj(gap, members) => ['{'] + (if members.NoMembers? then gap + (['}'] + k) else MembersText(members, k))
  }

  function ElemsText(es: Elems, k: string): string
    requires es.Elem?
  {
    es.before + Text(es.value, es.after + (if es.more.NoElems? then [']'] + k else [','] + ElemsText(es.more, k)))
  }

  function MembersText(ms: Members, k: string): string
    requires ms.Member?
  {
    var tail := if ms.more.NoMembers? then ['}'] + k else [','] + MembersText(ms.more, k);
    ms.before + (['"'] + LiteralText(ms.key, ms.between + ([':'] + (ms.gap + Text(ms.value, ms.after + tail)))))
  }

  // ---- Shape ------------------------------------------------------------------------

  /** What is left of a document without its blanks and escapes. A number that is longer than the
      reader's buffer for numbers is unreadable. */
  function ShapeOf(t: Tree): Shape {
    match t
    case Nothing => Leaf(Null)
    case Yes => Leaf(Bool("true"))
    case No => Leaf(Bool("false"))
    case Num(text) => if |text| > 127 then Unreadable else Leaf(Number(text))
    case Str(units) => Literal(LiteralBytes(units))
    case Arr(_, elems) => List(ItemsOf(elems))
    case Obj(_, members) => Record(PartsOf(members))
  }

  function ItemsOf(es: Elems): Items {
    if es.NoElems? then NoItems else Item(None, ShapeOf(es.value), ItemsOf(es.more))
  }

  function PartsOf(ms: Members): Parts {
    if ms.NoMembers? then NoParts else Part(LiteralBytes(ms.key), ShapeOf(ms.value), PartsOf(ms.more))
  }
}
