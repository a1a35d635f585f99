/** The JSON reader: its text as a series of tokens, and a machine over them with a stack of open
    containers, what it wants next, and the flag that says whether the next string is a key. */
module Json {
  import opened Options
  import opened JsonStrings

  /** A field of an object keeps its name unless an earlier field has it already. */
  datatype Key = Named(name: string) | Duplicate

  datatype Field = Field(key: Key, value: Json)

  datatype Json =
    | Null
    | Bool(text: string)
    | Number(text: string)
    | String(text: string)
    | Array(items: seq<Json>)
    | Object(fields: seq<Field>)

  // ---- Lookup -----------------------------------------------------------------------

  function FieldOf(fields: seq<Field>, name: string): Option<Json> {
    if fields == [] then None
    else if fields[0].key == Named(name) then Some(fields[0].value)
    else FieldOf(fields[1..], name)
  }

  // ---- Tokens -----------------------------------------------------------------------

  /** A mark, a string, a number or word, or text that is no token at all. */
  datatype Token = Mark(c: char) | Quoted(text: string) | Plain(value: Json) | Bad

  predicate IsSpace(c: char) { c == ' ' || c == '\t' || c == '\n' || c == '\r' }

  predicate IsMark(c: char) { c == ':' || c == '[' || c == '{' || c == ']' || c == '}' || c == ',' }

  predicate StartsNumber(c: char) { c == '-' || '0' <= c <= '9' }

  predicate InNumber(c: char) { '0' <= c <= '9' || c == 'e' || c == 'E' || c == '+' || c == '-' || c == '.' }

  /** Where the number that begins the text ends: at most 127 of its characters are kept. */
  function NumberEnd(s: string, p: nat): (q: nat)
    requires p <= |s|
    ensures p <= q <= |s|
    decreases |s| - p
  {
    if p < |s| && InNumber(s[p]) && p + 1 < 128 then NumberEnd(s, p + 1) else p
  }

  function Word(c: char): string {
    if c == 't' then "true" else if c == 'f' then "false" else "null"
  }

  function WordValue(c: char): Json {
    if c == 't' then Bool("true") else if c == 'f' then Bool("false") else Null
  }

  /** The tokens of a text, up to the first that is none. */
  function Tokens(s: string): seq<Token>
    decreases |s|
  {
    if s == [] then []
    else if IsSpace(s[0]) then Tokens(s[1..])
    else if IsMark(s[0]) then [Mark(s[0])] + Tokens(s[1..])
    else if s[0] == '"' then
      match Scan(s[1..], [])
      case None => [Bad]
      case Some((text, rest)) => [Quoted(text)] + Tokens(rest)
    else if s[0] == 't' || s[0] == 'f' || s[0] == 'n' then
      var w := Word(s[0]);
      if |w| <= |s| && s[..|w|] == w then [Plain(WordValue(s[0]))] + Tokens(s[|w|..]) else [Bad]
    else if StartsNumber(s[0]) then
      var q := NumberEnd(s, 1);
      if q < |s| && InNumber(s[q]) then [Bad] else [Plain(Number(s[..q]))] + Tokens(s[q..])
    else [Bad]
  }

  // ---- Machine ----------------------------------------------------------------------

  const MAX_DEPTH := 64

  /** What may come next. */
  datatype Next = Value | ArrayValue | Str | ObjectString | ObjectKey | End

  predicate StartsValue(t: Token) {
    t.Quoted? || t.Plain? || t == Mark('[') || t == Mark('{')
  }

  predicate Admits(e: Next, t: Token) {
    match e
    case Value => StartsValue(t)
    case ArrayValue => StartsValue(t) || t == Mark(']')
    case Str => t.Quoted?
    case ObjectString => t.Quoted? || t == Mark('}')
    case ObjectKey => t == Mark(':')
    case End => t == Mark('}') || t == Mark(']') || t == Mark(',')
  }

  /** An open container: what it is, the name it will have in its parent, and its contents so far. */
  datatype Node = Node(isObject: bool, name: string, items: seq<Json>, fields: seq<Field>)

  function Closed(n: Node): Json {
    if n.isObject then Object(n.fields) else Array(n.items)
  }

  function Add(n: Node, name: string, v: Json): Node {
    if n.isObject then
      n.(fields := n.fields + [Field(if FieldOf(n.fields, name) == None then Named(name) else Duplicate, v)])
    else n.(items := n.items + [v])
  }

  datatype State = State(stack: seq<Node>, isKey: bool, next: Next, name: string, document: Option<Json>)

  const START := State([], false, Value, [], None)

  function Top(s: seq<Node>): Node
    requires s != []
  {
    s[|s| - 1]
  }

  function Below(s: seq<Node>): seq<Node>
    requires s != []
  {
    s[..|s| - 1]
  }

  /** A complete value is put into the innermost open container, or is the document. */
  function Enter(st: State, v: Json): State {
    if st.stack == [] then st.(document := Some(v), next := End)
    else st.(stack := Below(st.stack) + [Add(Top(st.stack), st.name, v)], next := End)
  }

  function Open(st: State, isObject: bool): Option<State> {
    if |st.stack| + 1 >= MAX_DEPTH then None
    else Some(State(st.stack + [Node(isObject, st.name, [], [])], isObject || st.isKey,
                    if isObject then ObjectString else ArrayValue, [], st.document))
  }

  function Close(st: State, isObject: bool): Option<State> {
    if st.stack == [] || Top(st.stack).isObject != isObject then None
    else
      var n := Top(st.stack);
      Some(Enter(st.(stack := Below(st.stack), name := n.name), Closed(n)))
  }

  function Comma(st: State): Option<State> {
    if st.stack == [] then None
    else if Top(st.stack).isObject then Some(st.(isKey := true, next := Str))
    else Some(st.(next := Value))
  }

  function Feed(st: State, t: Token): Option<State> {
    if !Admits(st.next, t) then None
    else match t
      case Quoted(text) =>
        if st.isKey then Some(st.(name := text, next := ObjectKey)) else Some(Enter(st, String(text)))
      case Plain(v) => Some(Enter(st, v))
      case Mark(c) =>
        if c == ':' then Some(st.(isKey := false, next := Value))
        else if c == '[' || c == '{' then Open(st, c == '{')
        else if c == ']' || c == '}' then Close(st, c == '}')
        else Comma(st)
      case Bad => None
  }

  /** The document, or nothing if the tokens are rejected or there are none. */
  function Run(st: State, ts: seq<Token>): Option<Json>
    decreases |ts|
  {
    if ts == [] then (if st.stack == [] then st.document else None)
    else match Feed(st, ts[0])
      case None => None
      case Some(st') => Run(st', ts[1..])
  }

  function Parse(s: string): Option<Json> {
    Run(START, Tokens(s))
  }
}
