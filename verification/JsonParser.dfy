/** The reader as the program runs it: one pass over the characters, a growing buffer for string
    literals, a fixed buffer for numbers and a fixed array of open nodes. */
module JsonParser {
  import opened Options
  import opened JsonStrings
  import opened Json
  import opened JsonProofs

  /** A buffer that doubles when it has to. */
  class TextBuffer {
    var data: array<char>
    var len: nat

    ghost predicate Valid()
      reads this
    {
      len <= data.Length
    }

    ghost function Contents(): string
      requires Valid()
      reads this, data
    {
      data[..len]
    }

    constructor ()
      ensures Valid() && Contents() == [] && fresh(data)
    {
      data := new char[0];
      len := 0;
    }

    /** Makes room for `inc` more characters. */
    method Reserve(inc: nat)
      requires Valid()
      modifies this`data
      ensures Valid() && len + inc <= data.Length && Contents() == old(Contents())
      ensures data == old(data) || fresh(data)
    {
      var need := len + inc;
      if need > data.Length {
        var size := if data.Length < 64 then 64 else data.Length;
        while size <= need
          invariant size >= 64
          decreases need - size
        {
          size := size * 2;
        }
        var grown := new char[size];
        forall i | 0 <= i < len {
          grown[i] := data[i];
        }
        data := grown;
      }
    }

    method Put(c: char)
      requires Valid()
      modifies this, data
      ensures Valid() && Contents() == old(Contents()) + [c]
      ensures data == old(data) || fresh(data)
    {
      Reserve(1);
      data[len] := c;
      len := len + 1;
    }

    method Place(c: char)
      requires Valid() && len < data.Length
      modifies this`len, data
      ensures Valid() && Contents() == old(Contents()) + [c] && len == old(len) + 1
    {
      data[len] := c;
      len := len + 1;
    }

    /** Appends the bytes of a code point to room reserved before. */
    method PutPoint(r: nat)
      requires Valid() && r <= 0x10FFFF && len + 4 <= data.Length
      modifies this`len, data
      ensures Valid() && Contents() == old(Contents()) + Utf8(r)
    {
      if r == 0 {
      } else if r <= 0x7F {
        Place(Byte(r));
      } else if r <= 0x7FF {
        Place(Byte(0xC0 + r / 64));
        Place(Byte(0x80 + r % 64));
      } else if r <= 0xFFFF {
        Place(Byte(0xE0 + r / 4096));
        Place(Byte(0x80 + r / 64 % 64));
        Place(Byte(0x80 + r % 64));
      } else {
        Place(Byte(0xF0 + r / 262144));
        Place(Byte(0x80 + r / 4096 % 64));
        Place(Byte(0x80 + r / 64 % 64));
        Place(Byte(0x80 + r % 64));
      }
    }

    /** Appends the bytes of two code units, the first a high surrogate. */
    method PutPair(hi: nat, lo: nat)
      requires Valid() && IsHigh(hi) && lo <= 0xFFFF && len + 4 <= data.Length
      modifies this, data
      ensures Valid() && Contents() == old(Contents()) + PairBytes(hi, lo)
      ensures data == old(data) || fresh(data)
    {
      if IsLow(lo) {
        PutPoint(Paired(hi, lo));
      } else {
        PutPoint(hi);
        Reserve(4);
        PutPoint(lo);
        Appended(old(Contents()), Utf8(hi), Utf8(lo));
      }
    }
  }

  /** Reads four hex digits. */
  method ReadHex(text: string, i: nat) returns (ok: bool, u: nat)
    requires i <= |text|
    ensures ok <==> i + 4 <= |text| && Hex4(text[i], text[i + 1], text[i + 2], text[i + 3])
    ensures ok ==> u == CodeUnit(text[i], text[i + 1], text[i + 2], text[i + 3])
  {
    u := 0;
    var n := 0;
    while n < 4
      invariant n <= 4 && i + n <= |text|
      invariant n == 0 ==> u == 0
      invariant n == 1 ==> IsHex(text[i]) && u == HexDigit(text[i])
      invariant n == 2 ==> IsHex(text[i]) && IsHex(text[i + 1]) && u == HexDigit(text[i]) * 16 + HexDigit(text[i + 1])
      invariant n == 3 ==> && IsHex(text[i]) && IsHex(text[i + 1]) && IsHex(text[i + 2])
                           && u == HexDigit(text[i]) * 256 + HexDigit(text[i + 1]) * 16 + HexDigit(text[i + 2])
      invariant n == 4 ==> && Hex4(text[i], text[i + 1], text[i + 2], text[i + 3])
                           && u == CodeUnit(text[i], text[i + 1], text[i + 2], text[i + 3])
    {
      if i + n >= |text| || !IsHex(text[i + n]) {
        return false, u;
      }
      u := u * 16 + HexDigit(text[i + n]);
      n := n + 1;
    }
    ok := true;
  }

  /** A code unit in hex stands at position `i`. */
  predicate UnitAt(text: string, i: nat, u: nat) {
    && i + 6 <= |text| && text[i] == '\\' && text[i + 1] == 'u'
    && Hex4(text[i + 2], text[i + 3], text[i + 4], text[i + 5])
    && u == CodeUnit(text[i + 2], text[i + 3], text[i + 4], text[i + 5])
  }

  /** A backslash and `u` stand at position `i`. */
  predicate UnitBegins(text: string, i: nat) {
    i + 2 <= |text| && text[i] == '\\' && text[i + 1] == 'u'
  }

  /** What `Scan` makes of a code unit at position `i`. */
  lemma ScanUnitAt(text: string, i: nat, out: string, u: nat)
    requires UnitAt(text, i, u) && u <= 0xFFFF && !(IsHigh(u) && UnitBegins(text, i + 6))
    ensures Scan(text[i..], out) == Scan(text[i + 6..], out + Utf8(u))
  {
    assert text[i..][6..] == text[i + 6..];
  }

  lemma ScanPairAt(text: string, i: nat, out: string, u: nat, lo: nat)
    requires UnitAt(text, i, u) && IsHigh(u) && UnitAt(text, i + 6, lo) && lo <= 0xFFFF
    ensures Scan(text[i..], out) == Scan(text[i + 12..], out + PairBytes(u, lo))
  {
    assert text[i..][12..] == text[i + 12..];
  }

  lemma ScanBrokenAt(text: string, i: nat, out: string, u: nat)
    requires UnitAt(text, i, u) && IsHigh(u) && UnitBegins(text, i + 6)
    requires i + 12 > |text| || !Hex4(text[i + 8], text[i + 9], text[i + 10], text[i + 11])
    ensures Scan(text[i..], out) == None
  {
  }

  /** A code unit in hex, after its backslash and `u`, with the second half of a pair if there is one. */
  method ReadUnicode(text: string, i: nat, buffer: TextBuffer) returns (ok: bool, j: nat)
    requires 2 <= i <= |text| && text[i - 2] == '\\' && text[i - 1] == 'u' && buffer.Valid()
    modifies buffer, buffer.data
    ensures buffer.Valid() && (buffer.data == old(buffer.data) || fresh(buffer.data))
    ensures ok ==> i < j <= |text|
    ensures Scan(text[i - 2..], old(buffer.Contents())) == if ok then Scan(text[j..], buffer.Contents()) else None
  {
    ghost var out := buffer.Contents();
    buffer.Reserve(4);
    var u, lo;
    ok, u := ReadHex(text, i);
    j := i;
    if !ok {
      return;
    }
    assert UnitAt(text, i - 2, u);
    j := i + 4;
    if IsHigh(u) && j + 1 < |text| && text[j] == '\\' && text[j + 1] == 'u' {
      ok, lo := ReadHex(text, j + 2);
      if !ok {
        ScanBrokenAt(text, i - 2, out, u);
        return;
      }
      assert UnitAt(text, j, lo);
      ScanPairAt(text, i - 2, out, u, lo);
      j := j + 6;
      buffer.PutPair(u, lo);
    } else {
      ScanUnitAt(text, i - 2, out, u);
      buffer.PutPoint(u);
    }
  }

  lemma ScanAt(text: string, i: nat, out: string)
    requires i <= |text|
    ensures i == |text| || text[i] < ' ' ==> Scan(text[i..], out) == None
    ensures i < |text| && text[i] == '"' ==> Scan(text[i..], out) == Some((out, text[i + 1..]))
    ensures i < |text| && text[i] >= ' ' && text[i] != '"' && text[i] != '\\'
        ==> Scan(text[i..], out) == Scan(text[i + 1..], out + [text[i]])
  {
    if i < |text| {
      assert text[i..][1..] == text[i + 1..];
    }
  }

  lemma ScanEscapeAt(text: string, i: nat, out: string)
    requires i < |text| && text[i] == '\\'
    ensures i + 1 == |text| || (!IsSimpleEscape(text[i + 1]) && text[i + 1] != 'u') ==> Scan(text[i..], out) == None
    ensures i + 1 < |text| && IsSimpleEscape(text[i + 1])
        ==> Scan(text[i..], out) == Scan(text[i + 2..], out + [Unescaped(text[i + 1])])
  {
    if i + 1 < |text| {
      assert text[i..][2..] == text[i + 2..];
    }
  }

  /** The character after a backslash. */
  method ReadEscape(text: string, i: nat, buffer: TextBuffer) returns (ok: bool, j: nat)
    requires 1 <= i < |text| && text[i - 1] == '\\' && buffer.Valid()
    modifies buffer, buffer.data
    ensures buffer.Valid() && (buffer.data == old(buffer.data) || fresh(buffer.data))
    ensures ok ==> i < j <= |text|
    ensures Scan(text[i - 1..], old(buffer.Contents())) == if ok then Scan(text[j..], buffer.Contents()) else None
  {
    ScanEscapeAt(text, i - 1, buffer.Contents());
    ok, j := true, i + 1;
    if text[i] == 'u' {
      ok, j := ReadUnicode(text, i + 1, buffer);
    } else if IsSimpleEscape(text[i]) {
      buffer.Put(Unescaped(text[i]));
    } else {
      ok := false;
    }
  }

  /** Reading on from `i` with `out` already decoded is what reading from `start` comes to. */
  ghost predicate Resumes(text: string, start: nat, i: int, out: string) {
    start <= i <= |text| && Scan(text[start..], []) == Scan(text[i..], out)
  }

  /** Reads a string literal after its opening quote. */
  method ReadString(text: string, start: nat) returns (ok: bool, j: nat, value: string)
    requires start <= |text|
    ensures ok ==> start < j <= |text|
    ensures Scan(text[start..], []) == if ok then Some((value, text[j..])) else None
  {
    var buffer := new TextBuffer();
    var escape := false;
    j := start;
    while true
      invariant start <= j <= |text| && (escape ==> start < j && text[j - 1] == '\\')
      invariant buffer.Valid() && fresh(buffer) && fresh(buffer.data)
      invariant Resumes(text, start, if escape then j - 1 else j, buffer.Contents())
      decreases |text| - j
    {
      if j == |text| || text[j] < ' ' {
        Malformed(text, start, j, escape, buffer.Contents());
        return false, j, [];
      }
      if escape {
        escape := false;
        ok, j := ReadEscape(text, j, buffer);
        if !ok {
          return false, j, [];
        }
      } else {
        ScanAt(text, j, buffer.Contents());
        var c := text[j];
        j := j + 1;
        if c == '\\' {
          escape := true;
        } else if c == '"' {
          return true, j, buffer.data[..buffer.len];
        } else {
          buffer.Put(c);
        }
      }
    }
  }

  lemma Malformed(text: string, start: nat, j: nat, escape: bool, out: string)
    requires start <= j <= |text| && (escape ==> start < j && text[j - 1] == '\\')
    requires Resumes(text, start, if escape then j - 1 else j, out)
    requires j == |text| || text[j] < ' '
    ensures Scan(text[start..], []) == None
  {
    if escape {
      ScanEscapeAt(text, j - 1, out);
    } else {
      ScanAt(text, j, out);
    }
  }

  // ---- The machine ------------------------------------------------------------------

  predicate BeginsValue(c: char) {
    c == '{' || c == '[' || c == '"' || StartsNumber(c) || c == 't' || c == 'f' || c == 'n'
  }

  /** The characters that may come next, as the program tests them. */
  predicate AdmitsChar(e: Next, c: char) {
    match e
    case Value => BeginsValue(c)
    case ArrayValue => BeginsValue(c) || c == ']'
    case Str => c == '"'
    case ObjectString => c == '"' || c == '}'
    case ObjectKey => c == ':'
    case End => c == '}' || c == ']' || c == ','
  }

  /** The kinds of token a character can begin. */
  predicate Begins(c: char, t: Token) {
    match t
    case Mark(m) => m == c
    case Quoted(_) => c == '"'
    case Plain(_) => c == 't' || c == 'f' || c == 'n' || StartsNumber(c)
    case Bad => true
  }

  lemma FirstToken(s: string)
    requires s != [] && !IsSpace(s[0])
    ensures Tokens(s) != [] && Begins(s[0], Tokens(s)[0])
  {
  }

  lemma CharAdmits(e: Next, c: char, t: Token)
    requires Begins(c, t) && !AdmitsChar(e, c)
    ensures !Admits(e, t)
  {
  }

  lemma TokensAt(text: string, i: nat)
    requires i < |text| && !IsSpace(text[i])
    ensures Tokens(text[i..]) != []
    ensures IsMark(text[i]) ==> Tokens(text[i..]) == [Mark(text[i])] + Tokens(text[i + 1..])
    ensures text[i] == '"' ==>
              match Scan(text[i + 1..], [])
              case None => Tokens(text[i..]) == [Bad]
              case Some((value, rest)) => Tokens(text[i..]) == [Quoted(value)] + Tokens(rest)
  {
    assert text[i..][1..] == text[i + 1..];
  }

  /** A character that may not come next makes the machine stop. */
  lemma Inadmissible(text: string, i: nat, st: State)
    requires i < |text| && !IsSpace(text[i]) && !AdmitsChar(st.next, text[i])
    ensures Run(st, Tokens(text[i..])) == None
  {
    FirstToken(text[i..]);
    CharAdmits(st.next, text[i], Tokens(text[i..])[0]);
  }

  /** The number at position `i` goes on to position `j`. */
  ghost predicate NumberTo(text: string, i: nat, j: nat) {
    && i < j <= |text|
    && Tokens(text[i..]) == if j < |text| && InNumber(text[j]) then [Bad]
                            else [Plain(Number(text[i..j]))] + Tokens(text[j..])
  }

  /** A number may well go on from its character `p`. */
  ghost predicate Inside(text: string, i: nat, p: nat) {
    i + p <= |text| && 1 <= p < 128 && NumberEnd(text[i..], 1) == NumberEnd(text[i..], p)
  }

  lemma InsideOneMore(text: string, i: nat, p: nat)
    requires Inside(text, i, p) && i + p < |text| && InNumber(text[i + p]) && p + 1 < 128
    ensures Inside(text, i, p + 1)
  {
    assert text[i..][p] == text[i + p];
  }

  lemma NumberAt(text: string, i: nat, p: nat)
    requires i < |text| && StartsNumber(text[i]) && Inside(text, i, p)
    requires i + p == |text| || !InNumber(text[i + p]) || p + 1 >= 128
    ensures NumberTo(text, i, i + p)
  {
    var s := text[i..];
    assert s[..p] == text[i..i + p] && s[p..] == text[i + p..];
    assert NumberEnd(s, p) == p;
  }

  /** Copies a number into a buffer of 128 characters, the last of which is kept for a zero. */
  method ScanNumber(text: string, i: nat) returns (j: nat, number: string)
    requires i < |text| && StartsNumber(text[i])
    ensures NumberTo(text, i, j) && number == text[i..j]
  {
    var pri := new char[128];
    pri[0] := text[i];
    var p := 1;
    while i + p < |text| && InNumber(text[i + p]) && p + 1 < pri.Length
      invariant Inside(text, i, p) && pri[..p] == text[i..i + p]
      decreases |text| - p
    {
      InsideOneMore(text, i, p);
      ghost var kept := pri[..p];
      pri[p] := text[i + p];
      assert pri[..p + 1] == kept + [text[i + p]] == text[i..i + p + 1];
      p := p + 1;
    }
    NumberAt(text, i, p);
    j, number := i + p, pri[..p];
  }

  lemma RunNumber(st: State, text: string, i: nat, j: nat)
    requires NumberTo(text, i, j) && StartsNumber(text[i]) && AdmitsChar(st.next, text[i])
    ensures Run(st, Tokens(text[i..])) == Run(Enter(st, Number(text[i..j])), Tokens(text[j..]))
  {
    if j < |text| && InNumber(text[j]) {
      RunOne(st, Bad, []);
      Inadmissible(text, j, Enter(st, Number(text[i..j])));
    } else {
      RunOne(st, Plain(Number(text[i..j])), Tokens(text[j..]));
    }
  }

  class Reader {
    const nodes: array<Node>
    var depth: nat
    var isKey: bool
    var next: Next
    var document: Option<Json>

    ghost predicate Valid()
      reads this
    {
      nodes.Length == MAX_DEPTH && depth < MAX_DEPTH
    }

    ghost function View(): State
      requires Valid()
      reads this, nodes
    {
      State(nodes[..depth], isKey, next, nodes[depth].name, document)
    }

    constructor ()
      ensures Valid() && fresh(nodes) && View() == START
    {
      nodes := new Node[MAX_DEPTH](_ => Node(false, [], [], []));
      depth, isKey, next, document := 0, false, Value, None;
    }

    /** Puts a value into the innermost open node, or makes it the document. */
    method EnterValue(v: Json)
      requires Valid()
      modifies this`next, this`document, nodes
      ensures Valid() && View() == Enter(old(View()), v)
    {
      if depth == 0 {
        document := Some(v);
      } else {
        nodes[depth - 1] := Add(nodes[depth - 1], nodes[depth].name, v);
      }
      next := End;
    }

    method OpenNode(isObject: bool) returns (ok: bool)
      requires Valid()
      modifies this`depth, this`isKey, this`next, nodes
      ensures Valid()
      ensures var st := Open(old(View()), isObject); if ok then st.Some? && View() == st.value else st.None?
    {
      if depth + 1 >= MAX_DEPTH {
        return false;
      }
      nodes[depth] := Node(isObject, nodes[depth].name, [], []);
      if isObject {
        isKey := true;
        next := ObjectString;
      } else {
        next := ArrayValue;
      }
      depth := depth + 1;
      nodes[depth] := Node(false, [], [], []);
      assert nodes[..depth] == old(nodes[..depth]) + [Node(isObject, old(nodes[depth].name), [], [])];
      ok := true;
    }

    method CloseNode(isObject: bool) returns (ok: bool)
      requires Valid()
      modifies this`depth, this`next, this`document, nodes
      ensures Valid()
      ensures var st := Close(old(View()), isObject); if ok then st.Some? && View() == st.value else st.None?
    {
      if depth == 0 || nodes[depth - 1].isObject != isObject {
        return false;
      }
      depth := depth - 1;
      assert nodes[..depth] == Below(old(nodes[..depth]));
      EnterValue(Closed(nodes[depth]));
      ok := true;
    }

    method ReadComma() returns (ok: bool)
      requires Valid()
      modifies this`isKey, this`next
      ensures Valid()
      ensures var st := Comma(old(View())); if ok then st.Some? && View() == st.value else st.None?
    {
      if depth == 0 {
        return false;
      }
      if nodes[depth - 1].isObject {
        isKey := true;
        next := Next.Str;
      } else {
        next := Value;
      }
      ok := true;
    }

    /** A mark, already known to be admissible. */
    method ReadMark(c: char) returns (ok: bool)
      requires Valid() && IsMark(c) && AdmitsChar(next, c)
      modifies this, nodes
      ensures Valid()
      ensures var st := Feed(old(View()), Mark(c)); if ok then st.Some? && View() == st.value else st.None?
    {
      ok := true;
      if c == ':' {
        isKey := false;
        next := Value;
      } else if c == '[' || c == '{' {
        ok := OpenNode(c == '{');
      } else if c == ']' || c == '}' {
        ok := CloseNode(c == '}');
      } else {
        ok := ReadComma();
      }
    }

    /** A string literal, which is a key or a value. */
    method ReadQuoted(text: string, i: nat) returns (ok: bool, j: nat)
      requires Valid() && i < |text| && text[i] == '"' && AdmitsChar(next, '"')
      modifies this, nodes
      ensures Valid() && (ok ==> i < j <= |text|)
      ensures Run(old(View()), Tokens(text[i..])) == if ok then Run(View(), Tokens(text[j..])) else None
    {
      var value;
      TokensAt(text, i);
      ok, j, value := ReadString(text, i + 1);
      if !ok {
        RunOne(View(), Bad, []);
        return;
      }
      RunOne(View(), Quoted(value), Tokens(text[j..]));
      if isKey {
        nodes[depth] := nodes[depth].(name := value);
        assert nodes[..depth] == old(nodes[..depth]);
        next := ObjectKey;
      } else {
        EnterValue(String(value));
      }
    }

    /** One of the words that stand for values. */
    method ReadWord(text: string, i: nat) returns (ok: bool, j: nat)
      requires Valid() && i < |text| && AdmitsChar(next, text[i])
      requires text[i] == 't' || text[i] == 'f' || text[i] == 'n'
      modifies this, nodes
      ensures Valid() && (ok ==> i < j <= |text|)
      ensures Run(old(View()), Tokens(text[i..])) == if ok then Run(View(), Tokens(text[j..])) else None
    {
      var word := Word(text[i]);
      j := i + |word|;
      ok := j <= |text| && text[i..j] == word;
      if ok {
        assert text[i..] == word + text[j..];
        WordTokens(text[i], text[j..]);
        RunOne(View(), Plain(WordValue(text[i])), Tokens(text[j..]));
        EnterValue(WordValue(text[i]));
      } else {
        NoWord(text, i);
        RunOne(View(), Bad, []);
      }
    }

    /** A number, of which the buffer holds at most 127 characters. */
    method ReadNumber(text: string, i: nat) returns (j: nat)
      requires Valid() && i < |text| && StartsNumber(text[i]) && AdmitsChar(next, text[i])
      modifies this, nodes
      ensures Valid() && i < j <= |text|
      ensures Run(old(View()), Tokens(text[i..])) == Run(View(), Tokens(text[j..]))
    {
      var number;
      j, number := ScanNumber(text, i);
      RunNumber(View(), text, i, j);
      EnterValue(Number(number));
    }

    /** Reads a whole document. */
    method ParseDocument(text: string) returns (result: Option<Json>)
      requires Valid() && View() == START
      modifies this, nodes
      ensures result == Parse(text)
    {
      var i := 0;
      assert text[0..] == text;
      while i < |text|
        invariant i <= |text| && Valid()
        invariant Parse(text) == Run(View(), Tokens(text[i..]))
        decreases |text| - i
      {
        var c := text[i];
        if IsSpace(c) {
          assert text[i..][1..] == text[i + 1..];
          i := i + 1;
        } else {
          var ok, j := ReadNext(text, i);
          if !ok {
            return None;
          }
          i := j;
        }
      }
      return if depth == 0 then document else None;
    }

    method ReadNext(text: string, i: nat) returns (ok: bool, j: nat)
      requires Valid() && i < |text| && !IsSpace(text[i])
      modifies this, nodes
      ensures Valid() && (ok ==> i < j <= |text|)
      ensures Run(old(View()), Tokens(text[i..])) == if ok then Run(View(), Tokens(text[j..])) else None
    {
      var c := text[i];
      if !AdmitsChar(next, c) {
        Inadmissible(text, i, View());
        return false, i;
      }
      if IsMark(c) {
        TokensAt(text, i);
        RunOne(View(), Mark(c), Tokens(text[i + 1..]));
        ok := ReadMark(c);
        j := i + 1;
      } else if c == '"' {
        ok, j := ReadQuoted(text, i);
      } else if c == 't' || c == 'f' || c == 'n' {
        ok, j := ReadWord(text, i);
      } else {
        ok := true;
        j := ReadNumber(text, i);
      }
    }
  }

  lemma NoWord(text: string, i: nat)
    requires i < |text| && (text[i] == 't' || text[i] == 'f' || text[i] == 'n')
    requires var w := Word(text[i]); i + |w| > |text| || text[i..i + |w|] != w
    ensures Tokens(text[i..]) == [Bad]
  {
    var w := Word(text[i]);
    if i + |w| <= |text| {
      assert text[i..][..|w|] == text[i..i + |w|];
    }
  }
}
