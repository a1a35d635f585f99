/** Splitting a command line into tokens at blanks that are not escaped with a backslash, and
    joining tokens again. */
module Tokenizer {

  const ESCAPE := '\\'

  predicate IsSeparator(c: char) { c == ' ' || c == '\r' || c == '\n' || c == '\t' }

  // ---- What a line is split into ----------------------------------------------------

  function TrimLeft(s: string): (r: string)
    ensures |r| <= |s| && (r != [] ==> !IsSeparator(r[0]))
  {
    if s != [] && IsSeparator(s[0]) then TrimLeft(s[1..]) else s
  }

  /** The first separator at or after a position, or the end. */
  function NextSeparator(s: string, from: nat): (i: nat)
    requires from <= |s|
    ensures from <= i <= |s| && (i < |s| ==> IsSeparator(s[i]))
    decreases |s| - from
  {
    if from == |s| || IsSeparator(s[from]) then from else NextSeparator(s, from + 1)
  }

  /** The first separator at or after a position with no backslash right before it, or the end. */
  function TokenEnd(s: string, from: nat): (i: nat)
    requires from <= |s|
    ensures from <= i <= |s|
    decreases |s| - from
  {
    var i := NextSeparator(s, from);
    if i < |s| && i > 0 && s[i - 1] == ESCAPE then TokenEnd(s, i + 1) else i
  }

  /** Drops the backslashes of a token, except one at its very beginning. */
  function Unescape(u: string): string {
    if u == [] then []
    else [u[0]] + (if |u| > 1 && u[1] == ESCAPE then Unescape(u[2..]) else Unescape(u[1..]))
  }

  lemma TokenNotEmpty(s: string)
    requires s != [] && !IsSeparator(s[0])
    ensures TokenEnd(s, 0) > 0
  {
  }

  function Tokenize(line: string): seq<string>
    decreases |line|
  {
    var s := TrimLeft(line);
    if s == [] then []
    else
      TokenNotEmpty(s);
      var e := TokenEnd(s, 0);
      [Unescape(s[..e])] + Tokenize(s[e..])
  }

  /** Tokens with a blank between them. */
  function Merge(ts: seq<string>): string {
    if ts == [] then [] else if |ts| == 1 then ts[0] else ts[0] + ([' '] + Merge(ts[1..]))
  }

  // ---- Where tokens end, and what is kept of them -----------------------------------

  /** A blank, a carriage return, a line feed or a tab. */
  predicate Separates(c: char) {
    var p := c as int;
    p == 0x20 || p == 0x0D || p == 0x0A || p == 0x09
  }

  /** A separator of the line that no backslash stands before. */
  predicate Splits(s: string, i: nat) {
    i < |s| && Separates(s[i]) && (i > 0 ==> s[i - 1] != '\\')
  }

  lemma {:induction false} EndsFrom(s: string, from: nat)
    requires from <= |s|
    ensures var e := TokenEnd(s, from);
            (e < |s| ==> Splits(s, e)) && forall i :: from <= i < e ==> !Splits(s, i)
    decreases |s| - from
  {
    var i := NextSeparator(s, from);
    NoneBetween(s, from);
    if i < |s| && i > 0 && s[i - 1] == ESCAPE {
      EndsFrom(s, i + 1);
    }
  }

  lemma {:induction false} NoneBetween(s: string, from: nat)
    requires from <= |s|
    ensures forall i :: from <= i < NextSeparator(s, from) ==> !Separates(s[i])
    decreases |s| - from
  {
    if from < |s| && !IsSeparator(s[from]) {
      NoneBetween(s, from + 1);
    }
  }

  /** A token ends at the first separator without a backslash before it. */
  lemma TokenEndsExactly(s: string, e: nat)
    requires e <= |s|
    ensures e == TokenEnd(s, 0) <==> (e < |s| ==> Splits(s, e)) && forall i :: 0 <= i < e ==> !Splits(s, i)
  {
    EndsFrom(s, 0);
  }

  /** A backslash is dropped unless it stands at the beginning or right after one that is. */
  predicate Dropped(u: string, i: nat)
    requires i < |u|
  {
    i > 0 && u[i] == '\\' && !Dropped(u, i - 1)
  }

  /** What is kept of a token from a position on. */
  function Kept(u: string, from: nat): string
    requires from <= |u|
    decreases |u| - from
  {
    if from == |u| then [] else (if Dropped(u, from) then [] else [u[from]]) + Kept(u, from + 1)
  }

  lemma {:induction false} KeptFrom(u: string, from: nat)
    requires from <= |u| && (from < |u| ==> !Dropped(u, from))
    ensures Unescape(u[from..]) == Kept(u, from)
    decreases |u| - from
  {
    if from < |u| {
      var next := if from + 1 < |u| && u[from + 1] == ESCAPE then from + 2 else from + 1;
      UnescapeOne(u, from, next);
      KeptOne(u, from, next);
      KeptFrom(u, next);
    }
  }

  lemma UnescapeOne(u: string, from: nat, next: nat)
    requires from < |u| && next == if from + 1 < |u| && u[from + 1] == ESCAPE then from + 2 else from + 1
    ensures Unescape(u[from..]) == [u[from]] + Unescape(u[next..])
  {
    var rest := u[from..];
    assert rest[next - from..] == u[next..];
    assert rest[0] == u[from] && (|rest| > 1 ==> rest[1] == u[from + 1]);
  }

  lemma KeptOne(u: string, from: nat, next: nat)
    requires from < |u| && !Dropped(u, from)
    requires next == if from + 1 < |u| && u[from + 1] == '\\' then from + 2 else from + 1
    ensures Kept(u, from) == [u[from]] + Kept(u, next)
    ensures next < |u| ==> !Dropped(u, next)
  {
    if next == from + 2 {
      assert Dropped(u, from + 1);
      assert Kept(u, from + 1) == [] + Kept(u, next);
    }
  }

  /** Every token, also one with backslashes in it, loses just the backslashes that are dropped. */
  lemma UnescapeKeeps(u: string)
    ensures Unescape(u) == Kept(u, 0)
  {
    KeptFrom(u, 0);
    assert u[0..] == u;
  }

  // ---- Escaping ---------------------------------------------------------------------

  function Escape(t: string): string {
    if t == [] then [] else EscapedChar(t[0]) + Escape(t[1..])
  }

  function EscapeAll(ts: seq<string>): seq<string> {
    if ts == [] then [] else [Escape(ts[0])] + EscapeAll(ts[1..])
  }

  /** What becomes of a token: a separator at its beginning keeps its backslash. */
  function Recovered(t: string): string {
    if t != [] && IsSeparator(t[0]) then [ESCAPE] + t else t
  }

  function RecoveredAll(ts: seq<string>): seq<string> {
    if ts == [] then [] else (if ts[0] == [] then [] else [Recovered(ts[0])]) + RecoveredAll(ts[1..])
  }

  // ---- Finding the end of an escaped token ------------------------------------------

  /** What may follow a token on the line. */
  predicate Follows(rest: string) { rest != [] ==> IsSeparator(rest[0]) }

  lemma SkipOne(s: string, from: nat)
    requires from < |s| && !IsSeparator(s[from])
    ensures TokenEnd(s, from) == TokenEnd(s, from + 1)
  {
  }

  lemma SkipEscaped(s: string, from: nat)
    requires from + 1 < |s| && s[from] == ESCAPE && IsSeparator(s[from + 1])
    ensures TokenEnd(s, from) == TokenEnd(s, from + 2)
  {
    assert NextSeparator(s, from) == NextSeparator(s, from + 1) == from + 1;
  }

  lemma Peel(s: string, done: nat, w: string, tail: string)
    requires done <= |s| && s[done..] == w + tail
    ensures done + |w| <= |s| && s[done + |w|..] == tail
    ensures forall j :: 0 <= j < |w| ==> s[done + j] == w[j]
  {
    forall j | 0 <= j < |w|
      ensures s[done + j] == w[j]
    {
      assert s[done + j] == s[done..][j];
    }
    assert s[done..][|w|..] == tail;
  }

  predicate EndsAt(s: string, from: nat, i: nat) {
    from <= |s| && TokenEnd(s, from) == i
  }

  lemma EndHere(s: string, done: nat, rest: string)
    requires Follows(rest) && done <= |s| && s[done..] == rest && (done > 0 ==> s[done - 1] != ESCAPE)
    ensures EndsAt(s, done, done)
  {
    if rest != [] {
      assert s[done] == rest[0];
    }
  }

  function EscapedChar(c: char): string {
    if IsSeparator(c) then [ESCAPE, c] else [c]
  }

  lemma SkipChar(s: string, done: nat, c: char, tail: string) returns (next: nat)
    requires done <= |s| && c != ESCAPE && s[done..] == EscapedChar(c) + tail
    ensures next == done + |EscapedChar(c)| && 0 < next <= |s| && s[next..] == tail && s[next - 1] == c
    ensures forall i :: EndsAt(s, next, i) ==> EndsAt(s, done, i)
  {
    Peel(s, done, EscapedChar(c), tail);
    next := done + |EscapedChar(c)|;
    if IsSeparator(c) {
      assert s[done + 1] == c;
      SkipEscaped(s, done);
    } else {
      assert s[done + 0] == c;
      SkipOne(s, done);
    }
  }

  /** From any point between two characters of the token, its end is found. */
  lemma {:induction false} EndFound(s: string, done: nat, b: string, rest: string)
    requires ESCAPE !in b && Follows(rest) && done <= |s| && s[done..] == Escape(b) + rest
    requires done > 0 ==> s[done - 1] != ESCAPE
    ensures EndsAt(s, done, done + |Escape(b)|)
    decreases |b|
  {
    if b == [] {
      assert Escape(b) + rest == rest;
      EndHere(s, done, rest);
    } else {
      assert b[0] in b;
      assert Escape(b) + rest == EscapedChar(b[0]) + (Escape(b[1..]) + rest);
      var next := SkipChar(s, done, b[0], Escape(b[1..]) + rest);
      EndFound(s, next, b[1..], rest);
    }
  }

  lemma {:induction false} UnescapeAfter(c: char, b: string)
    requires ESCAPE !in b
    ensures Unescape([c] + Escape(b)) == [c] + b
    decreases |b|
  {
    var u := [c] + Escape(b);
    if b == [] {
      assert u == [c] && u[1..] == [];
    } else {
      UnescapeAfter(b[0], b[1..]);
      assert b[0] in b;
      assert b == [b[0]] + b[1..];
      if IsSeparator(b[0]) {
        assert u[1] == ESCAPE && u[2..] == [b[0]] + Escape(b[1..]);
      } else {
        assert u[1] == b[0] && u[1..] == [b[0]] + Escape(b[1..]);
      }
    }
  }

  lemma UnescapeEscaped(t: string)
    requires t != [] && ESCAPE !in t
    ensures Unescape(Escape(t)) == Recovered(t)
  {
    UnescapeAfter(t[0], t[1..]);
    assert t == [t[0]] + t[1..];
    var u := Escape(t);
    if IsSeparator(t[0]) {
      assert u[1] == t[0] && u[1..] == [t[0]] + Escape(t[1..]);
    } else {
      assert u == [t[0]] + Escape(t[1..]);
    }
  }

  // ---- Whole lines ------------------------------------------------------------------

  lemma TokenizeOne(t: string, rest: string)
    requires t != [] && ESCAPE !in t && Follows(rest)
    ensures Tokenize(Escape(t) + rest) == [Recovered(t)] + Tokenize(rest)
  {
    var s := Escape(t) + rest;
    assert s[0..] == s;
    EndFound(s, 0, t, rest);
    UnescapeEscaped(t);
    assert s[..|Escape(t)|] == Escape(t) && s[|Escape(t)|..] == rest;
    assert !IsSeparator(s[0]);
  }

  lemma TokenizeBlank(rest: string)
    ensures Tokenize([' '] + rest) == Tokenize(rest)
  {
    assert ([' '] + rest)[1..] == rest;
  }

  /** Tokens that are escaped and put on one line come back as they were, except that empty ones
      are lost and a separator at the beginning of one keeps its backslash. */
  lemma {:induction false} TokenizeMerged(ts: seq<string>)
    requires forall t :: t in ts ==> ESCAPE !in t
    ensures Tokenize(Merge(EscapeAll(ts))) == RecoveredAll(ts)
    decreases |ts|
  {
    if ts != [] {
      var t, more := ts[0], Merge(EscapeAll(ts[1..]));
      assert t in ts;
      assert EscapeAll(ts)[1..] == EscapeAll(ts[1..]);
      TokenizeMerged(ts[1..]);
      var rest := if |ts| == 1 then [] else [' '] + more;
      EscapedCount(ts);
      assert Merge(EscapeAll(ts)) == Escape(t) + rest;
      if |ts| > 1 {
        TokenizeBlank(more);
      }
      if t == [] {
        assert Escape(t) + rest == rest;
      } else {
        TokenizeOne(t, rest);
      }
    }
  }

  lemma {:induction false} EscapedCount(ts: seq<string>)
    ensures |EscapeAll(ts)| == |ts|
  {
    if ts != [] {
      EscapedCount(ts[1..]);
    }
  }

  /** A token survives exactly when it is not empty and does not begin with a separator. */
  lemma SurvivesExactly(t: string)
    requires ESCAPE !in t
    ensures Tokenize(Escape(t)) == [t] <==> t != [] && !IsSeparator(t[0])
  {
    if t != [] {
      TokenizeOne(t, []);
      assert Escape(t) + [] == Escape(t);
      assert Tokenize([]) == [];
      assert [Recovered(t)] + [] == [Recovered(t)];
      assert |Recovered(t)| != |t| || Recovered(t) == t;
    }
  }

  // ---- The loops --------------------------------------------------------------------

  method TrimLeftFrom(line: string, i: nat) returns (j: nat)
    requires i <= |line|
    ensures i <= j <= |line| && line[j..] == TrimLeft(line[i..])
  {
    j := i;
    while j < |line| && IsSeparator(line[j])
      invariant i <= j <= |line| && TrimLeft(line[i..]) == TrimLeft(line[j..])
    {
      assert line[j..][1..] == line[j + 1..];
      j := j + 1;
    }
  }

  method FindSeparator(s: string, from: nat) returns (i: nat)
    requires from <= |s|
    ensures i == NextSeparator(s, from)
  {
    i := from;
    while i < |s| && !IsSeparator(s[i])
      invariant from <= i <= |s| && NextSeparator(s, from) == NextSeparator(s, i)
    {
      i := i + 1;
    }
  }

  method FindTokenEnd(s: string) returns (i: nat)
    ensures i == TokenEnd(s, 0)
  {
    i := FindSeparator(s, 0);
    var previous := if i > 0 then s[i - 1] else 0 as char;
    ghost var from: nat := 0;
    while i < |s| && previous == ESCAPE
      invariant from <= i <= |s| && i == NextSeparator(s, from) && TokenEnd(s, 0) == TokenEnd(s, from)
      invariant previous == if i > 0 then s[i - 1] else 0 as char
      decreases |s| - i
    {
      from := i + 1;
      i := FindSeparator(s, i + 1);
      previous := s[i - 1];
    }
  }

  lemma UnescapeStep(u: string, result: string)
    requires u != []
    ensures result + Unescape(u)
         == result + [u[0]] + Unescape(if |u| > 1 && u[1] == ESCAPE then u[2..] else u[1..])
  {
  }

  /** Copies a token of the given length, skipping a backslash after each character. */
  method UnescapeToken(s: string, length: nat) returns (result: string)
    requires length <= |s|
    ensures result == Unescape(s[..length])
  {
    result := [];
    var pos := 0;
    ghost var u := s[..length];
    assert [] + Unescape(u) == Unescape(u);
    while pos < length
      invariant u == if pos <= length then s[pos..length] else []
      invariant result + Unescape(u) == Unescape(s[..length])
      decreases length - pos
    {
      UnescapeStep(u, result);
      result := result + [s[pos]];
      pos := pos + 1;
      if pos < |s| && s[pos] == ESCAPE {
        u := if |u| > 1 then u[2..] else u[1..];
        pos := pos + 1;
      } else {
        u := u[1..];
      }
    }
    assert result + [] == result;
  }

  /** The tokens before a position have been found, and a token begins there. */
  ghost predicate SplitUpTo(line: string, prev: nat, result: seq<string>) {
    && prev <= |line| && line[prev..] == TrimLeft(line[prev..])
    && result + Tokenize(line[prev..]) == Tokenize(line)
  }

  lemma SplitStart(line: string, prev: nat)
    requires prev <= |line| && line[prev..] == TrimLeft(line[0..])
    ensures SplitUpTo(line, prev, [])
  {
    assert line[0..] == line;
    TokenizeTrimmed(line);
    assert [] + Tokenize(line) == Tokenize(line);
  }

  lemma SplitMore(line: string, prev: nat, e: nat, next: nat, result: seq<string>)
    requires SplitUpTo(line, prev, result) && prev < |line| && e == TokenEnd(line[prev..], 0)
    requires prev + e <= next <= |line| && line[next..] == TrimLeft(line[prev + e..])
    ensures SplitUpTo(line, next, result + [Unescape(line[prev..][..e])])
  {
    var s := line[prev..];
    assert s[e..] == line[prev + e..];
    TokenizeTrimmed(s[e..]);
    TokenNotEmpty(s);
    assert Tokenize(s) == [Unescape(s[..e])] + Tokenize(s[e..]);
  }

  /** The token that begins at a position, and where the next one begins. */
  method NextToken(line: string, prev: nat, ghost result: seq<string>) returns (token: string, next: nat)
    requires SplitUpTo(line, prev, result) && prev < |line|
    ensures prev < next && SplitUpTo(line, next, result + [token])
  {
    var p := FindTokenEnd(line[prev..]);
    TokenNotEmpty(line[prev..]);
    token := UnescapeToken(line[prev..], p);
    next := TrimLeftFrom(line, prev + p);
    SplitMore(line, prev, p, next, result);
  }

  method TokenizeLine(line: string) returns (result: seq<string>)
    ensures result == Tokenize(line)
  {
    result := [];
    var prev := TrimLeftFrom(line, 0);
    SplitStart(line, prev);
    while prev < |line|
      invariant SplitUpTo(line, prev, result)
    {
      var token, next := NextToken(line, prev, result);
      result := result + [token];
      prev := next;
    }
    NothingLeft(line, prev, result);
  }

  lemma NothingLeft(line: string, prev: nat, result: seq<string>)
    requires SplitUpTo(line, prev, result) && prev == |line|
    ensures result == Tokenize(line)
  {
    assert line[prev..] == [];
    assert Tokenize([]) == [];
    assert result + [] == result;
  }

  lemma {:induction false} TokenizeTrimmed(s: string)
    ensures TrimLeft(TrimLeft(s)) == TrimLeft(s) && Tokenize(TrimLeft(s)) == Tokenize(s)
  {
  }

  lemma {:induction false} MergeOneMore(ts: seq<string>, t: string)
    ensures Merge(ts + [t]) == if ts == [] then t else Merge(ts) + [' '] + t
    decreases |ts|
  {
    if ts == [] {
      assert ts + [t] == [t];
    } else {
      assert (ts + [t])[1..] == ts[1..] + [t];
      MergeOneMore(ts[1..], t);
      if |ts| == 1 {
        assert ts[1..] == [];
      }
    }
  }

  /** Sizes the result in one pass over the tokens and fills it in another. */
  method MergeTokens(tokens: seq<string>) returns (result: array<char>)
    ensures result.Length == |Merge(tokens)| + 1
    ensures result[..|Merge(tokens)|] == Merge(tokens) && result[|Merge(tokens)|] == 0 as char
  {
    var size := MergedSize(tokens);
    result := new char[size + 1];
    var pos := FillTokens(tokens, result);
    ghost var filled := result[..pos];
    result[pos] := 0 as char;
    assert result[..pos] == filled;
  }

  method MergedSize(tokens: seq<string>) returns (size: nat)
    ensures size == |Merge(tokens)|
  {
    size := 0;
    var k := 0;
    assert tokens[..0] == [];
    while k < |tokens|
      invariant k <= |tokens| && size == |Merge(tokens[..k])|
    {
      MergeUpTo(tokens, k);
      if k != 0 {
        size := size + 1;
      }
      size := size + |tokens[k]|;
      k := k + 1;
    }
    assert tokens[..k] == tokens;
  }

  lemma {:induction false} MergeGrows(tokens: seq<string>, k: nat)
    requires k <= |tokens|
    ensures |Merge(tokens[..k])| <= |Merge(tokens)|
    decreases |tokens| - k
  {
    if k == |tokens| {
      assert tokens[..k] == tokens;
    } else {
      MergeOneMore(tokens[..k], tokens[k]);
      assert tokens[..k + 1] == tokens[..k] + [tokens[k]];
      MergeGrows(tokens, k + 1);
    }
  }

  lemma MergeUpTo(tokens: seq<string>, k: nat)
    requires k < |tokens|
    ensures Merge(tokens[..k + 1]) == if k == 0 then tokens[k] else Merge(tokens[..k]) + [' '] + tokens[k]
    ensures |Merge(tokens[..k + 1])| <= |Merge(tokens)|
  {
    MergeOneMore(tokens[..k], tokens[k]);
    assert tokens[..k + 1] == tokens[..k] + [tokens[k]];
    MergeGrows(tokens, k + 1);
  }

  method CopyToken(result: array<char>, pos: nat, token: string)
    requires pos + |token| <= result.Length
    modifies result
    ensures result[..pos + |token|] == old(result[..pos]) + token
  {
    forall i | 0 <= i < |token| {
      result[pos + i] := token[i];
    }
  }

  method FillTokens(tokens: seq<string>, result: array<char>) returns (pos: nat)
    requires result.Length == |Merge(tokens)| + 1
    modifies result
    ensures pos == |Merge(tokens)| && result[..pos] == Merge(tokens)
  {
    pos := 0;
    var k := 0;
    assert tokens[..0] == [];
    while k < |tokens|
      invariant k <= |tokens| && pos == |Merge(tokens[..k])| < result.Length && result[..pos] == Merge(tokens[..k])
    {
      MergeUpTo(tokens, k);
      if k != 0 {
        CopyToken(result, pos, [' ']);
        pos := pos + 1;
      }
      CopyToken(result, pos, tokens[k]);
      pos := pos + |tokens[k]|;
      k := k + 1;
    }
    assert tokens[..k] == tokens;
  }
}
