/** A printed vector typed back on the command line: it is split into tokens, joined with single
    blanks, parsed and loaded. */
module CommandLine {
  import opened Json
  import opened JsonSyntax
  import opened Integers
  import opened Layouts
  import opened NestedArrays
  import opened NestedRoundTrip
  import Tokenizer

  // ---- Lines that survive splitting and joining -------------------------------------

  predicate IsPlain(c: char) { !Tokenizer.IsSeparator(c) && c != Tokenizer.ESCAPE }

  /** No backslashes, and single blanks between words only. */
  predicate Tidy(s: string)
    decreases |s|
  {
    s != [] ==> IsPlain(s[0]) && TidyAfter(s[1..])
  }

  predicate TidyAfter(s: string)
    decreases |s|
  {
    s != [] ==> (IsPlain(s[0]) && TidyAfter(s[1..])) || (s[0] == ' ' && s[1..] != [] && Tidy(s[1..]))
  }

  predicate AllPlain(s: string) {
    s != [] ==> IsPlain(s[0]) && AllPlain(s[1..])
  }

  /** The first word of a tidy line, and the line after its blank. */
  lemma {:induction false} FirstWord(s: string) returns (word: string, rest: string)
    requires TidyAfter(s)
    ensures s == word + rest && AllPlain(word)
    ensures rest != [] ==> rest[0] == ' ' && rest[1..] != [] && Tidy(rest[1..])
    decreases |s|
  {
    if s != [] && IsPlain(s[0]) {
      var w;
      w, rest := FirstWord(s[1..]);
      word := [s[0]] + w;
      assert word[1..] == w;
      assert s == [s[0]] + s[1..];
    } else {
      word, rest := [], s;
    }
  }

  lemma {:induction false} PlainUnescaped(word: string)
    requires AllPlain(word)
    ensures Tokenizer.Escape(word) == word && Tokenizer.ESCAPE !in word
  {
    if word != [] {
      PlainUnescaped(word[1..]);
      assert word == [word[0]] + word[1..];
    }
  }

  lemma MergeCons(word: string, ts: seq<string>)
    requires ts != []
    ensures Tokenizer.Merge([word] + ts) == word + ([' '] + Tokenizer.Merge(ts))
  {
    assert ([word] + ts)[1..] == ts;
  }

  predicate Survives(s: string) {
    Tokenizer.Merge(Tokenizer.Tokenize(s)) == s && (s != [] ==> Tokenizer.Tokenize(s) != [])
  }

  lemma LastWordSurvives(word: string)
    requires word != [] && AllPlain(word)
    ensures Survives(word)
  {
    PlainUnescaped(word);
    Tokenizer.TokenizeOne(word, []);
    assert word + [] == word && Tokenizer.Tokenize([]) == [];
  }

  lemma WordSurvives(word: string, more: string)
    requires word != [] && AllPlain(word) && more != [] && Survives(more)
    ensures Survives(word + ([' '] + more))
  {
    PlainUnescaped(word);
    Tokenizer.TokenizeOne(word, [' '] + more);
    Tokenizer.TokenizeBlank(more);
    MergeCons(word, Tokenizer.Tokenize(more));
  }

  /** Splitting a tidy line and joining the tokens again gives the line. */
  lemma {:induction false} TidySurvives(s: string)
    requires Tidy(s)
    ensures Survives(s)
    decreases |s|
  {
    if s != [] {
      var w, rest := FirstWord(s[1..]);
      var word := [s[0]] + w;
      assert word[1..] == w;
      if rest == [] {
        assert s == word;
        LastWordSurvives(word);
      } else {
        assert s == word + ([' '] + rest[1..]);
        TidySurvives(rest[1..]);
        WordSurvives(word, rest[1..]);
      }
    }
  }

  /** A line on its way through the command: split into tokens and joined again. */
  method TypedBack(text: string) returns (again: string)
    requires Tidy(text)
    ensures again == text
  {
    TidySurvives(text);
    var tokens := Tokenizer.TokenizeLine(text);
    var line := Tokenizer.MergeTokens(tokens);
    again := line[..line.Length - 1];
  }

  // ---- Printed vectors are tidy -----------------------------------------------------

  lemma {:induction false} PlainTidy(s: string, k: string)
    requires AllPlain(s) && TidyAfter(k)
    ensures TidyAfter(s + k) && (s != [] ==> Tidy(s + k))
  {
    if s == [] {
      assert s + k == k;
    } else {
      assert (s + k)[1..] == s[1..] + k;
      PlainTidy(s[1..], k);
    }
  }

  lemma {:induction false} DigitsPlain(n: nat, k: string)
    requires AllPlain(k)
    ensures AllPlain(Digits(n) + k) && Digits(n) != []
    decreases n
  {
    if n < 10 {
      assert (Digits(n) + k)[1..] == k;
    } else {
      assert ([DigitChar(n % 10)] + k)[1..] == k;
      DigitsPlain(n / 10, [DigitChar(n % 10)] + k);
      assert Digits(n / 10) + ([DigitChar(n % 10)] + k) == Digits(n) + k;
    }
  }

  lemma DecimalPlain(v: int)
    ensures AllPlain(Decimal(v)) && Decimal(v) != []
  {
    var n := if v < 0 then -v else v;
    DigitsPlain(n, []);
    assert Digits(n) + [] == Digits(n);
    if v < 0 {
      assert Decimal(v)[1..] == Digits(n);
    }
  }

  lemma Separated(text: string)
    requires Tidy(text) && text != []
    ensures TidyAfter([] + text) && TidyAfter([',', ' '] + text)
  {
    assert [] + text == text;
    var s := [',', ' '] + text;
    assert s[1..] == [' '] + text && s[1..][1..] == text;
  }

  lemma {:induction false} NestedTidy(values: seq<int>, ws: seq<nat>, dims: seq<nat>, base: nat, k: string)
    requires |ws| == |dims| && TidyAfter(k)
    ensures Tidy(Text(Nested(values, ws, dims, base), k)) && Text(Nested(values, ws, dims, base), k) != []
    decreases |dims|, 2, 0
  {
    if dims == [] {
      DecimalPlain(At(values, base));
      PlainTidy(Decimal(At(values, base)), k);
    } else {
      RestTidy(values, ws, dims, base, 0, k);
      RestIsText(values, ws, dims, base, k);
      var rest := Rest(values, ws, dims, base, 0, k);
      assert (['['] + rest)[1..] == rest;
    }
  }

  lemma {:induction false} RestTidy(values: seq<int>, ws: seq<nat>, dims: seq<nat>, base: nat, i: nat, k: string)
    requires |ws| == |dims| && dims != [] && i <= dims[0] && TidyAfter(k)
    ensures TidyAfter(Rest(values, ws, dims, base, i, k))
    decreases |dims|, 1, dims[0] - i
  {
    if i == dims[0] {
      assert ([']'] + k)[1..] == k;
    } else {
      RestTidy(values, ws, dims, base, i + 1, k);
      RestStep(values, ws, dims, base, i, k);
      var rest := Rest(values, ws, dims, base, i + 1, k);
      NestedTidy(values, ws[1..], dims[1..], Along(base, ws[0], i), rest);
      var text := Text(Nested(values, ws[1..], dims[1..], Along(base, ws[0], i)), rest);
      Separated(text);
    }
  }

  /** A vector printed by its layout, typed as the value of a set command, is loaded unchanged
      wherever an element has its place. */
  method SetAsPrinted(order: Order, dims: seq<nat>, t: IntType, values: seq<int>) returns (ok: bool, buffer: array<int>)
    requires 1 <= |dims| < MAX_DEPTH && InBounds(Factors(order, dims), dims, |values|) && AllInRange(t, values)
    ensures ok && buffer.Length == |values|
    ensures forall p :: 0 <= p < |values| && Attained(Factors(order, dims), dims, p) ==> buffer[p] == values[p]
    ensures OneToOne(Factors(order, dims), dims) && |values| == Product(dims) ==> buffer[..] == values
  {
    var text := Print(order, dims, values);
    ghost var ws := Factors(order, dims);
    NestedTidy(values, ws, dims, 0, []);
    assert text + [] == text == Text(Nested(values, ws, dims, 0), []);
    var line := TypedBack(text);
    ghost var initial;
    ok, buffer, initial := Load(order, dims, t, |values|, line);
    LoadsPrinted(t, values, ws, dims, text, initial);
    assert forall p :: 0 <= p < |values| ==> buffer[..][p] == buffer[p];
  }
}
