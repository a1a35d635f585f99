/** String literals of the JSON reader: escapes, code points and surrogate pairs. Text and results
    are sequences of bytes, written as characters below 256. */
module JsonStrings {
  import opened Options
  import opened JsonGrammar

  // ---- UTF-8 ------------------------------------------------------------------------

  function Byte(n: nat): char
    requires n < 256
  {
    n as char
  }

  /** The bytes of a code point; the code point zero has none. */
  function Utf8(r: nat): string
    requires r <= 0x10FFFF
  {
    if r == 0 then []
    else if r <= 0x7F then [Byte(r)]
    else if r <= 0x7FF then [Byte(0xC0 + r / 64), Byte(0x80 + r % 64)]
    else if r <= 0xFFFF then [Byte(0xE0 + r / 4096), Byte(0x80 + r / 64 % 64), Byte(0x80 + r % 64)]
    else [Byte(0xF0 + r / 262144), Byte(0x80 + r / 4096 % 64), Byte(0x80 + r / 64 % 64), Byte(0x80 + r % 64)]
  }

  /** How many bytes a code point takes, by the bits its first byte begins with. */
  function LeadLength(c: char): nat {
    if c < 0x80 as char then 1 else if c < 0xC0 as char then 0
    else if c < 0xE0 as char then 2 else if c < 0xF0 as char then 3 else 4
  }

  /** The code point a text begins with, by the definition of UTF-8. */
  function FirstPoint(s: string): int
    requires s != [] && |s| >= LeadLength(s[0])
  {
    match LeadLength(s[0])
    case 1 => s[0] as int
    case 2 => (s[0] as int - 0xC0) * 64 + (s[1] as int - 0x80)
    case 3 => ((s[0] as int - 0xE0) * 64 + (s[1] as int - 0x80)) * 64 + (s[2] as int - 0x80)
    case 4 =>
      (((s[0] as int - 0xF0) * 64 + (s[1] as int - 0x80)) * 64 + (s[2] as int - 0x80)) * 64 + (s[3] as int - 0x80)
    case _ => -1
  }

  lemma Sixes(r: nat)
    requires r <= 0x10FFFF
    ensures (r / 64) * 64 + r % 64 == r
    ensures (r / 4096 * 64 + r / 64 % 64) * 64 + r % 64 == r
    ensures ((r / 262144 * 64 + r / 4096 % 64) * 64 + r / 64 % 64) * 64 + r % 64 == r
  {
  }

  /** Encoding is injective and self-delimiting: the definition of UTF-8 gives the code point back. */
  lemma Utf8Decodes(r: nat, k: string)
    requires 0 < r <= 0x10FFFF
    ensures var s := Utf8(r); s != [] && LeadLength(s[0]) == |s| && FirstPoint(s + k) == r
  {
    Sixes(r);
    var s := Utf8(r);
    assert forall i :: 0 <= i < |s| ==> (s + k)[i] == s[i];
  }

  // ---- Escapes ----------------------------------------------------------------------

  predicate IsHex(c: char) {
    '0' <= c <= '9' || 'a' <= c <= 'f' || 'A' <= c <= 'F'
  }

  function HexDigit(c: char): (d: nat)
    ensures d < 16
  {
    if '0' <= c <= '9' then c as nat - '0' as nat
    else if 'a' <= c <= 'f' then 10 + (c as nat - 'a' as nat)
    else if 'A' <= c <= 'F' then 10 + (c as nat - 'A' as nat)
    else 0
  }

  predicate Hex4(a: char, b: char, c: char, d: char) {
    IsHex(a) && IsHex(b) && IsHex(c) && IsHex(d)
  }

  function CodeUnit(a: char, b: char, c: char, d: char): (u: nat)
    ensures u <= 0xFFFF
  {
    HexDigit(a) * 4096 + HexDigit(b) * 256 + HexDigit(c) * 16 + HexDigit(d)
  }

  predicate IsHigh(u: nat) { 0xD800 <= u <= 0xDBFF }

  predicate IsLow(u: nat) { 0xDC00 <= u <= 0xDFFF }

  /** The code point of a surrogate pair, with the single offset the program subtracts. */
  function Paired(hi: nat, lo: nat): (r: nat)
    requires IsHigh(hi) && IsLow(lo)
    ensures 0x10000 <= r <= 0x10FFFF
  {
    hi * 1024 + lo - 56613888
  }

  /** The bytes of two escaped code units in a row, of which the first is a high surrogate. */
  function PairBytes(hi: nat, lo: nat): string
    requires IsHigh(hi) && lo <= 0xFFFF
  {
    if IsLow(lo) then Utf8(Paired(hi, lo)) else Utf8(hi) + Utf8(lo)
  }

  predicate IsSimpleEscape(c: char) { c in "\"\\/bfnrt" }

  function Unescaped(c: char): char {
    match c
    case 'b' => 8 as char
    case 'f' => 12 as char
    case 'n' => 10 as char
    case 'r' => 13 as char
    case 't' => 9 as char
    case _ => c
  }

  /** Reads a string literal after its opening quote: the bytes it stands for and the text after
      its closing quote, or nothing if it is malformed. */
  function Scan(s: string, out: string): (r: Option<(string, string)>)
    ensures r.Some? ==> |r.value.1| < |s|
  {
    if s == [] || s[0] < ' ' then None
    else if s[0] == '"' then Some((out, s[1..]))
    else if s[0] != '\\' then Scan(s[1..], out + [s[0]])
    else if |s| < 2 then None
    else if IsSimpleEscape(s[1]) then Scan(s[2..], out + [Unescaped(s[1])])
    else if s[1] != 'u' || |s| < 6 || !Hex4(s[2], s[3], s[4], s[5]) then None
    else
      var u := CodeUnit(s[2], s[3], s[4], s[5]);
      if IsHigh(u) && |s| >= 8 && s[6] == '\\' && s[7] == 'u' then
        if |s| < 12 || !Hex4(s[8], s[9], s[10], s[11]) then None
        else Scan(s[12..], out + PairBytes(u, CodeUnit(s[8], s[9], s[10], s[11])))
      else Scan(s[6..], out + Utf8(u))
  }

  // ---- What a literal says ----------------------------------------------------------

  /** A piece of a literal as written: a character for itself, an escape, or a code unit in hex. */
  datatype Unit = Raw(c: char) | Escape(c: char) | Hex(h0: char, h1: char, h2: char, h3: char)

  predicate ValidUnit(u: Unit) {
    match u
    case Raw(c) => StandsForItself(c)
    case Escape(c) => IsEscapable(c)
    case Hex(h0, h1, h2, h3) => IsHexDigit(h0) && IsHexDigit(h1) && IsHexDigit(h2) && IsHexDigit(h3)
  }

  predicate ValidUnits(us: seq<Unit>) {
    us != [] ==> ValidUnit(us[0]) && ValidUnits(us[1..])
  }

  function UnitText(u: Unit): string {
    match u
    case Raw(c) => [c]
    case Escape(c) => ['\\', c]
    case Hex(h0, h1, h2, h3) => ['\\', 'u', h0, h1, h2, h3]
  }

  /** The literal's text up to and with its closing quote, followed by `k`. */
  function LiteralText(us: seq<Unit>, k: string): string {
    if us == [] then ['"'] + k else UnitText(us[0]) + LiteralText(us[1..], k)
  }

  function UnitCode(u: Unit): (r: nat)
    requires u.Hex?
    ensures r <= 0xFFFF
  {
    HexValue(u.h0) * 4096 + HexValue(u.h1) * 256 + HexValue(u.h2) * 16 + HexValue(u.h3)
  }

  /** The bytes a literal stands for. */
  function LiteralBytes(us: seq<Unit>): string
    decreases |us|
  {
    if us == [] then []
    else match us[0]
      case Raw(c) => [c] + LiteralBytes(us[1..])
      case Escape(c) => [EscapeMeaning(c)] + LiteralBytes(us[1..])
      case Hex(_, _, _, _) =>
        var u := UnitCode(us[0]);
        if IsHigh(u) && |us| > 1 && us[1].Hex? then PairBytes(u, UnitCode(us[1])) + LiteralBytes(us[2..])
        else Utf8(u) + LiteralBytes(us[1..])
  }

  lemma Appended(a: string, b: string, c: string)
    ensures (a + b) + c == a + (b + c)
  {
  }

  // The reader's characters are those of the grammar.

  lemma SameEscape(c: char)
    ensures IsSimpleEscape(c) <==> IsEscapable(c)
    ensures IsSimpleEscape(c) ==> Unescaped(c) == EscapeMeaning(c)
  {
  }

  lemma SameHex(c: char)
    ensures IsHex(c) <==> IsHexDigit(c)
    ensures HexDigit(c) == HexValue(c)
  {
  }

  lemma SameUnit(h0: char, h1: char, h2: char, h3: char)
    ensures Hex4(h0, h1, h2, h3) <==> ValidUnit(Hex(h0, h1, h2, h3))
    ensures CodeUnit(h0, h1, h2, h3) == UnitCode(Hex(h0, h1, h2, h3))
  {
    SameHex(h0);
    SameHex(h1);
    SameHex(h2);
    SameHex(h3);
  }

  lemma ScanRaw(c: char, s: string, out: string)
    requires ValidUnit(Raw(c))
    ensures Scan([c] + s, out) == Scan(s, out + [c])
  {
    assert ([c] + s)[1..] == s;
  }

  lemma ScanEscape(c: char, s: string, out: string)
    requires IsEscapable(c)
    ensures Scan(['\\', c] + s, out) == Scan(s, out + [EscapeMeaning(c)])
  {
    SameEscape(c);
    assert (['\\', c] + s)[2..] == s;
  }

  lemma ScanCode(h0: char, h1: char, h2: char, h3: char, s: string, out: string, code: nat)
    requires Hex4(h0, h1, h2, h3) && code == CodeUnit(h0, h1, h2, h3)
    requires !(IsHigh(code) && |s| >= 2 && s[0] == '\\' && s[1] == 'u')
    ensures Scan(['\\', 'u', h0, h1, h2, h3] + s, out) == Scan(s, out + Utf8(code))
  {
    assert (['\\', 'u', h0, h1, h2, h3] + s)[6..] == s;
  }

  lemma ScanCodes(h0: char, h1: char, h2: char, h3: char, i0: char, i1: char, i2: char, i3: char,
                  s: string, out: string, code: nat, other: nat)
    requires Hex4(h0, h1, h2, h3) && code == CodeUnit(h0, h1, h2, h3) && IsHigh(code)
    requires Hex4(i0, i1, i2, i3) && other == CodeUnit(i0, i1, i2, i3)
    ensures Scan(['\\', 'u', h0, h1, h2, h3] + (['\\', 'u', i0, i1, i2, i3] + s), out)
         == Scan(s, out + PairBytes(code, other))
  {
    assert (['\\', 'u', h0, h1, h2, h3] + (['\\', 'u', i0, i1, i2, i3] + s))[12..] == s;
  }

  lemma ScanHex(u: Unit, s: string, out: string, code: nat)
    requires u.Hex? && ValidUnit(u) && code == UnitCode(u)
    requires !(IsHigh(code) && |s| >= 2 && s[0] == '\\' && s[1] == 'u')
    ensures Scan(UnitText(u) + s, out) == Scan(s, out + Utf8(code))
  {
    SameUnit(u.h0, u.h1, u.h2, u.h3);
    ScanCode(u.h0, u.h1, u.h2, u.h3, s, out, code);
  }

  lemma ScanPair(u: Unit, v: Unit, s: string, out: string, code: nat, other: nat)
    requires u.Hex? && v.Hex? && ValidUnit(u) && ValidUnit(v)
    requires code == UnitCode(u) && other == UnitCode(v) && IsHigh(code)
    ensures Scan(UnitText(u) + (UnitText(v) + s), out) == Scan(s, out + PairBytes(code, other))
  {
    SameUnit(u.h0, u.h1, u.h2, u.h3);
    SameUnit(v.h0, v.h1, v.h2, v.h3);
    ScanCodes(u.h0, u.h1, u.h2, u.h3, v.h0, v.h1, v.h2, v.h3, s, out, code, other);
  }

  lemma LiteralStart(us: seq<Unit>, k: string)
    requires ValidUnits(us)
    ensures var s := LiteralText(us, k);
            (|s| >= 2 && s[0] == '\\' && s[1] == 'u') ==> us != [] && us[0].Hex?
  {
    if us != [] && us[0].Escape? {
      assert LiteralText(us, k)[1] == us[0].c;
    }
  }

  /** Every literal is read as what it says, and reading stops at its closing quote. */
  lemma {:induction false} ScanLiteral(us: seq<Unit>, k: string, out: string)
    requires ValidUnits(us)
    ensures Scan(LiteralText(us, k), out) == Some((out + LiteralBytes(us), k))
    decreases |us|
  {
    if us == [] {
      assert (['"'] + k)[1..] == k;
      assert out + [] == out;
    } else {
      var rest := LiteralText(us[1..], k);
      match us[0]
      case Raw(c) =>
        ScanRaw(c, rest, out);
        ScanLiteral(us[1..], k, out + [c]);
        Appended(out, [c], LiteralBytes(us[1..]));
      case Escape(c) =>
        ScanEscape(c, rest, out);
        ScanLiteral(us[1..], k, out + [EscapeMeaning(c)]);
        Appended(out, [EscapeMeaning(c)], LiteralBytes(us[1..]));
      case Hex(_, _, _, _) =>
        ScanLiteralHex(us, k, out);
    }
  }

  lemma {:induction false} ScanLiteralHex(us: seq<Unit>, k: string, out: string)
    requires ValidUnits(us) && us != [] && us[0].Hex?
    ensures Scan(LiteralText(us, k), out) == Some((out + LiteralBytes(us), k))
    decreases |us|, 0
  {
    var u := UnitCode(us[0]);
    if IsHigh(u) && |us| > 1 && us[1].Hex? {
      assert us[1..][1..] == us[2..];
      ScanPair(us[0], us[1], LiteralText(us[2..], k), out, u, UnitCode(us[1]));
      ScanLiteral(us[2..], k, out + PairBytes(u, UnitCode(us[1])));
      Appended(out, PairBytes(u, UnitCode(us[1])), LiteralBytes(us[2..]));
    } else {
      LiteralStart(us[1..], k);
      ScanHex(us[0], LiteralText(us[1..], k), out, u);
      ScanLiteral(us[1..], k, out + Utf8(u));
      Appended(out, Utf8(u), LiteralBytes(us[1..]));
    }
  }

  /** The units of any text that is read as a literal. */
  lemma {:induction false} FindUnits(s: string, out: string) returns (us: seq<Unit>, k: string)
    requires Scan(s, out).Some?
    ensures ValidUnits(us) && s == LiteralText(us, k)
    decreases |s|
  {
    if s[0] == '"' {
      us, k := [], s[1..];
    } else if s[0] != '\\' {
      us, k := FindUnits(s[1..], out + [s[0]]);
      us := MoreUnits([Raw(s[0])], us, k);
    } else if IsSimpleEscape(s[1]) {
      us, k := FindUnits(s[2..], out + [Unescaped(s[1])]);
      us := MoreUnits([Escape(s[1])], us, k);
    } else {
      us, k := FindHex(s, out);
    }
  }

  lemma MoreHex(s: string, us: seq<Unit>, k: string) returns (more: seq<Unit>)
    requires |s| >= 6 && s[0] == '\\' && s[1] == 'u' && Hex4(s[2], s[3], s[4], s[5])
    requires ValidUnits(us) && s[6..] == LiteralText(us, k)
    ensures ValidUnits(more) && s == LiteralText(more, k)
  {
    SameUnit(s[2], s[3], s[4], s[5]);
    more := MoreUnits([Hex(s[2], s[3], s[4], s[5])], us, k);
    assert s == ['\\', 'u', s[2], s[3], s[4], s[5]] + s[6..];
  }

  lemma {:induction false} FindHex(s: string, out: string) returns (us: seq<Unit>, k: string)
    requires Scan(s, out).Some? && s[0] == '\\' && !IsSimpleEscape(s[1])
    ensures ValidUnits(us) && s == LiteralText(us, k)
    decreases |s|, 0
  {
    var u := CodeUnit(s[2], s[3], s[4], s[5]);
    if IsHigh(u) && |s| >= 8 && s[6] == '\\' && s[7] == 'u' {
      us, k := FindUnits(s[12..], out + PairBytes(u, CodeUnit(s[8], s[9], s[10], s[11])));
      assert s[6..][6..] == s[12..];
      us := MoreHex(s[6..], us, k);
    } else {
      us, k := FindUnits(s[6..], out + Utf8(u));
    }
    us := MoreHex(s, us, k);
  }

  /** One more unit in front of a literal. */
  lemma MoreUnits(first: seq<Unit>, us: seq<Unit>, k: string) returns (more: seq<Unit>)
    requires |first| == 1 && ValidUnit(first[0]) && ValidUnits(us)
    ensures more == first + us && ValidUnits(more) && LiteralText(more, k) == UnitText(first[0]) + LiteralText(us, k)
  {
    more := first + us;
    assert more[1..] == us;
  }

  /** The code point zero leaves no trace. */
  lemma ZeroIsDropped(us: seq<Unit>)
    ensures LiteralBytes([Hex('0', '0', '0', '0')] + us) == LiteralBytes(us)
  {
    var zero := Hex('0', '0', '0', '0');
    assert UnitCode(zero) == 0 && ([zero] + us)[1..] == us;
    assert LiteralBytes([zero] + us) == [] + LiteralBytes(us);
  }

  // ---- Surrogates against UTF-16 ----------------------------------------------------

  lemma PairedIsUtf16(hi: nat, lo: nat)
    requires IsHigh(hi) && IsLow(lo)
    ensures Paired(hi, lo) == 0x10000 + (hi - 0xD800) * 0x400 + (lo - 0xDC00)
  {
  }

  predicate HighAt(us: seq<Unit>, i: nat) {
    i < |us| && us[i].Hex? && IsHigh(UnitCode(us[i]))
  }

  predicate LowAt(us: seq<Unit>, i: nat) {
    i < |us| && us[i].Hex? && IsLow(UnitCode(us[i]))
  }

  /** The bytes of a literal when every high surrogate that has a low one after it is paired with
      it, and every other code unit stands alone. */
  function Utf16Bytes(us: seq<Unit>): string
    decreases |us|
  {
    if us == [] then []
    else match us[0]
      case Raw(c) => [c] + Utf16Bytes(us[1..])
      case Escape(c) => [EscapeMeaning(c)] + Utf16Bytes(us[1..])
      case Hex(_, _, _, _) =>
        if HighAt(us, 0) && LowAt(us, 1) then Utf8(Paired(UnitCode(us[0]), UnitCode(us[1]))) + Utf16Bytes(us[2..])
        else Utf8(UnitCode(us[0])) + Utf16Bytes(us[1..])
  }

  /** How often the reader has used up a high surrogate as the second half of a failed pair when the
      low one that belongs to it comes. */
  function Mispairings(us: seq<Unit>): nat
    decreases |us|
  {
    if us == [] then 0
    else if HighAt(us, 0) && HighAt(us, 1) && LowAt(us, 2) then 1 + Mispairings(us[3..])
    else if HighAt(us, 0) && |us| > 1 && us[1].Hex? then Mispairings(us[2..])
    else Mispairings(us[1..])
  }

  lemma Utf8Lengths(r: nat)
    requires r <= 0x10FFFF
    ensures 0x800 <= r <= 0xFFFF ==> |Utf8(r)| == 3
    ensures 0x10000 <= r ==> |Utf8(r)| == 4
  {
  }

  /** The case of a high surrogate followed by another hex escape. */
  lemma PairStep(us: seq<Unit>)
    requires HighAt(us, 0) && |us| > 1 && us[1].Hex? && !LowAt(us, 1) && !(HighAt(us, 1) && LowAt(us, 2))
    ensures Utf16Bytes(us) == PairBytes(UnitCode(us[0]), UnitCode(us[1])) + Utf16Bytes(us[2..])
  {
    assert us[1..][1..] == us[2..];
    assert LowAt(us[1..], 1) == LowAt(us, 2);
    assert Utf16Bytes(us[1..]) == Utf8(UnitCode(us[1])) + Utf16Bytes(us[2..]);
  }

  lemma MispairedStep(us: seq<Unit>)
    requires HighAt(us, 0) && HighAt(us, 1) && LowAt(us, 2)
    ensures |Utf16Bytes(us)| == 7 + |Utf16Bytes(us[3..])|
    ensures |LiteralBytes(us)| == 9 + |LiteralBytes(us[3..])|
  {
    Utf8Lengths(UnitCode(us[0]));
    Utf8Lengths(UnitCode(us[1]));
    Utf8Lengths(UnitCode(us[2]));
    Utf8Lengths(Paired(UnitCode(us[1]), UnitCode(us[2])));
    assert us[1..][2..] == us[3..];
    assert us[2..][1..] == us[3..];
    assert us[1..][0] == us[1] && us[1..][1] == us[2];
    assert |Utf16Bytes(us[1..])| == 4 + |Utf16Bytes(us[3..])|;
    assert |LiteralBytes(us[2..])| == 3 + |LiteralBytes(us[3..])|;
  }

  lemma {:induction false} Utf16Lengths(us: seq<Unit>)
    ensures |LiteralBytes(us)| == |Utf16Bytes(us)| + 2 * Mispairings(us)
    ensures Mispairings(us) == 0 ==> LiteralBytes(us) == Utf16Bytes(us)
    decreases |us|
  {
    if us != [] {
      if HighAt(us, 0) && HighAt(us, 1) && LowAt(us, 2) {
        Utf16Lengths(us[3..]);
        MispairedStep(us);
      } else if HighAt(us, 0) && |us| > 1 && us[1].Hex? {
        Utf16Lengths(us[2..]);
        if !LowAt(us, 1) {
          PairStep(us);
        }
      } else {
        Utf16Lengths(us[1..]);
      }
    }
  }

  /** What a unit is to the pairing of surrogates: a high one, a low one, another code unit in hex,
      or none. */
  datatype Kind = Leading | Trailing | Unpaired | Other

  function KindOf(u: Unit): Kind {
    if !u.Hex? then Other
    else if IsHigh(UnitCode(u)) then Leading
    else if IsLow(UnitCode(u)) then Trailing
    else Unpaired
  }

  function Kinds(us: seq<Unit>): seq<Kind> {
    seq(|us|, i requires 0 <= i < |us| => KindOf(us[i]))
  }

  predicate KindAt(ks: seq<Kind>, i: nat, k: Kind) { i < |ks| && ks[i] == k }

  /** How many high surrogates stand in a row right before a place in the literal. */
  function RunBefore(ks: seq<Kind>, i: nat): nat {
    if i == 0 || !KindAt(ks, i - 1, Leading) then 0 else 1 + RunBefore(ks, i - 1)
  }

  predicate EvenRunBefore(ks: seq<Kind>, i: nat) {
    KindAt(ks, i, Trailing) && RunBefore(ks, i) > 0 && RunBefore(ks, i) % 2 == 0
  }

  /** No low surrogate stands right after an even number of high ones. */
  predicate NoEvenRun(ks: seq<Kind>) {
    forall i :: 0 <= i < |ks| ==> !EvenRunBefore(ks, i)
  }

  /** A run seen from `k` on is the same, unless it reaches back to the beginning. */
  lemma {:induction false} RunShift(ks: seq<Kind>, k: nat, i: nat)
    requires k + i <= |ks|
    ensures RunBefore(ks[k..], i) <= i
    ensures RunBefore(ks, k + i) == RunBefore(ks[k..], i) + if RunBefore(ks[k..], i) == i then RunBefore(ks, k) else 0
  {
    if i > 0 {
      assert KindAt(ks[k..], i - 1, Leading) == KindAt(ks, k + i - 1, Leading);
      RunShift(ks, k, i - 1);
    }
  }

  lemma {:induction false} RunFromStart(ks: seq<Kind>, i: nat)
    requires 0 < i <= |ks| && RunBefore(ks, i) == i
    ensures KindAt(ks, 0, Leading)
  {
    if i > 1 {
      RunFromStart(ks, i - 1);
    }
  }

  /** The reader can go on at `k` as if the literal began there. */
  predicate Fresh(ks: seq<Kind>, k: nat) {
    RunBefore(ks, k) == 0 || (RunBefore(ks, k) % 2 == 0 && !KindAt(ks, k, Trailing))
    || (!KindAt(ks, k, Trailing) && !KindAt(ks, k, Leading))
  }

  lemma SameThere(ks: seq<Kind>, k: nat, i: nat)
    requires k + i < |ks| && Fresh(ks, k)
    ensures EvenRunBefore(ks[k..], i) <==> EvenRunBefore(ks, k + i)
  {
    RunShift(ks, k, i);
    if RunBefore(ks[k..], i) == i && i > 0 {
      RunFromStart(ks[k..], i);
    }
  }

  lemma Skips(ks: seq<Kind>, k: nat)
    requires k <= |ks| && Fresh(ks, k) && forall i :: 0 <= i < k ==> !EvenRunBefore(ks, i)
    ensures NoEvenRun(ks) <==> NoEvenRun(ks[k..])
  {
    forall i | 0 <= i < |ks[k..]|
      ensures EvenRunBefore(ks[k..], i) <==> EvenRunBefore(ks, k + i)
    {
      SameThere(ks, k, i);
    }
    assert forall i :: k <= i < |ks| ==> k + (i - k) == i && EvenRunBefore(ks, i) == EvenRunBefore(ks[k..], i - k);
  }

  /** The steps of the reader, which never begins in the middle of a pair. */
  lemma OneOn(ks: seq<Kind>)
    requires ks != [] && (ks[0] == Leading ==> |ks| == 1 || ks[1] == Other)
    ensures NoEvenRun(ks) <==> NoEvenRun(ks[1..])
  {
    assert RunBefore(ks, 1) == 1 + RunBefore(ks, 0) || RunBefore(ks, 1) == 0;
    Skips(ks, 1);
  }

  lemma TwoOn(ks: seq<Kind>)
    requires |ks| > 1 && ks[0] == Leading && ks[1] != Other && !(ks[1] == Leading && KindAt(ks, 2, Trailing))
    ensures NoEvenRun(ks) <==> NoEvenRun(ks[2..])
  {
    assert RunBefore(ks, 1) == 1;
    assert RunBefore(ks, 2) == if ks[1] == Leading then 2 else 0;
    Skips(ks, 2);
  }

  lemma KindsFrom(us: seq<Unit>, k: nat)
    requires k <= |us|
    ensures Kinds(us[k..]) == Kinds(us)[k..]
  {
  }

  lemma KindsAt(us: seq<Unit>, i: nat)
    ensures HighAt(us, i) <==> KindAt(Kinds(us), i, Leading)
    ensures LowAt(us, i) <==> KindAt(Kinds(us), i, Trailing)
    ensures i < |us| ==> (us[i].Hex? <==> Kinds(us)[i] != Other)
  {
  }

  lemma {:induction false} MispairingsAreEvenRuns(us: seq<Unit>)
    ensures Mispairings(us) == 0 <==> NoEvenRun(Kinds(us))
    decreases |us|
  {
    if us != [] {
      var ks := Kinds(us);
      KindsAt(us, 0);
      KindsAt(us, 1);
      KindsAt(us, 2);
      if HighAt(us, 0) && HighAt(us, 1) && LowAt(us, 2) {
        EvenRunAtOnce(ks);
      } else if HighAt(us, 0) && |us| > 1 && us[1].Hex? {
        MispairingsAreEvenRuns(us[2..]);
        KindsFrom(us, 2);
        TwoOn(ks);
      } else {
        MispairingsAreEvenRuns(us[1..]);
        KindsFrom(us, 1);
        OneOn(ks);
      }
    }
  }

  lemma EvenRunAtOnce(ks: seq<Kind>)
    requires KindAt(ks, 0, Leading) && KindAt(ks, 1, Leading) && KindAt(ks, 2, Trailing)
    ensures !NoEvenRun(ks)
  {
    assert RunBefore(ks, 1) == 1 && RunBefore(ks, 2) == 2;
    assert EvenRunBefore(ks, 2);
  }

  /** The reader decodes a literal as UTF-16 prescribes exactly when no low surrogate stands right
      after an even number of high ones; in text without unpaired surrogates none does. */
  lemma DecodesUtf16(us: seq<Unit>)
    ensures LiteralBytes(us) == Utf16Bytes(us) <==> NoEvenRun(Kinds(us))
  {
    Utf16Lengths(us);
    MispairingsAreEvenRuns(us);
  }

  /** Two copies of the first half of U+1F600 and then its second half. */
  const STUTTER := [Hex('D', '8', '3', 'D'), Hex('D', '8', '3', 'D'), Hex('D', 'E', '0', '0')]

  /** The shortest case in which the two differ: the reader gives three lone halves. */
  lemma StutterMisread()
    ensures LiteralBytes(STUTTER) == Utf8(0xD83D) + Utf8(0xD83D) + Utf8(0xDE00)
    ensures Utf16Bytes(STUTTER) == Utf8(0xD83D) + Utf8(0x1F600)
    ensures LiteralBytes(STUTTER) != Utf16Bytes(STUTTER)
  {
    var hi, lo := Hex('D', '8', '3', 'D'), Hex('D', 'E', '0', '0');
    assert UnitCode(hi) == 0xD83D && UnitCode(lo) == 0xDE00;
    assert STUTTER[1..] == [hi, lo] && STUTTER[2..] == [lo] && [lo][1..] == [] && [hi, lo][2..] == [];
    assert LiteralBytes([lo]) == Utf8(0xDE00) + LiteralBytes([lo][1..]) == Utf8(0xDE00);
    assert LiteralBytes(STUTTER) == PairBytes(0xD83D, 0xD83D) + LiteralBytes(STUTTER[2..]);
    assert Paired(0xD83D, 0xDE00) == 0x1F600;
    assert Utf16Bytes([hi, lo]) == Utf8(0x1F600) + Utf16Bytes([hi, lo][2..]) == Utf8(0x1F600);
    assert Utf16Bytes(STUTTER) == Utf8(0xD83D) + Utf16Bytes(STUTTER[1..]);
  }

  // ---- Writing literals -------------------------------------------------------------

  function HexChar(n: nat): char
    requires n < 16
  {
    if n < 10 then ('0' as nat + n) as char else ('a' as nat + n - 10) as char
  }

  /** A code unit written in hex. */
  function Escaped16(u: nat): Unit
    requires u <= 0xFFFF
  {
    Hex(HexChar(u / 4096), HexChar(u / 256 % 16), HexChar(u / 16 % 16), HexChar(u % 16))
  }

  lemma HexCharValue(n: nat)
    requires n < 16
    ensures IsHexDigit(HexChar(n)) && HexValue(HexChar(n)) == n
  {
  }

  lemma LowNibble(u: nat)
    ensures u / 16 == u / 256 * 16 + u / 16 % 16
  {
  }

  lemma HighNibble(u: nat)
    ensures u / 256 == u / 4096 * 16 + u / 256 % 16
  {
  }

  lemma Joined(u: nat, a: nat, b: nat, c: nat, x: nat, y: nat, z: nat)
    requires u == a * 16 + x && a == b * 16 + y && b == c * 16 + z
    ensures c * 4096 + z * 256 + y * 16 + x == u
  {
  }

  lemma Nibbles(u: nat)
    requires u <= 0xFFFF
    ensures u / 4096 * 4096 + u / 256 % 16 * 256 + u / 16 % 16 * 16 + u % 16 == u
    ensures u / 4096 < 16
  {
    LowNibble(u);
    HighNibble(u);
    Joined(u, u / 16, u / 256, u / 4096, u % 16, u / 16 % 16, u / 256 % 16);
  }

  lemma Escaped16Value(u: nat)
    requires u <= 0xFFFF
    ensures ValidUnit(Escaped16(u)) && UnitCode(Escaped16(u)) == u
  {
    Nibbles(u);
    HexCharValue(u / 4096);
    HexCharValue(u / 256 % 16);
    HexCharValue(u / 16 % 16);
    HexCharValue(u % 16);
    var e := Escaped16(u);
    assert UnitCode(e) == HexValue(e.h0) * 4096 + HexValue(e.h1) * 256 + HexValue(e.h2) * 16 + HexValue(e.h3);
  }

  predicate IsScalar(r: nat) { 0 < r <= 0x10FFFF && !IsHigh(r) && !IsLow(r) }

  predicate Scalars(rs: seq<nat>) {
    rs != [] ==> IsScalar(rs[0]) && Scalars(rs[1..])
  }

  function High(r: nat): (u: nat)
    requires 0x10000 <= r <= 0x10FFFF
    ensures IsHigh(u)
  {
    0xD800 + (r - 0x10000) / 1024
  }

  function Low(r: nat): (u: nat)
    requires 0x10000 <= r <= 0x10FFFF
    ensures IsLow(u)
  {
    0xDC00 + (r - 0x10000) % 1024
  }

  function EscapedScalar(r: nat): seq<Unit>
    requires IsScalar(r)
  {
    if r <= 0xFFFF then [Escaped16(r)] else [Escaped16(High(r)), Escaped16(Low(r))]
  }

  /** Unicode text written in escapes, with surrogate pairs beyond the sixteen-bit range. */
  function EscapedScalars(rs: seq<nat>): seq<Unit>
    requires Scalars(rs)
  {
    if rs == [] then []
    else EscapedScalar(rs[0]) + EscapedScalars(rs[1..])
  }

  function Utf8All(rs: seq<nat>): string
    requires Scalars(rs)
  {
    if rs == [] then [] else Utf8(rs[0]) + Utf8All(rs[1..])
  }

  lemma BytesOfOne(u: Unit, us: seq<Unit>)
    requires u.Hex? && !IsHigh(UnitCode(u))
    ensures LiteralBytes([u] + us) == Utf8(UnitCode(u)) + LiteralBytes(us)
  {
    assert ([u] + us)[1..] == us;
  }

  lemma BytesOfPair(u: Unit, v: Unit, us: seq<Unit>)
    requires u.Hex? && v.Hex? && IsHigh(UnitCode(u)) && IsLow(UnitCode(v))
    ensures LiteralBytes([u, v] + us) == Utf8(Paired(UnitCode(u), UnitCode(v))) + LiteralBytes(us)
  {
    assert ([u, v] + us)[2..] == us;
  }

  lemma ValidPair(u: Unit, v: Unit, us: seq<Unit>)
    requires ValidUnit(u) && ValidUnit(v) && ValidUnits(us)
    ensures ValidUnits([u] + us) && ValidUnits([u, v] + us)
  {
    assert ([u] + us)[1..] == us;
    assert ([v] + us)[1..] == us;
    assert ([u, v] + us)[1..] == [v] + us;
  }

  lemma PairedBack(r: nat)
    requires 0x10000 <= r <= 0x10FFFF
    ensures Paired(High(r), Low(r)) == r
  {
  }

  lemma OneScalar(r: nat, us: seq<Unit>)
    requires IsScalar(r) && ValidUnits(us)
    ensures ValidUnits(EscapedScalar(r) + us) && LiteralBytes(EscapedScalar(r) + us) == Utf8(r) + LiteralBytes(us)
  {
    if r <= 0xFFFF {
      Escaped16Value(r);
      BytesOfOne(Escaped16(r), us);
      ValidPair(Escaped16(r), Escaped16(r), us);
    } else {
      PairedBack(r);
      Escaped16Value(High(r));
      Escaped16Value(Low(r));
      BytesOfPair(Escaped16(High(r)), Escaped16(Low(r)), us);
      ValidPair(Escaped16(High(r)), Escaped16(Low(r)), us);
    }
  }

  /** Any text of non-zero scalar values written in escapes stands for its UTF-8 encoding. */
  lemma {:induction false} ScalarsDecode(rs: seq<nat>)
    requires Scalars(rs)
    ensures ValidUnits(EscapedScalars(rs)) && LiteralBytes(EscapedScalars(rs)) == Utf8All(rs)
    decreases |rs|
  {
    if rs != [] {
      ScalarsDecode(rs[1..]);
      OneScalar(rs[0], EscapedScalars(rs[1..]));
    }
  }

  /** How a byte of a string value is written. */
  function Written(c: char): Unit {
    if c == '"' || c == '\\' then Escape(c)
    else if c == 8 as char then Escape('b')
    else if c == 12 as char then Escape('f')
    else if c == '\n' then Escape('n')
    else if c == '\r' then Escape('r')
    else if c == '\t' then Escape('t')
    else if c < ' ' || c == 127 as char then Hex('0', '0', HexChar(c as nat / 16), HexChar(c as nat % 16))
    else Raw(c)
  }

  function WrittenAll(s: string): seq<Unit> {
    if s == [] then [] else WrittenAll(s[..|s| - 1]) + [Written(s[|s| - 1])]
  }

  lemma ControlByte(n: nat)
    requires 0 < n <= 127
    ensures ValidUnit(Hex('0', '0', HexChar(n / 16), HexChar(n % 16)))
    ensures UnitCode(Hex('0', '0', HexChar(n / 16), HexChar(n % 16))) == n
  {
    HexCharValue(n / 16);
    HexCharValue(n % 16);
  }

  lemma WrittenByte(c: char)
    requires c != 0 as char
    ensures ValidUnit(Written(c))
    ensures Written(c).Hex? ==> !IsHigh(UnitCode(Written(c))) && Utf8(UnitCode(Written(c))) == [c]
    ensures Written(c).Escape? ==> EscapeMeaning(Written(c).c) == c
    ensures Written(c).Raw? ==> Written(c).c == c
  {
    if c < ' ' || c == 127 as char {
      ControlByte(c as nat);
    }
  }

  /** A unit that does not wait for a second half. */
  predicate Alone(u: Unit) { u.Hex? ==> !IsHigh(UnitCode(u)) }

  predicate AllAlone(us: seq<Unit>) {
    forall i :: 0 <= i < |us| ==> Alone(us[i])
  }

  lemma BytesOfFirst(u: Unit, us: seq<Unit>)
    requires Alone(u)
    ensures LiteralBytes([u] + us) == LiteralBytes([u]) + LiteralBytes(us)
  {
    assert ([u] + us)[1..] == us && [u][1..] == [];
  }

  lemma ValidFirst(u: Unit, us: seq<Unit>)
    requires ValidUnit(u) && ValidUnits(us)
    ensures ValidUnits([u] + us)
  {
    assert ([u] + us)[1..] == us;
  }

  lemma {:induction false} UnitsOneMore(us: seq<Unit>, u: Unit)
    requires ValidUnits(us) && ValidUnit(u) && AllAlone(us)
    ensures ValidUnits(us + [u])
    ensures LiteralBytes(us + [u]) == LiteralBytes(us) + LiteralBytes([u])
    decreases |us|
  {
    if us == [] {
      assert us + [u] == [u] && ValidUnits([u][1..]);
      assert [] + LiteralBytes([u]) == LiteralBytes([u]);
    } else {
      var first, rest := us[0], us[1..];
      assert us == [first] + rest && us + [u] == [first] + (rest + [u]);
      UnitsOneMore(rest, u);
      ValidFirst(first, rest + [u]);
      BytesOfFirst(first, rest + [u]);
      BytesOfFirst(first, rest);
      Appended(LiteralBytes([first]), LiteralBytes(rest), LiteralBytes([u]));
    }
  }

  lemma WrittenOne(c: char)
    requires c != 0 as char
    ensures ValidUnit(Written(c)) && Alone(Written(c)) && LiteralBytes([Written(c)]) == [c]
  {
    WrittenByte(c);
    assert [Written(c)][1..] == [];
  }

  lemma {:induction false} WrittenReads(s: string)
    requires 0 as char !in s
    ensures ValidUnits(WrittenAll(s)) && LiteralBytes(WrittenAll(s)) == s && AllAlone(WrittenAll(s))
  {
    if s != [] {
      var n := |s| - 1;
      WrittenReads(s[..n]);
      WrittenOne(s[n]);
      UnitsOneMore(WrittenAll(s[..n]), Written(s[n]));
    }
  }

  function Texts(us: seq<Unit>): string {
    if us == [] then [] else UnitText(us[0]) + Texts(us[1..])
  }

  lemma {:induction false} TextsOneMore(us: seq<Unit>, u: Unit)
    ensures Texts(us + [u]) == Texts(us) + UnitText(u)
    decreases |us|
  {
    if us == [] {
      assert us + [u] == [u];
      assert Texts([u]) == UnitText(u) + Texts([u][1..]);
    } else {
      assert (us + [u])[1..] == us[1..] + [u];
      TextsOneMore(us[1..], u);
    }
  }

  lemma {:induction false} LiteralIsTexts(us: seq<Unit>, k: string)
    ensures LiteralText(us, k) == Texts(us) + (['"'] + k)
    decreases |us|
  {
    if us == [] {
      assert [] + (['"'] + k) == ['"'] + k;
    } else {
      LiteralIsTexts(us[1..], k);
      Appended(UnitText(us[0]), Texts(us[1..]), ['"'] + k);
    }
  }

  lemma WrittenReadsBack(s: string, k: string)
    requires 0 as char !in s
    ensures Scan(Texts(WrittenAll(s)) + (['"'] + k), []) == Some((s, k))
  {
    WrittenReads(s);
    LiteralIsTexts(WrittenAll(s), k);
    ScanLiteral(WrittenAll(s), k, []);
    assert [] + s == s;
  }

  method EscapeByte(c: char) returns (r: string)
    ensures r == UnitText(Written(c))
  {
    match c {
      case '"' => r := "\\\"";
      case '\\' => r := "\\\\";
      case '\n' => r := "\\n";
      case '\r' => r := "\\r";
      case '\t' => r := "\\t";
      case _ =>
        if c == 8 as char {
          r := "\\b";
        } else if c == 12 as char {
          r := "\\f";
        } else if c < ' ' || c == 127 as char {
          r := "\\u00" + [HexChar(c as nat / 16), HexChar(c as nat % 16)];
        } else {
          r := [c];
        }
    }
  }

  /** Writes a string value as the inside of a literal, a byte at a time; read back, it is the
      same value. */
  method EscapeString(s: string) returns (r: string)
    requires 0 as char !in s
    ensures forall k :: Scan(r + (['"'] + k), []) == Some((s, k))
  {
    r := [];
    var i := 0;
    while i < |s|
      invariant i <= |s| && r == Texts(WrittenAll(s[..i]))
    {
      var e := EscapeByte(s[i]);
      assert s[..i + 1][..i] == s[..i];
      TextsOneMore(WrittenAll(s[..i]), Written(s[i]));
      r := r + e;
      i := i + 1;
    }
    assert s[..i] == s;
    forall k
      ensures Scan(r + (['"'] + k), []) == Some((s, k))
    {
      WrittenReadsBack(s, k);
    }
  }
}
