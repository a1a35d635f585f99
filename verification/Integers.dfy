/** Integers as text: how the elements of integer vectors are printed and read back. */
module Integers {
  import opened Options
  import opened JsonSyntax

  const TWO_64 := 18446744073709551616

  datatype IntType = Sint8 | Sint16 | Sint32 | Sint64 | Uint8 | Uint16 | Uint32 | Uint64

  function Max(t: IntType): int {
    match t
    case Sint8 => 127
    case Sint16 => 32767
    case Sint32 => 2147483647
    case Sint64 => 9223372036854775807
    case Uint8 => 255
    case Uint16 => 65535
    case Uint32 => 4294967295
    case Uint64 => 18446744073709551615
  }

  predicate IsSigned(t: IntType) { t.Sint8? || t.Sint16? || t.Sint32? || t.Sint64? }

  function Min(t: IntType): int {
    if IsSigned(t) then -Max(t) - 1 else 0
  }

  predicate InRange(t: IntType, v: int) { Min(t) <= v <= Max(t) }

  // ---- The limits -------------------------------------------------------------------

  function Two(k: nat): int {
    if k == 0 then 1 else 2 * Two(k - 1)
  }

  lemma {:induction false} TwoSum(a: nat, b: nat)
    ensures Two(a + b) == Two(a) * Two(b)
  {
    if a > 0 {
      TwoSum(a - 1, b);
    }
  }

  lemma Powers()
    ensures Two(8) == 256 && Two(16) == 65536 && Two(32) == 4294967296 && Two(64) == TWO_64
    ensures Two(7) == 128 && Two(15) == 32768 && Two(31) == 2147483648 && Two(63) == 9223372036854775808
  {
    assert Two(4) == 16;
    TwoSum(4, 4);
    TwoSum(8, 8);
    TwoSum(16, 16);
    TwoSum(32, 32);
  }

  /** The values of a type are those of its width, in two's complement if it is signed. */
  predicate IsValueOf(t: IntType, v: int) {
    match t
    case Sint8 => -Two(7) <= v < Two(7)
    case Sint16 => -Two(15) <= v < Two(15)
    case Sint32 => -Two(31) <= v < Two(31)
    case Sint64 => -Two(63) <= v < Two(63)
    case Uint8 => 0 <= v < Two(8)
    case Uint16 => 0 <= v < Two(16)
    case Uint32 => 0 <= v < Two(32)
    case Uint64 => 0 <= v < Two(64)
  }

  lemma RangeIsWidth(t: IntType, v: int)
    ensures InRange(t, v) <==> IsValueOf(t, v)
  {
    Powers();
  }

  // ---- Printing ---------------------------------------------------------------------

  function DigitChar(d: nat): char
    requires d < 10
  {
    ('0' as nat + d) as char
  }

  function Digits(n: nat): string {
    if n < 10 then [DigitChar(n)] else Digits(n / 10) + [DigitChar(n % 10)]
  }

  function Decimal(v: int): string {
    if v < 0 then ['-'] + Digits(-v) else Digits(v)
  }

  // ---- Reading ----------------------------------------------------------------------

  predicate IsDigit(c: char) { '0' <= c <= '9' }

  predicate AllDigits(s: string) {
    s != [] ==> IsDigit(s[|s| - 1]) && AllDigits(s[..|s| - 1])
  }

  function ValueOf(s: string): nat
    requires AllDigits(s)
  {
    if s == [] then 0 else ValueOf(s[..|s| - 1]) * 10 + (s[|s| - 1] as nat - '0' as nat)
  }

  /** The C library's conversions stay within 64 bits: the signed one stops at its limits, and the
      unsigned one takes a minus sign as negation modulo 2^64. */
  function Convert(t: IntType, negative: bool, magnitude: int): int {
    if IsSigned(t) then
      if negative then (if magnitude > 9223372036854775808 then -9223372036854775808 else -magnitude)
      else if magnitude > 9223372036854775807 then 9223372036854775807 else magnitude
    else
      if magnitude > 18446744073709551615 then 18446744073709551615
      else if negative && magnitude > 0 then 18446744073709551616 - magnitude else magnitude
  }

  /** The value of a conversion that reports success. It need not be what the text says, as nothing
      asks the C library whether it had to stop at a limit. Number text that is not an integer is
      read through floating point, which never reports success. */
  function FromText(t: IntType, text: string): Option<int> {
    var negative := text != [] && text[0] == '-';
    var digits := if negative then text[1..] else text;
    if digits == [] || !AllDigits(digits) then None
    else
      var v := Convert(t, negative, ValueOf(digits));
      if InRange(t, v) then Some(v) else None
  }

  /** What a conversion reports; a truncated value is handed out too. */
  datatype Conversion = Passed(value: int) | Truncated(value: int) | Failed

  /** A floating-point number brought to an unsigned type. For the signed ones the conversion skips
      this step and hands out the zero of an empty result. */
  function FromReal(t: IntType, x: real): int {
    if IsSigned(t) || x < 0.0 then 0
    else
      var rounded := (x + 0.5).Floor;
      if rounded > Max(t) then Max(t) else rounded
  }

  /** The conversion in full. What the C library reads as floating point is an input. */
  function Read(t: IntType, text: string, floating: string -> Option<real>): (c: Conversion)
    ensures c.Passed? <==> FromText(t, text).Some?
    ensures c.Passed? ==> FromText(t, text) == Some(c.value)
    ensures !c.Failed? ==> InRange(t, c.value)
  {
    var negative := text != [] && text[0] == '-';
    var digits := if negative then text[1..] else text;
    if digits == [] || !AllDigits(digits) then
      match floating(text)
      case None => Failed
      case Some(x) => Truncated(FromReal(t, x))
    else
      var v := Convert(t, negative, ValueOf(digits));
      if v < Min(t) then Truncated(Min(t)) else if v > Max(t) then Truncated(Max(t)) else Passed(v)
  }

  // ---- What the text says against what is handed out ------------------------------------

  /** The integer a text denotes, if it is one. */
  function IntegerOf(text: string): Option<int> {
    if text != [] && text[0] == '-' then
      if text[1..] != [] && AllDigits(text[1..]) then Some(-(ValueOf(text[1..]) as int)) else None
    else if text != [] && AllDigits(text) then Some(ValueOf(text))
    else None
  }

  /** An integer outside the type that the conversion reports as a success: any one for the types of
      64 bits, and for the smaller unsigned types those that wrap around into them. */
  predicate Unnoticed(t: IntType, v: int) {
    && !InRange(t, v)
    && (t.Sint64? || t.Uint64? || (!IsSigned(t) && -TWO_64 < v <= Max(t) - TWO_64))
  }

  /** What is handed out for such an integer, */
  function PassedFor(t: IntType, v: int): int {
    if IsSigned(t) then (if v < 0 then Min(t) else Max(t))
    else if -TWO_64 < v < 0 then v + TWO_64
    else Max(t)
  }

  /** and for one that is noticed: a negative one becomes the largest value of an unsigned type. */
  function TruncatedFor(t: IntType, v: int): int {
    if IsSigned(t) && v < 0 then Min(t) else Max(t)
  }

  predicate IsPassed(t: IntType, text: string) {
    IntegerOf(text).Some? && (InRange(t, IntegerOf(text).value) || Unnoticed(t, IntegerOf(text).value))
  }

  /** The text denotes a value of the type. */
  predicate Fits(t: IntType, text: string) {
    IntegerOf(text).Some? && InRange(t, IntegerOf(text).value)
  }

  /** The conversion of every integer, in terms of what it denotes. */
  lemma ReadsInteger(t: IntType, text: string, floating: string -> Option<real>)
    requires IntegerOf(text).Some?
    ensures var v := IntegerOf(text).value;
            Read(t, text, floating) == if InRange(t, v) then Passed(v)
                                       else if Unnoticed(t, v) then Passed(PassedFor(t, v))
                                       else Truncated(TruncatedFor(t, v))
  {
  }

  /** Success is reported exactly for the integers of the type and those that go unnoticed, */
  lemma PassedExactly(t: IntType, text: string)
    ensures FromText(t, text).Some? <==> IsPassed(t, text)
    ensures IsPassed(t, text) ==>
              var v := IntegerOf(text).value;
              FromText(t, text) == Some(if InRange(t, v) then v else PassedFor(t, v))
  {
    if IntegerOf(text).Some? {
      ReadsInteger(t, text, _ => None);
    }
  }

  /** and what is handed out is the integer that the text denotes exactly when that fits the type. */
  lemma KeptExactly(t: IntType, text: string, floating: string -> Option<real>)
    ensures var c := Read(t, text, floating);
            !c.Failed? && IntegerOf(text) == Some(c.value) <==> Fits(t, text)
  {
    if IntegerOf(text).Some? {
      ReadsInteger(t, text, floating);
    }
  }

  /** The nearest integer, the larger one of two, if the type has it. */
  ghost predicate RoundedInto(t: IntType, x: real, r: int) {
    && InRange(t, r)
    && (0.0 <= x < Max(t) as real + 0.5 ==> r as real - 0.5 <= x < r as real + 0.5)
    && (x < 0.0 ==> r == 0)
    && (Max(t) as real + 0.5 <= x ==> r == Max(t))
  }

  /** The conversion of everything else: what is no number at all fails, and what is not an integer is
      rounded for an unsigned type and replaced by zero for a signed one. */
  lemma ReadsFraction(t: IntType, text: string, floating: string -> Option<real>)
    requires IntegerOf(text).None?
    ensures floating(text).None? ==> Read(t, text, floating) == Failed
    ensures floating(text).Some? ==>
              var c := Read(t, text, floating);
              && c.Truncated?
              && (if IsSigned(t) then c.value == 0 else RoundedInto(t, floating(text).value, c.value))
  {
    match floating(text)
    case None =>
    case Some(x) =>
      var r := (x + 0.5).Floor;
      assert r as real <= x + 0.5 < r as real + 1.0;
  }

  /** Any number too large for 64 bits is read as the largest signed one, with success. */
  lemma LargeNumbersPass(n: nat, floating: string -> Option<real>)
    requires n > Max(Sint64)
    ensures Read(Sint64, Digits(n), floating) == Passed(Max(Sint64)) && IntegerOf(Digits(n)) == Some(n)
  {
    DigitsRead(n);
    Signless(n);
    ReadsInteger(Sint64, Digits(n), floating);
  }

  /** Minus five as an unsigned number: of 64 bits a success, of eight the wrong limit. */
  lemma MinusFive(floating: string -> Option<real>)
    ensures Read(Uint64, "-5", floating) == Passed(18446744073709551611)
    ensures Read(Uint8, "-5", floating) == Truncated(255)
  {
    var s: string := "-5"[1..];
    assert s == "5" && s[..0] == [] && AllDigits(s[..0]) && ValueOf(s[..0]) == 0;
    assert AllDigits(s) && ValueOf(s) == 5;
    assert IntegerOf("-5") == Some(-5);
    ReadsInteger(Uint64, "-5", floating);
    ReadsInteger(Uint8, "-5", floating);
  }

  // ---- Round trip -------------------------------------------------------------------

  lemma {:induction false} DigitsRead(n: nat)
    ensures Digits(n) != [] && AllDigits(Digits(n)) && ValueOf(Digits(n)) == n
    ensures IsDigit(Digits(n)[0])
  {
    var s := Digits(n);
    if n < 10 {
      assert s[..0] == [];
      assert AllDigits(s[..0]) && ValueOf(s[..0]) == 0;
    } else {
      DigitsRead(n / 10);
      assert s[..|s| - 1] == Digits(n / 10);
    }
  }

  lemma ConvertExact(t: IntType, v: int)
    requires InRange(t, v)
    ensures Convert(t, v < 0, if v < 0 then -v else v) == v
  {
  }

  lemma Signless(n: nat)
    ensures Digits(n)[0] != '-'
  {
    DigitsRead(n);
  }

  function Noughts(k: nat): string {
    if k == 0 then [] else "0" + Noughts(k - 1)
  }

  /** One more digit of a number that is not zero. */
  lemma AppendDigit(v: nat, d: nat)
    requires v > 0 && d < 10
    ensures Digits(v * 10 + d) == Digits(v) + [DigitChar(d)]
  {
    assert (v * 10 + d) / 10 == v && (v * 10 + d) % 10 == d;
  }

  lemma OneMoreDigit(k: nat, v: nat, d: nat) returns (k': nat)
    requires d < 10
    ensures Noughts(k) + Digits(v) + [DigitChar(d)] == Noughts(k') + Digits(v * 10 + d)
  {
    if v > 0 {
      k' := k;
      AppendDigit(v, d);
      assert Noughts(k) + Digits(v) + [DigitChar(d)] == Noughts(k) + (Digits(v) + [DigitChar(d)]);
    } else {
      k' := k + 1;
      OneMoreNought(k);
      assert Digits(0) == "0" && Digits(d) == [DigitChar(d)];
    }
  }

  /** Text of digits is a printed number, with noughts in front. */
  lemma {:induction false} DigitsArePrinted(s: string) returns (k: nat)
    requires AllDigits(s) && s != []
    ensures s == Noughts(k) + Digits(ValueOf(s))
    decreases |s|
  {
    var init, d := LastDigit(s);
    if init == [] {
      k := 0;
      assert Noughts(0) + Digits(d) == [DigitChar(d)];
    } else {
      k := DigitsArePrinted(init);
      k := OneMoreDigit(k, ValueOf(init), d);
    }
  }

  lemma LastDigit(s: string) returns (init: string, d: nat)
    requires AllDigits(s) && s != []
    ensures d < 10 && AllDigits(init) && |init| < |s|
    ensures s == init + [DigitChar(d)] && ValueOf(s) == ValueOf(init) * 10 + d
  {
    init, d := s[..|s| - 1], s[|s| - 1] as nat - '0' as nat;
  }

  lemma {:induction false} OneMoreNought(k: nat)
    ensures Noughts(k) + "0" == Noughts(k + 1)
  {
    if k > 0 {
      OneMoreNought(k - 1);
    }
  }

  /** An integer as it may be written: printed, with noughts in front of its digits. */
  predicate Writes(text: string, k: nat, v: int) {
    || (0 <= v && text == Noughts(k) + Digits(v))
    || (v <= 0 && text == "-" + Noughts(k) + Digits(-v))
  }

  lemma {:induction false} NoughtsRead(k: nat, n: nat)
    ensures var s := Noughts(k) + Digits(n);
            s != [] && AllDigits(s) && ValueOf(s) == n && s[0] != '-'
  {
    if k == 0 {
      DigitsRead(n);
      assert Noughts(0) + Digits(n) == Digits(n);
    } else {
      NoughtsRead(k - 1, n);
      NoughtBefore(Noughts(k - 1) + Digits(n));
      FirstNought(k, Digits(n));
    }
  }

  lemma FirstNought(k: nat, s: string)
    requires k > 0
    ensures Noughts(k) + s == "0" + (Noughts(k - 1) + s)
  {
    assert Noughts(k) == "0" + Noughts(k - 1);
  }

  lemma {:induction false} NoughtBefore(s: string)
    requires AllDigits(s)
    ensures AllDigits("0" + s) && ValueOf("0" + s) == ValueOf(s)
  {
    var z := "0" + s;
    if s == [] {
      assert z[..0] == [];
      assert AllDigits(z[..0]) && ValueOf(z[..0]) == 0;
    } else {
      NoughtBefore(s[..|s| - 1]);
      assert z[..|s|] == "0" + s[..|s| - 1];
    }
  }

  lemma AfterMinus(text: string, k: nat, n: nat)
    ensures text == "-" + Noughts(k) + Digits(n)
       <==> text != [] && text[0] == '-' && text[1..] == Noughts(k) + Digits(n)
  {
    var rest := Noughts(k) + Digits(n);
    assert "-" + Noughts(k) + Digits(n) == ['-'] + rest;
    assert (['-'] + rest)[1..] == rest;
    if text != [] {
      assert text == [text[0]] + text[1..];
    }
  }

  lemma DenotedIsWritten(text: string) returns (k: nat)
    requires IntegerOf(text).Some?
    ensures Writes(text, k, IntegerOf(text).value)
  {
    if text[0] == '-' {
      k := DigitsArePrinted(text[1..]);
      AfterMinus(text, k, ValueOf(text[1..]));
    } else {
      k := DigitsArePrinted(text);
    }
  }

  lemma WrittenIsDenoted(text: string, k: nat, v: int)
    requires Writes(text, k, v)
    ensures IntegerOf(text) == Some(v)
  {
    if 0 <= v && text == Noughts(k) + Digits(v) {
      NoughtsRead(k, v);
    } else {
      NoughtsRead(k, -v);
      AfterMinus(text, k, -v);
    }
  }

  /** The texts that denote integers, and what they denote. */
  lemma IntegerTexts(text: string, v: int)
    ensures IntegerOf(text) == Some(v) <==> exists k :: Writes(text, k, v)
  {
    if IntegerOf(text) == Some(v) {
      var k := DenotedIsWritten(text);
    }
    if k :| Writes(text, k, v) {
      WrittenIsDenoted(text, k, v);
    }
  }

  /** The limits of the types of eight bits, as printed. */
  lemma SmallLimits()
    ensures Decimal(Max(Uint8)) == "255" && Decimal(Min(Sint8)) == "-128" && Decimal(Max(Sint8)) == "127"
  {
    assert Digits(2) == "2" && Digits(1) == "1";
    assert Digits(25) == "25" && Digits(12) == "12";
    assert Digits(255) == "255" && Digits(127) == "127" && Digits(128) == "128";
  }

  lemma DecimalDenotes(v: int)
    ensures IntegerOf(Decimal(v)) == Some(v)
  {
    var n := if v < 0 then -v else v;
    DigitsRead(n);
    Signless(n);
    if v < 0 {
      assert Decimal(v)[1..] == Digits(n);
    }
  }

  /** Every value of a type is read back as printed. */
  lemma DecimalRead(t: IntType, v: int)
    requires InRange(t, v)
    ensures FromText(t, Decimal(v)) == Some(v)
  {
    var n := if v < 0 then -v else v;
    ConvertExact(t, v);
    DigitsRead(n);
    Signless(n);
    if v < 0 {
      assert Decimal(v)[1..] == Digits(n);
    }
  }

  function Ten(k: nat): nat {
    if k == 0 then 1 else 10 * Ten(k - 1)
  }

  lemma {:induction false} DigitsLength(n: nat, k: nat)
    requires n < Ten(k) && k >= 1
    ensures |Digits(n)| <= k
  {
    if n >= 10 {
      assert k >= 2 && n / 10 < Ten(k - 1);
      DigitsLength(n / 10, k - 1);
    }
  }

  lemma TwentyDigits()
    ensures Ten(20) == 100000000000000000000
  {
    assert Ten(1) == 10;
    assert Ten(2) == 100;
    assert Ten(3) == 1000;
    assert Ten(4) == 10000;
    assert Ten(5) == 100000;
    assert Ten(6) == 1000000;
    assert Ten(7) == 10000000;
    assert Ten(8) == 100000000;
    assert Ten(9) == 1000000000;
    assert Ten(10) == 10000000000;
    assert Ten(11) == 100000000000;
    assert Ten(12) == 1000000000000;
    assert Ten(13) == 10000000000000;
    assert Ten(14) == 100000000000000;
    assert Ten(15) == 1000000000000000;
    assert Ten(16) == 10000000000000000;
    assert Ten(17) == 100000000000000000;
    assert Ten(18) == 1000000000000000000;
    assert Ten(19) == 10000000000000000000;
  }

  lemma {:induction false} DigitsInNumber(n: nat, k: string)
    requires AllInNumber(k)
    ensures AllInNumber(Digits(n) + k)
    decreases n
  {
    if n < 10 {
      assert (Digits(n) + k)[1..] == k;
    } else {
      assert ([DigitChar(n % 10)] + k)[1..] == k;
      DigitsInNumber(n / 10, [DigitChar(n % 10)] + k);
      assert Digits(n / 10) + ([DigitChar(n % 10)] + k) == Digits(n) + k;
    }
  }

  lemma TailInNumber(s: string)
    requires AllInNumber(s) && s != []
    ensures AllInNumber(s[1..])
  {
  }

  /** A printed integer is a number in JSON's sense and fits the reader's buffer. */
  lemma DecimalIsNumber(t: IntType, v: int)
    requires InRange(t, v)
    ensures WellFormed(Num(Decimal(v))) && |Decimal(v)| <= 21
  {
    var n := if v < 0 then -v else v;
    DigitsRead(n);
    DigitsInNumber(n, []);
    assert Digits(n) + [] == Digits(n);
    TwentyDigits();
    DigitsLength(n, 20);
    TailInNumber(Digits(n));
    if v < 0 {
      assert Decimal(v)[1..] == Digits(n);
    }
  }
}
