/** The numeral syntax the tokenizer accepts, `^(\d+(\.\d*)?|\.\d+)([eE][+-]?\d+)?`, and the
    value `Number(text)` gives a numeral of that syntax. */
module Numerals {
  import opened Chars
  import opened Outcomes
  import opened Seqs

  /** Length of the longest run of digits at the front of `s`. */
  function DigitRun(s: string): (n: nat)
    ensures n <= |s|
    ensures forall i :: 0 <= i < n ==> IsDigit(s[i])
    ensures n < |s| ==> !IsDigit(s[n])
  {
    if |s| > 0 && IsDigit(s[0]) then 1 + DigitRun(s[1..]) else 0
  }

  /** The three facts above determine the run. */
  lemma DigitRunIs(s: string, n: nat)
    requires n <= |s|
    requires forall i :: 0 <= i < n ==> IsDigit(s[i])
    requires n < |s| ==> !IsDigit(s[n])
    ensures DigitRun(s) == n
  {
  }

  /** Appending text that does not continue the run leaves it as it was. */
  lemma DigitRunAppend(u: string, rest: string)
    requires DigitRun(u) < |u| || |rest| == 0 || !IsDigit(rest[0])
    ensures DigitRun(u + rest) == DigitRun(u)
  {
    var d := DigitRun(u);
    assert forall i :: 0 <= i < d ==> (u + rest)[i] == u[i];
    DigitRunIs(u + rest, d);
  }

  /** Cutting the text after the run leaves it as it was. */
  lemma DigitRunPrefix(u: string, k: nat)
    requires DigitRun(u) <= k <= |u|
    ensures DigitRun(u[..k]) == DigitRun(u)
  {
    DigitRunIs(u[..k], DigitRun(u));
  }

  /** The characters a numeral is made of. */
  predicate IsNumeralChar(c: char) {
    IsDigit(c) || c == '.' || c == 'e' || c == 'E' || c == '+' || c == '-'
  }

  /** Length of the mantissa `\d+(\.\d*)?|\.\d+` at the front of `s`, 0 when there is none. */
  function MantissaLen(s: string): (n: nat)
    ensures DigitRun(s) <= n <= |s|
    ensures DigitRun(s) < n ==> s[DigitRun(s)] == '.'
    ensures n > 0 ==> IsDigit(s[0]) || s[0] == '.'
    ensures forall i :: 0 <= i < n ==> IsNumeralChar(s[i])
  {
    var d := DigitRun(s);
    if d > 0 then
      if d < |s| && s[d] == '.' then d + 1 + DigitRun(s[d + 1..]) else d
    else if 2 <= |s| && s[0] == '.' && IsDigit(s[1]) then 1 + DigitRun(s[1..])
    else 0
  }

  /** Length of the exponent `[eE][+-]?\d+` at the front of `s`, 0 when there is none. */
  function ExponentLen(s: string): (n: nat)
    ensures n <= |s|
    ensures n == 0 || (2 <= n && (s[0] == 'e' || s[0] == 'E'))
    ensures forall i :: 0 <= i < n ==> IsNumeralChar(s[i])
  {
    if |s| > 0 && (s[0] == 'e' || s[0] == 'E') then
      var j := if |s| > 1 && (s[1] == '+' || s[1] == '-') then 2 else 1;
      var k := DigitRun(s[j..]);
      if k > 0 then j + k else 0
    else 0
  }

  /** Length of the numeral the tokenizer's regular expression matches at the front of `s`,
      0 when it does not match. */
  function ScanNumber(s: string): (n: nat)
    ensures n <= |s|
    ensures n > 0 ==> IsDigit(s[0]) || s[0] == '.'
    ensures 0 < |s| && IsDigit(s[0]) ==> n > 0
    ensures forall i :: 0 <= i < n ==> IsNumeralChar(s[i])
  {
    var m := MantissaLen(s);
    if m == 0 then 0 else m + ExponentLen(s[m..])
  }

  function DigitValue(c: char): nat {
    if IsDigit(c) then c as int - '0' as int else 0
  }

  /** The natural number a run of decimal digits denotes. */
  function DigitsValue(s: string): nat {
    if |s| == 0 then 0 else DigitsValue(s[..|s| - 1]) * 10 + DigitValue(s[|s| - 1])
  }

  function Pow10(n: nat): (p: nat)
    ensures p > 0
  {
    if n == 0 then 1 else 10 * Pow10(n - 1)
  }

  /** 10 raised to an integer power, as a real. */
  function Scale(e: int): real {
    if e >= 0 then Pow10(e) as real else 1.0 / Pow10(-e) as real
  }

  /** The signed exponent of an exponent part `[eE][+-]?\d+`; 0 when there is none. */
  function ExponentValue(e: string): int {
    if ExponentLen(e) == 0 then 0
    else
      var j := if e[1] == '+' || e[1] == '-' then 2 else 1;
      var v: int := DigitsValue(e[j..ExponentLen(e)]);
      if e[1] == '-' then -v else v
  }

  /** The number with integer digits `whole` and fraction digits `frac`, times 10 to the
      power `e`. */
  function Decimal(whole: string, frac: string, e: int): real {
    (DigitsValue(whole) as real + DigitsValue(frac) as real / Pow10(|frac|) as real) * Scale(e)
  }

  /** The exact decimal value of a numeral. */
  function NumeralValue(t: string): real {
    var d := DigitRun(t);
    var m := MantissaLen(t);
    var frac := if d < m then t[d + 1..m] else "";
    Decimal(t[..d], frac, ExponentValue(t[m..]))
  }

  /** `Number(text)` on the texts the tokenizer can hand over: a numeral as a whole gives its
      value, anything else fails (the source throws 'Invalid number'). */
  function ParseNumeral(t: string): Option<real> {
    if 0 < |t| && ScanNumber(t) == |t| then Some(NumeralValue(t)) else None
  }

  /** The exponent part of a numeral, cut where it ends, is still that exponent part. */
  lemma ExponentPrefix(e: string)
    ensures ExponentLen(e[..ExponentLen(e)]) == ExponentLen(e)
  {
    var k := ExponentLen(e);
    if k > 0 {
      var j := if |e| > 1 && (e[1] == '+' || e[1] == '-') then 2 else 1;
      TakeThenDrop(e, j, k);
      DigitRunPrefix(e[j..], k - j);
    }
  }

  /** Cutting the text after the mantissa leaves the mantissa as it was. */
  lemma MantissaPrefix(s: string, k: nat)
    requires MantissaLen(s) <= k <= |s|
    ensures MantissaLen(s[..k]) == MantissaLen(s)
  {
    var t := s[..k];
    var d := DigitRun(s);
    DigitRunPrefix(s, k);
    if d > 0 {
      if d < |s| && s[d] == '.' {
        TakeThenDrop(s, d + 1, k);
        DigitRunPrefix(s[d + 1..], k - d - 1);
      }
    } else if 2 <= |s| && s[0] == '.' && IsDigit(s[1]) {
      TakeThenDrop(s, 1, k);
      DigitRunPrefix(s[1..], k - 1);
    }
  }

  /** The text a numeral match covers is itself a numeral as a whole: every `number` token the
      tokenizer produces parses. */
  lemma ScanPrefix(s: string)
    requires ScanNumber(s) > 0
    ensures ScanNumber(s[..ScanNumber(s)]) == ScanNumber(s)
    ensures ParseNumeral(s[..ScanNumber(s)]).Some?
  {
    var n := ScanNumber(s);
    var t := s[..n];
    var m := MantissaLen(s);
    MantissaPrefix(s, n);
    TakeThenDrop(s, m, n);
    ExponentPrefix(s[m..]);
  }

  /** Characters that could continue a numeral. */
  predicate ExtendsNumeral(c: char) {
    IsDigit(c) || c == '.' || c == 'e' || c == 'E'
  }

  lemma ExponentAppend(e: string, rest: string)
    requires ExponentLen(e) == |e|
    requires |rest| == 0 || !ExtendsNumeral(rest[0])
    ensures ExponentLen(e + rest) == |e|
  {
    if |e| > 0 {
      var j := if |e| > 1 && (e[1] == '+' || e[1] == '-') then 2 else 1;
      DropAppend(e, rest, j);
      DigitRunAppend(e[j..], rest);
    }
  }

  /** A mantissa that runs to the end of its text is not lengthened by a character that cannot
      continue a numeral. */
  lemma MantissaAppend(t: string, rest: string)
    requires 0 < MantissaLen(t)
    requires MantissaLen(t) < |t| || |rest| == 0 || !ExtendsNumeral(rest[0])
    ensures MantissaLen(t + rest) == MantissaLen(t)
  {
    if DigitRun(t) > 0 {
      DigitsMantissaAppend(t, rest);
    } else {
      DotMantissaAppend(t, rest);
    }
  }

  lemma DigitsMantissaAppend(t: string, rest: string)
    requires 0 < DigitRun(t)
    requires MantissaLen(t) < |t| || |rest| == 0 || !ExtendsNumeral(rest[0])
    ensures MantissaLen(t + rest) == MantissaLen(t)
  {
    var d := DigitRun(t);
    DigitRunAppend(t, rest);
    if d < |t| && t[d] == '.' {
      DropAppend(t, rest, d + 1);
      DigitRunAppend(t[d + 1..], rest);
    }
  }

  lemma DotMantissaAppend(t: string, rest: string)
    requires DigitRun(t) == 0 && 0 < MantissaLen(t)
    requires MantissaLen(t) < |t| || |rest| == 0 || !ExtendsNumeral(rest[0])
    ensures MantissaLen(t + rest) == MantissaLen(t)
  {
    DigitRunAppend(t, rest);
    DropAppend(t, rest, 1);
    DigitRunAppend(t[1..], rest);
  }

  /** A whole numeral followed by a character that cannot continue it is matched exactly. */
  lemma ScanExtend(t: string, rest: string)
    requires 0 < |t| && ScanNumber(t) == |t|
    requires |rest| == 0 || !ExtendsNumeral(rest[0])
    ensures ScanNumber(t + rest) == |t|
  {
    var s := t + rest;
    var m := MantissaLen(t);
    MantissaAppend(t, rest);
    DropAppend(t, rest, m);
    ExponentAppend(t[m..], rest);
  }

  /** Every character is a decimal digit. */
  predicate AllDigits(s: string) {
    forall i :: 0 <= i < |s| ==> IsDigit(s[i])
  }

  /** The parts of a numeral as the regular expression names them: the integer digits `a`,
      whether a point follows, the fraction digits `b`, the exponent marker `ex` ("", "e" or
      "E"), its sign ("", "+" or "-") and its digits `c`. Either the integer digits or the
      fraction digits are present, and an exponent has at least one digit. */
  predicate NumeralShape(a: string, dot: bool, b: string, ex: string, sign: string, c: string) {
    && AllDigits(a) && AllDigits(b) && AllDigits(c)
    && (if dot then 0 < |a| || 0 < |b| else 0 < |a| && b == "")
    && (if ex == "" then sign == "" && c == ""
        else (ex == "e" || ex == "E") && (sign == "" || sign == "+" || sign == "-") && 0 < |c|)
  }

  /** The text of a numeral from its parts. */
  function Assemble(a: string, dot: bool, b: string, ex: string, sign: string, c: string): string {
    Mantissa(a, dot, b) + (ex + sign + c)
  }

  /** The signed exponent an exponent sign and digits denote. */
  function SignedDigits(sign: string, c: string): int {
    if sign == "-" then -(DigitsValue(c) as int) else DigitsValue(c)
  }

  /** `r` starts with an exponent part `[eE][+-]?\d`. */
  predicate ExponentStart(r: string) {
    && 0 < |r| && (r[0] == 'e' || r[0] == 'E')
    && var k := if 1 < |r| && (r[1] == '+' || r[1] == '-') then 2 else 1;
      k < |r| && IsDigit(r[k])
  }

  /** What may follow a numeral without being read into it: no digit, no point after a
      mantissa that has none, and no exponent after a numeral that has none. */
  predicate EndsNumeral(dot: bool, ex: string, rest: string) {
    && (|rest| == 0 || !IsDigit(rest[0]))
    && (!dot && ex == "" && 0 < |rest| ==> rest[0] != '.')
    && (ex == "" ==> !ExponentStart(rest))
  }

  lemma DigitRunOf(u: string, rest: string)
    requires AllDigits(u)
    requires |rest| == 0 || !IsDigit(rest[0])
    ensures DigitRun(u + rest) == |u|
  {
    DigitRunIs(u + rest, |u|);
  }

  /** The mantissa text given by its parts. */
  function Mantissa(a: string, dot: bool, b: string): string {
    a + (if dot then "." else "") + b
  }

  /** How the scanner measures a mantissa given by its parts. */
  lemma MantissaOf(a: string, dot: bool, b: string, tail: string)
    requires AllDigits(a) && AllDigits(b)
    requires if dot then 0 < |a| || 0 < |b| else 0 < |a| && b == ""
    requires |tail| == 0 || (!IsDigit(tail[0]) && (!dot ==> tail[0] != '.'))
    ensures DigitRun(Mantissa(a, dot, b) + tail) == |a|
    ensures MantissaLen(Mantissa(a, dot, b) + tail) == |Mantissa(a, dot, b)|
  {
    if !dot {
      assert Mantissa(a, dot, b) == a;
      MantissaDigits(a, tail);
    } else if 0 < |a| {
      assert Mantissa(a, dot, b) == a + "." + b;
      MantissaPoint(a, b, tail);
    } else {
      assert Mantissa(a, dot, b) == "." + b;
      MantissaLeadingPoint(b, tail);
    }
  }

  lemma MantissaDigits(a: string, tail: string)
    requires AllDigits(a) && 0 < |a|
    requires |tail| == 0 || (!IsDigit(tail[0]) && tail[0] != '.')
    ensures DigitRun(a + tail) == |a| && MantissaLen(a + tail) == |a|
  {
    DigitRunOf(a, tail);
  }

  lemma MantissaPoint(a: string, b: string, tail: string)
    requires AllDigits(a) && 0 < |a| && AllDigits(b)
    requires |tail| == 0 || !IsDigit(tail[0])
    ensures DigitRun(a + "." + b + tail) == |a|
    ensures MantissaLen(a + "." + b + tail) == |a| + 1 + |b|
  {
    var s := a + "." + b + tail;
    PointParts(a, b, tail);
    DigitRunOf(a, "." + b + tail);
    DigitRunOf(b, tail);
    PointStep(s);
  }

  lemma PointParts(a: string, b: string, tail: string)
    ensures a + "." + b + tail == a + ("." + b + tail)
    ensures (a + "." + b + tail)[|a|] == '.'
    ensures (a + "." + b + tail)[|a| + 1..] == b + tail
  {
    var u := a + ".";
    assert a + "." + b + tail == u + (b + tail);
    DropAppend(u, b + tail, |u|);
  }

  /** After an integer part and a point, the mantissa runs on over the fraction digits. */
  lemma PointStep(s: string)
    requires 0 < DigitRun(s) < |s| && s[DigitRun(s)] == '.'
    ensures MantissaLen(s) == DigitRun(s) + 1 + DigitRun(s[DigitRun(s) + 1..])
  {
  }

  lemma MantissaLeadingPoint(b: string, tail: string)
    requires AllDigits(b) && 0 < |b|
    requires |tail| == 0 || !IsDigit(tail[0])
    ensures DigitRun("." + b + tail) == 0
    ensures MantissaLen("." + b + tail) == 1 + |b|
  {
    LeadingPointParts(b, tail);
    DigitRunOf(b, tail);
    LeadingPointStep("." + b + tail);
  }

  lemma LeadingPointParts(b: string, tail: string)
    requires 0 < |b|
    ensures 2 <= |"." + b + tail|
    ensures ("." + b + tail)[0] == '.' && ("." + b + tail)[1] == b[0]
    ensures ("." + b + tail)[1..] == b + tail
  {
    assert "." + b + tail == "." + (b + tail);
  }

  /** A point and a digit start a mantissa with no integer part. */
  lemma LeadingPointStep(s: string)
    requires 2 <= |s| && s[0] == '.' && IsDigit(s[1])
    ensures DigitRun(s) == 0 && MantissaLen(s) == 1 + DigitRun(s[1..])
  {
  }

  /** How the scanner measures an exponent part given by its parts. */
  lemma ExponentOf(ex: string, sign: string, c: string, rest: string)
    requires AllDigits(c)
    requires if ex == "" then sign == "" && c == ""
      else (ex == "e" || ex == "E") && (sign == "" || sign == "+" || sign == "-") && 0 < |c|
    requires |rest| == 0 || !IsDigit(rest[0])
    requires ex == "" ==> !ExponentStart(rest)
    ensures ExponentLen(ex + sign + c + rest) == |ex + sign + c|
  {
    var s := ex + sign + c + rest;
    if ex == "" {
      assert s == rest;
      if 0 < |rest| && (rest[0] == 'e' || rest[0] == 'E') {
        var k := if 1 < |rest| && (rest[1] == '+' || rest[1] == '-') then 2 else 1;
        DigitRunIs(rest[k..], 0);
      }
    } else {
      var j := 1 + |sign|;
      if sign == "" {
        assert s[1] == c[0];
      }
      assert s[j..] == c + rest;
      DigitRunOf(c, rest);
    }
  }

  lemma ExponentValueOf(ex: string, sign: string, c: string)
    requires AllDigits(c)
    requires if ex == "" then sign == "" && c == ""
      else (ex == "e" || ex == "E") && (sign == "" || sign == "+" || sign == "-") && 0 < |c|
    ensures ExponentValue(ex + sign + c) == SignedDigits(sign, c)
  {
    var x := ex + sign + c;
    ExponentOf(ex, sign, c, "");
    assert x + "" == x;
    if ex != "" {
      if sign == "" {
        assert x[1] == c[0];
      }
      assert x[1 + |sign|..|x|] == c;
    }
  }

  /** The regular expression read by its parts: a numeral of any shape, followed by text that
      cannot continue it, is matched exactly, and `Number` gives it the value of its parts. */
  lemma NumeralForm(a: string, dot: bool, b: string, ex: string, sign: string, c: string, rest: string)
    requires NumeralShape(a, dot, b, ex, sign, c)
    requires EndsNumeral(dot, ex, rest)
    ensures ScanNumber(Assemble(a, dot, b, ex, sign, c) + rest) == |Assemble(a, dot, b, ex, sign, c)|
    ensures ParseNumeral(Assemble(a, dot, b, ex, sign, c)) == Some(Decimal(a, b, SignedDigits(sign, c)))
  {
    var t := Assemble(a, dot, b, ex, sign, c);
    NumeralScan(a, dot, b, ex, sign, c, rest);
    NumeralScan(a, dot, b, ex, sign, c, "");
    assert t + "" == t;
    NumeralValueOf(a, dot, b, ex, sign, c);
  }

  lemma NumeralScan(a: string, dot: bool, b: string, ex: string, sign: string, c: string, rest: string)
    requires NumeralShape(a, dot, b, ex, sign, c)
    requires EndsNumeral(dot, ex, rest)
    ensures ScanNumber(Assemble(a, dot, b, ex, sign, c) + rest) == |Assemble(a, dot, b, ex, sign, c)|
  {
    var m := Mantissa(a, dot, b);
    var x := ex + sign + c;
    var s := Assemble(a, dot, b, ex, sign, c) + rest;
    assert s == m + (x + rest);
    MantissaOf(a, dot, b, x + rest);
    assert s[|m|..] == x + rest;
    ExponentOf(ex, sign, c, rest);
  }

  lemma NumeralValueOf(a: string, dot: bool, b: string, ex: string, sign: string, c: string)
    requires NumeralShape(a, dot, b, ex, sign, c)
    requires ScanNumber(Assemble(a, dot, b, ex, sign, c)) == |Assemble(a, dot, b, ex, sign, c)|
    ensures NumeralValue(Assemble(a, dot, b, ex, sign, c)) == Decimal(a, b, SignedDigits(sign, c))
  {
    var m := Mantissa(a, dot, b);
    var x := ex + sign + c;
    var t := Assemble(a, dot, b, ex, sign, c);
    MantissaOf(a, dot, b, x);
    assert t[..|a|] == a;
    assert t[|m|..] == x;
    if dot {
      assert t[|a| + 1..|m|] == b;
    } else {
      assert b == "";
    }
    ExponentValueOf(ex, sign, c);
    ValueParts(t, |a|, |m|, a, b, x);
  }

  /** The value of a numeral in terms of its integer digits, fraction digits and exponent
      part. */
  lemma ValueParts(t: string, d: nat, m: nat, a: string, b: string, x: string)
    requires DigitRun(t) == d && MantissaLen(t) == m
    requires t[..d] == a && t[m..] == x
    requires b == if d < m then t[d + 1..m] else ""
    ensures NumeralValue(t) == Decimal(a, b, ExponentValue(x))
  {
  }

  /** Conversely, every match of the regular expression has a numeral's shape. */
  lemma ScanShape(s: string) returns (a: string, dot: bool, b: string, ex: string, sign: string, c: string)
    requires ScanNumber(s) > 0
    ensures NumeralShape(a, dot, b, ex, sign, c)
    ensures s[..ScanNumber(s)] == Assemble(a, dot, b, ex, sign, c)
  {
    var m := MantissaLen(s);
    var n := ScanNumber(s);
    a, dot, b := MantissaShape(s);
    var e := s[m..];
    var k := ExponentLen(e);
    if k == 0 {
      ex, sign, c := "", "", "";
    } else {
      ex, sign, c := ExponentShape(e);
    }
    JoinAt(s, m, n);
  }

  lemma JoinAt(s: string, m: nat, n: nat)
    requires m <= n <= |s|
    ensures s[..n] == s[..m] + s[m..][..n - m]
  {
  }

  /** The mantissa a match starts with has a mantissa's shape. */
  lemma MantissaShape(s: string) returns (a: string, dot: bool, b: string)
    requires MantissaLen(s) > 0
    ensures AllDigits(a) && AllDigits(b)
    ensures if dot then 0 < |a| || 0 < |b| else 0 < |a| && b == ""
    ensures s[..MantissaLen(s)] == Mantissa(a, dot, b)
  {
    var d := DigitRun(s);
    var m := MantissaLen(s);
    a := s[..d];
    dot := d < m;
    if dot {
      var r := DigitRun(s[d + 1..]);
      b := s[d + 1..][..r];
      if d == 0 {
        assert s[d + 1..][0] == s[1];
      }
      assert s[..m] == s[..d] + [s[d]] + s[d + 1..][..r];
    } else {
      b := "";
      assert s[..m] == a;
    }
  }

  /** The exponent part a match ends with has an exponent part's shape. */
  lemma ExponentShape(e: string) returns (ex: string, sign: string, c: string)
    requires ExponentLen(e) > 0
    ensures AllDigits(c)
    ensures (ex == "e" || ex == "E") && (sign == "" || sign == "+" || sign == "-") && 0 < |c|
    ensures e[..ExponentLen(e)] == ex + sign + c
  {
    var k := ExponentLen(e);
    var j := if e[1] == '+' || e[1] == '-' then 2 else 1;
    ex := e[..1];
    sign := e[1..j];
    c := e[j..][..k - j];
    assert e[..k] == e[..1] + e[1..j] + e[j..][..k - j];
  }

  function DigitChar(d: nat): char
    requires d < 10
  {
    ('0' as int + d) as char
  }

  /** The decimal digits of a natural number, without leading zeros. */
  function NatText(n: nat): (r: string)
    ensures 0 < |r|
    ensures forall i :: 0 <= i < |r| ==> IsDigit(r[i])
  {
    if n < 10 then [DigitChar(n)] else NatText(n / 10) + [DigitChar(n % 10)]
  }

  lemma {:induction false} NatTextValue(n: nat)
    ensures DigitsValue(NatText(n)) == n
  {
    if n >= 10 {
      var t := NatText(n);
      assert t[..|t| - 1] == NatText(n / 10);
      NatTextValue(n / 10);
    }
  }

  /** Reading the decimal text of a natural number gives the number back. */
  lemma ParseNatText(n: nat)
    ensures ParseNumeral(NatText(n)) == Some(n as real)
  {
    var t := NatText(n);
    DigitRunIs(t, |t|);
    assert MantissaLen(t) == |t|;
    assert t[|t|..] == [];
    assert t[..|t|] == t;
    NatTextValue(n);
  }
}
