/** Worked inputs: what the calculator makes of a few typed expressions. */
module Examples {
  import opened Outcomes
  import opened Numerals
  import opened Numbers
  import opened Tokens
  import opened Tokenizer
  import opened Parser
  import opened ParserFacts
  import opened Evaluator
  import opened Grammar
  import opened Calculation

  lemma Digit(d: char, v: real)
    requires '0' <= d <= '9' && v == (d as int - '0' as int) as real
    ensures ParseNumeral([d]) == Some(v)
  {
    assert DigitRun([d]) == 1 by { DigitRunIs([d], 1); }
    assert [d][..1] == [d] && [d][1..] == [];
    assert DigitsValue([d][..0]) == 0;
  }

  /** The text of tokens that each spell one character. */
  lemma {:induction false} SpellChars(ts: seq<Token>, s: string)
    requires |ts| == |s| && forall i :: 0 <= i < |ts| ==> Render(ts[i]) == [s[i]]
    ensures RenderAll(ts) == s
    decreases |ts|
  {
    if |ts| > 0 {
      SpellChars(ts[1..], s[1..]);
    }
  }

  /** A typed expression calculates to the value of a tree it spells. */
  lemma Spells(env: Env, e: Expr, s: string, v: Num)
    requires Fits(e) && Leaves(e) && RenderAll(Print(e)) == s && Value(env, e) == v
    ensures Calculate(env, s) == if v.Finite? then Ok(v) else Err(NotFinite)
  {
    CalculatesValue(env, e);
  }

  /** The tree of 2+3*4: the product is the right operand of the sum. */
  lemma PrecedenceText()
    ensures var e := Bin('+', Lit("2"), Bin('*', Lit("3"), Lit("4")));
      Fits(e) && RenderAll(Print(e)) == "2+3*4"
  {
    var e := Bin('+', Lit("2"), Bin('*', Lit("3"), Lit("4")));
    assert Print(e) == [Number("2"), Op('+'), Number("3"), Op('*'), Number("4")];
    SpellChars(Print(e), "2+3*4");
  }

  lemma PrecedenceValue(env: Env)
    ensures var e := Bin('+', Lit("2"), Bin('*', Lit("3"), Lit("4")));
      Leaves(e) && Value(env, e) == Finite(14.0)
  {
    var e := Bin('+', Lit("2"), Bin('*', Lit("3"), Lit("4")));
    Digit('2', 2.0);
    Digit('3', 3.0);
    Digit('4', 4.0);
    assert Value(env, e.r) == Finite(12.0);
  }

  /** Multiplication binds tighter than addition: 2+3*4 is 14. */
  lemma Precedence(env: Env)
    ensures Calculate(env, "2+3*4") == Ok(Finite(14.0))
  {
    PrecedenceText();
    PrecedenceValue(env);
    Spells(env, Bin('+', Lit("2"), Bin('*', Lit("3"), Lit("4"))), "2+3*4", Finite(14.0));
  }

  /** 8-3-2: subtraction groups to the left. */
  lemma LeftAssociativeText()
    ensures var e := Bin('-', Bin('-', Lit("8"), Lit("3")), Lit("2"));
      Fits(e) && RenderAll(Print(e)) == "8-3-2"
  {
    var e := Bin('-', Bin('-', Lit("8"), Lit("3")), Lit("2"));
    assert Print(e) == [Number("8"), Op('-'), Number("3"), Op('-'), Number("2")];
    SpellChars(Print(e), "8-3-2");
  }

  lemma LeftAssociativeValue(env: Env)
    ensures var e := Bin('-', Bin('-', Lit("8"), Lit("3")), Lit("2"));
      Leaves(e) && Value(env, e) == Finite(3.0)
  {
    var e := Bin('-', Bin('-', Lit("8"), Lit("3")), Lit("2"));
    Digit('8', 8.0);
    Digit('3', 3.0);
    Digit('2', 2.0);
    assert Value(env, e.l) == Finite(5.0);
  }

  /** 8-3-2 is 3, not 7. */
  lemma LeftAssociative(env: Env)
    ensures Calculate(env, "8-3-2") == Ok(Finite(3.0))
  {
    LeftAssociativeText();
    LeftAssociativeValue(env);
    Spells(env, Bin('-', Bin('-', Lit("8"), Lit("3")), Lit("2")), "8-3-2", Finite(3.0));
  }

  /** 2^3^2: the power groups to the right. */
  lemma RightAssociativeText()
    ensures var e := Bin('^', Lit("2"), Bin('^', Lit("3"), Lit("2")));
      Fits(e) && RenderAll(Print(e)) == "2^3^2"
  {
    var e := Bin('^', Lit("2"), Bin('^', Lit("3"), Lit("2")));
    assert Print(e) == [Number("2"), Op('^'), Number("3"), Op('^'), Number("2")];
    SpellChars(Print(e), "2^3^2");
  }

  lemma RightAssociativeValue(env: Env)
    requires PowLaw(env.rt)
    ensures var e := Bin('^', Lit("2"), Bin('^', Lit("3"), Lit("2")));
      Leaves(e) && Value(env, e) == Finite(512.0)
  {
    var e := Bin('^', Lit("2"), Bin('^', Lit("3"), Lit("2")));
    Digit('3', 3.0);
    Digit('2', 2.0);
    PowNatural(env.rt, 3.0, 2);
    assert Value(env, e.r) == Finite(9.0);
    PowNatural(env.rt, 2.0, 9);
    assert NatPow(2.0, 9) == 512.0 by {
      assert NatPow(2.0, 3) == 8.0;
      assert NatPow(2.0, 6) == 8.0 * NatPow(2.0, 3) by { NatPowShift(2.0, 3, 3); }
      assert NatPow(2.0, 9) == 8.0 * NatPow(2.0, 6) by { NatPowShift(2.0, 3, 6); }
    }
  }

  lemma {:induction false} NatPowShift(a: real, m: nat, n: nat)
    ensures NatPow(a, m + n) == NatPow(a, m) * NatPow(a, n)
    decreases m
  {
    if m > 0 {
      NatPowShift(a, m - 1, n);
    }
  }

  /** 2^3^2 is 2^9 = 512 when `Math.pow` is exact on natural exponents. */
  lemma RightAssociative(env: Env)
    requires PowLaw(env.rt)
    ensures Calculate(env, "2^3^2") == Ok(Finite(512.0))
  {
    RightAssociativeText();
    RightAssociativeValue(env);
    Spells(env, Bin('^', Lit("2"), Bin('^', Lit("3"), Lit("2"))), "2^3^2", Finite(512.0));
  }

  /** (2+3)*4: parentheses override precedence. */
  lemma GroupingText()
    ensures var e := Bin('*', Group(Bin('+', Lit("2"), Lit("3"))), Lit("4"));
      Fits(e) && RenderAll(Print(e)) == "(2+3)*4"
  {
    var e := Bin('*', Group(Bin('+', Lit("2"), Lit("3"))), Lit("4"));
    assert Print(e) == [Paren('('), Number("2"), Op('+'), Number("3"), Paren(')'), Op('*'), Number("4")];
    SpellChars(Print(e), "(2+3)*4");
  }

  lemma GroupingValue(env: Env)
    ensures var e := Bin('*', Group(Bin('+', Lit("2"), Lit("3"))), Lit("4"));
      Leaves(e) && Value(env, e) == Finite(20.0)
  {
    var e := Bin('*', Group(Bin('+', Lit("2"), Lit("3"))), Lit("4"));
    Digit('2', 2.0);
    Digit('3', 3.0);
    Digit('4', 4.0);
    assert Value(env, e.l.e) == Finite(5.0);
    assert Value(env, e.l) == Finite(5.0);
  }

  /** (2+3)*4 is 20. */
  lemma Grouping(env: Env)
    ensures Calculate(env, "(2+3)*4") == Ok(Finite(20.0))
  {
    GroupingText();
    GroupingValue(env);
    Spells(env, Bin('*', Group(Bin('+', Lit("2"), Lit("3"))), Lit("4")), "(2+3)*4", Finite(20.0));
  }

  /** A ')' without its '(' closes everything typed before it: 2+3)*4 is read as (2+3)*4,
      which is 20, not 14. */
  lemma StrayClose(env: Env)
    ensures Calculate(env, "2+3)*4") == Ok(Finite(20.0))
  {
    StrayCloseText();
    StrayClosePostfix();
    StrayCloseValue(env);
    Computes(env, "2+3)*4", [Number("2"), Op('+'), Number("3"), Paren(')'), Op('*'), Number("4")],
      [Number("2"), Number("3"), Op('+'), Number("4"), Op('*')], Finite(20.0));
  }

  /** Text whose tokens parse to postfix that evaluates to a finite value calculates to it. */
  lemma Computes(env: Env, s: string, ts: seq<Token>, post: seq<Token>, v: Num)
    requires !Chars.Blank(s) && Tokenize(Normalize(s)) == ts && ToPostfix(ts) == post
    requires Eval(env, post) == Ok(v) && v.Finite?
    ensures Calculate(env, s) == Ok(v)
  {
  }

  /** The postfix 2 3 + 4 * is that of (2+3)*4, which is 20. */
  lemma StrayCloseValue(env: Env)
    ensures Eval(env, [Number("2"), Number("3"), Op('+'), Number("4"), Op('*')]) == Ok(Finite(20.0))
  {
    var e := Bin('*', Group(Bin('+', Lit("2"), Lit("3"))), Lit("4"));
    GroupingText();
    GroupingValue(env);
    assert Post(e) == [Number("2"), Number("3"), Op('+'), Number("4"), Op('*')];
    EvaluatesToValue(env, e);
  }

  lemma StrayCloseText()
    ensures !Chars.Blank("2+3)*4")
    ensures Tokenize(Normalize("2+3)*4")) == [Number("2"), Op('+'), Number("3"), Paren(')'), Op('*'), Number("4")]
  {
    var ts := [Number("2"), Op('+'), Number("3"), Paren(')'), Op('*'), Number("4")];
    StrayCloseSeparated();
    SpellChars(ts, "2+3)*4");
    TokenizeSeparated(ts);
  }

  lemma StrayCloseSeparated()
    ensures Separated([Number("2"), Op('+'), Number("3"), Paren(')'), Op('*'), Number("4")])
  {
    var ts := [Number("2"), Op('+'), Number("3"), Paren(')'), Op('*'), Number("4")];
    Digit('2', 2.0);
    Digit('3', 3.0);
    Digit('4', 4.0);
    assert Separated(ts[5..]);
    assert Separated(ts[4..]);
    assert Separated(ts[3..]);
    assert Separated(ts[2..]);
    assert Separated(ts[1..]);
  }

  lemma StrayClosePostfix()
    ensures ToPostfix([Number("2"), Op('+'), Number("3"), Paren(')'), Op('*'), Number("4")])
         == [Number("2"), Number("3"), Op('+'), Number("4"), Op('*')]
  {
    var s1 := Shunt([Number("2"), Number("3")], [Op('+')]);
    var s2 := Shunt([Number("2"), Number("3"), Op('+')], []);
    var s3 := Shunt([Number("2"), Number("3"), Op('+'), Number("4")], [Op('*')]);
    SumFront();
    StrayCloseStep();
    TimesFour();
    RunThree(Shunt([], []), [Number("2"), Op('+'), Number("3")], [Paren(')')], [Op('*'), Number("4")], s1, s2, s3);
    StrayCloseJoin();
  }

  lemma StrayCloseJoin()
    ensures [Number("2"), Op('+'), Number("3")] + [Paren(')')] + [Op('*'), Number("4")]
         == [Number("2"), Op('+'), Number("3"), Paren(')'), Op('*'), Number("4")]
  {
  }

  /** The stray ')' empties the stack onto the output. */
  lemma StrayCloseStep()
    ensures Run(Shunt([Number("2"), Number("3")], [Op('+')]), [Paren(')')])
         == Shunt([Number("2"), Number("3"), Op('+')], [])
  {
    var s1 := Shunt([Number("2"), Number("3")], [Op('+')]);
    ReadClose(s1);
    CloseUnmatched(s1);
  }

  /** Reading *4 on an empty stack. */
  lemma TimesFour()
    ensures Run(Shunt([Number("2"), Number("3"), Op('+')], []), [Op('*'), Number("4")])
         == Shunt([Number("2"), Number("3"), Op('+'), Number("4")], [Op('*')])
  {
    var s2 := Shunt([Number("2"), Number("3"), Op('+')], []);
    RunAppend(s2, [Op('*')], [Number("4")]);
    ReadOperator(s2, '*');
    ReadNumber(Shunt(s2.out, [Op('*')]), "4");
  }

  /** Reading 2+3 leaves 2 3 on the output and + on the stack. */
  lemma SumFront()
    ensures Run(Shunt([], []), [Number("2"), Op('+'), Number("3")])
         == Shunt([Number("2"), Number("3")], [Op('+')])
  {
    var s1 := Shunt([Number("2")], []);
    ReadNumber(Shunt([], []), "2");
    ReadOperator(s1, '+');
    ReadNumber(Shunt(s1.out, [Op('+')]), "3");
    RunThree(Shunt([], []), [Number("2")], [Op('+')], [Number("3")], s1, Shunt(s1.out, [Op('+')]), Shunt([Number("2"), Number("3")], [Op('+')]));
    assert [Number("2")] + [Op('+')] + [Number("3")] == [Number("2"), Op('+'), Number("3")];
  }

  /** 5% is 0.05. */
  lemma Percentage(env: Env)
    ensures Calculate(env, "5%") == Ok(Finite(0.05))
  {
    var e := Pct(Lit("5"));
    Digit('5', 5.0);
    assert Print(e) == [Number("5"), Percent];
    SpellChars(Print(e), "5%");
    Spells(env, e, "5%", Finite(0.05));
  }

  /** A lone digit is worth that digit. */
  lemma DigitText(d: char)
    ensures DigitsValue([d]) == DigitValue(d)
  {
    assert [d][..0] == [];
  }

  /** 1.5e-3 is one numeral, worth 0.0015. */
  lemma ScientificNumeral()
    ensures ParseNumeral("1.5e-3") == Some(0.0015)
  {
    ScientificParts();
    NumeralAt("1.5e-3", "1", true, "5", "e", "-", "3");
    DecimalExample();
  }

  lemma ScientificParts()
    ensures Assemble("1", true, "5", "e", "-", "3") == "1.5e-3"
    ensures NumeralShape("1", true, "5", "e", "-", "3")
  {
  }

  /** A text assembled from a numeral's parts parses to their value. */
  lemma NumeralAt(t: string, a: string, dot: bool, b: string, ex: string, sign: string, c: string)
    requires NumeralShape(a, dot, b, ex, sign, c) && t == Assemble(a, dot, b, ex, sign, c)
    ensures ParseNumeral(t) == Some(Decimal(a, b, SignedDigits(sign, c)))
  {
    NumeralForm(a, dot, b, ex, sign, c, "");
  }

  lemma DecimalExample()
    ensures Decimal("1", "5", SignedDigits("-", "3")) == 0.0015
  {
    DigitText('1');
    DigitText('5');
    DigitText('3');
    assert SignedDigits("-", "3") == -3;
    assert Pow10(3) == 1000 && Pow10(1) == 10;
    assert Scale(-3) == 1.0 / 1000.0;
    assert DigitsValue("1") as real + DigitsValue("5") as real / Pow10(|"5"|) as real == 1.5;
  }

  /** In 1e+ no digit follows the exponent's sign, so the match backs off to the 1 and the
      text as a whole is no numeral. */
  lemma ExponentBacktrack()
    ensures ScanNumber("1e+") == 1
    ensures ParseNumeral("1e+") == None
  {
    assert !ExponentStart("e+");
    NumeralForm("1", false, "", "", "", "", "e+");
    assert Assemble("1", false, "", "", "", "") + "e+" == "1e+";
  }

  lemma ScientificText()
    ensures var e := Bin('*', Lit("1.5e-3"), Lit("2"));
      Fits(e) && RenderAll(Print(e)) == "1.5e-3*2"
  {
    var ts := [Number("1.5e-3"), Op('*'), Number("2")];
    assert Print(Bin('*', Lit("1.5e-3"), Lit("2"))) == ts;
    RenderUnfold(ts);
    RenderUnfold(ts[1..]);
    RenderUnfold(ts[2..]);
  }

  lemma ScientificValue(env: Env)
    ensures var e := Bin('*', Lit("1.5e-3"), Lit("2"));
      Leaves(e) && Value(env, e) == Finite(0.003)
  {
    var e := Bin('*', Lit("1.5e-3"), Lit("2"));
    ScientificNumeral();
    Digit('2', 2.0);
    assert Value(env, e.l) == Finite(0.0015);
    assert Value(env, e.r) == Finite(2.0);
    assert Value(env, e) == Mul(Finite(0.0015), Finite(2.0));
  }

  /** A numeral with a fraction and a negative exponent: 1.5e-3*2 is 0.003. */
  lemma ScientificProduct(env: Env)
    ensures Calculate(env, "1.5e-3*2") == Ok(Finite(0.003))
  {
    ScientificText();
    ScientificValue(env);
    Spells(env, Bin('*', Lit("1.5e-3"), Lit("2")), "1.5e-3*2", Finite(0.003));
  }

  /** pi, in any case, is Math.PI. */
  lemma PiByName(env: Env)
    ensures Calculate(env, "pi") == Ok(Finite(PI))
  {
    assert IsLetters("pi");
    assert Chars.UpperCase("pi") == "PI";
    NameValue(env, "pi");
  }

  /** E is Math.E. */
  lemma EulerByName(env: Env)
    ensures Calculate(env, "E") == Ok(Finite(EULER))
  {
    assert IsLetters("E");
    assert Chars.UpperCase("E") == "E";
    NameValue(env, "E");
  }

  /** x+1 is 1: a name that is not Ans, PI or E counts as 0. */
  lemma UnknownName(env: Env)
    ensures Calculate(env, "x+1") == Ok(Finite(1.0))
  {
    var e := Bin('+', Ref("x"), Lit("1"));
    Digit('1', 1.0);
    assert Print(e) == [Name("x"), Op('+'), Number("1")];
    SpellChars(Print(e), "x+1");
    assert Chars.UpperCase("x") == "X";
    Spells(env, e, "x+1", Finite(1.0));
  }

  /** 1/0 is an error. */
  lemma DivideByZero(env: Env)
    ensures Calculate(env, "1/0") == Err(NotFinite)
  {
    var e := Bin('/', Lit("1"), Lit("0"));
    Digit('1', 1.0);
    Digit('0', 0.0);
    assert Print(e) == [Number("1"), Op('/'), Number("0")];
    SpellChars(Print(e), "1/0");
    Spells(env, e, "1/0", NonFinite);
  }

  /** The text e^( is the name e, the operator ^ and a parenthesis: the letter run stops at
      the ^, so it is no function name. */
  lemma PowerOfE()
    ensures Tokenize(Normalize("e^(")) == [Name("e"), Op('^'), Paren('(')]
  {
    var ts := [Name("e"), Op('^'), Paren('(')];
    assert Separated(ts[2..]);
    assert Separated(ts[1..]);
    SpellChars(ts, "e^(");
    TokenizeSeparated(ts);
  }

  /** (1+2 leaves its "(" unclosed and is an error. */
  lemma Unbalanced(env: Env)
    ensures Calculate(env, "(1+2").Err?
  {
    var ts := [Paren('('), Number("1"), Op('+'), Number("2")];
    Digit('1', 1.0);
    Digit('2', 2.0);
    assert Separated(ts[3..]);
    assert Separated(ts[2..]);
    assert Separated(ts[1..]);
    SpellChars(ts, "(1+2");
    TokenizeSeparated(ts);
    OneUnclosed();
    UnclosedFails(env, "(1+2");
  }

  lemma OneUnclosed()
    ensures Unclosed(0, [Paren('('), Number("1"), Op('+'), Number("2")]) == 1
  {
    var ts := [Paren('('), Number("1"), Op('+'), Number("2")];
    assert Unclosed(1, ts[1..][1..][1..][1..]) == 1;
  }

  /** A lone + takes its operands from an empty stack and gives a non-finite result. */
  lemma Underflow(env: Env)
    ensures Calculate(env, "+") == Err(NotFinite)
  {
    var ts := [Op('+')];
    SpellChars(ts, "+");
    TokenizeSeparated(ts);
    assert PopOps(Shunt([], []), '+') == Shunt([], []);
    RunSingle(Shunt([], []), Op('+'));
    assert ToPostfix(ts) == [Op('+')];
    BinaryOperandsEmpty(env);
  }

  lemma BinaryOperandsEmpty(env: Env)
    ensures Eval(env, [Op('+')]) == Ok(NonFinite)
  {
    ExecSingle(env, [], Op('+'));
    var none: seq<Num> := [];
    assert Pop(Pop(none)) + [Binary(env.rt, '+', Top(Pop(none)), Top(none))] == [NonFinite];
  }

  /** There is no unary minus: -5 subtracts 5 from a missing operand. */
  lemma NoUnaryMinus(env: Env)
    ensures Calculate(env, "-5") == Err(NotFinite)
  {
    var ts := [Op('-'), Number("5")];
    Digit('5', 5.0);
    assert Separated(ts[1..]);
    SpellChars(ts, "-5");
    TokenizeSeparated(ts);
    LeadingOperatorPostfix('-', "5");
    NegationValue(env);
  }

  /** An operator typed before its only operand follows it in postfix. */
  lemma LeadingOperatorPostfix(o: char, x: string)
    ensures ToPostfix([Op(o), Number(x)]) == [Number(x), Op(o)]
  {
    var ts := [Op(o), Number(x)];
    assert PopOps(Shunt([], []), o) == Shunt([], []);
    RunAppend(Shunt([], []), [Op(o)], [Number(x)]);
    RunSingle(Shunt([], []), Op(o));
    RunSingle(Shunt([], [Op(o)]), Number(x));
    assert ts == [Op(o)] + [Number(x)];
  }

  lemma NegationValue(env: Env)
    ensures Eval(env, [Number("5"), Op('-')]) == Ok(NonFinite)
  {
    Digit('5', 5.0);
    ExecAppend(env, [], [Number("5")], [Op('-')]);
    assert [Number("5"), Op('-')] == [Number("5")] + [Op('-')];
    ExecSingle(env, [], Number("5"));
    ExecSingle(env, [Finite(5.0)], Op('-'));
    var five := [Finite(5.0)];
    assert Pop(five) == [];
    assert Pop(Pop(five)) + [Binary(env.rt, '-', Top(Pop(five)), Top(five))] == [NonFinite];
  }

  /** ^0 is 1: the missing base is NaN, and `Math.pow` gives 1 for a zero exponent whatever
      the base. */
  lemma PowerOfNothing(env: Env)
    ensures Calculate(env, "^0") == Ok(Finite(1.0))
  {
    var ts := [Op('^'), Number("0")];
    Digit('0', 0.0);
    assert Separated(ts[1..]);
    SpellChars(ts, "^0");
    TokenizeSeparated(ts);
    LeadingOperatorPostfix('^', "0");
    ZeroPowerValue(env);
  }

  lemma ZeroPowerValue(env: Env)
    ensures Eval(env, [Number("0"), Op('^')]) == Ok(Finite(1.0))
  {
    Digit('0', 0.0);
    ExecAppend(env, [], [Number("0")], [Op('^')]);
    assert [Number("0"), Op('^')] == [Number("0")] + [Op('^')];
    ExecSingle(env, [], Number("0"));
    ExecSingle(env, [Finite(0.0)], Op('^'));
    var zero := [Finite(0.0)];
    assert Pop(zero) == [];
    assert Pop(Pop(zero)) + [Binary(env.rt, '^', Top(Pop(zero)), Top(zero))] == [Finite(1.0)];
  }

  /** A root glyph without a parenthesis is a function left on the stack until the end, so it
      still follows its operand. */
  lemma BareRoot()
    ensures ToPostfix([Func("sqrt"), Number("4")]) == [Number("4"), Func("sqrt")]
  {
    RunAppend(Shunt([], []), [Func("sqrt")], [Number("4")]);
    RunSingle(Shunt([], []), Func("sqrt"));
    RunSingle(Shunt([], [Func("sqrt")]), Number("4"));
    assert [Func("sqrt"), Number("4")] == [Func("sqrt")] + [Number("4")];
  }

  /** 2(3) is no product: two values are left and evaluation fails. */
  lemma NoImplicitProduct(env: Env)
    ensures Eval(env, ToPostfix([Number("2"), Paren('('), Number("3"), Paren(')')])) == Err(BadExpression(2))
    ensures Calculate(env, "2(3)") == Err(BadExpression(2))
  {
    var ts := [Number("2"), Paren('('), Number("3"), Paren(')')];
    ImplicitPostfix();
    TwoValues(env);
    ImplicitProductText();
    Fails(env, "2(3)", ts, [Number("2"), Number("3")], BadExpression(2));
  }

  /** Text whose tokens parse to postfix that fails to evaluate fails to calculate the same
      way. */
  lemma Fails(env: Env, s: string, ts: seq<Token>, post: seq<Token>, e: Failure)
    requires !Chars.Blank(s) && Tokenize(Normalize(s)) == ts && ToPostfix(ts) == post
    requires Eval(env, post) == Err(e)
    ensures Calculate(env, s) == Err(e)
  {
  }

  /** The postfix 2 3 leaves two values. */
  lemma TwoValues(env: Env)
    ensures Eval(env, [Number("2"), Number("3")]) == Err(BadExpression(2))
  {
    Digit('2', 2.0);
    Digit('3', 3.0);
    EvalSucceeds(env, [Number("2"), Number("3")]);
    ExecAppend(env, [], [Number("2")], [Number("3")]);
    assert [Number("2"), Number("3")] == [Number("2")] + [Number("3")];
    ExecSingle(env, [], Number("2"));
    ExecSingle(env, [Finite(2.0)], Number("3"));
  }

  /** The text 2(3) is the number 2, a parenthesis, the number 3 and a parenthesis. */
  lemma ImplicitProductText()
    ensures !Chars.Blank("2(3)")
    ensures Tokenize(Normalize("2(3)")) == [Number("2"), Paren('('), Number("3"), Paren(')')]
  {
    var ts := [Number("2"), Paren('('), Number("3"), Paren(')')];
    ImplicitProductSeparated();
    SpellChars(ts, "2(3)");
    TokenizeSeparated(ts);
  }

  lemma ImplicitProductSeparated()
    ensures Separated([Number("2"), Paren('('), Number("3"), Paren(')')])
  {
    var ts := [Number("2"), Paren('('), Number("3"), Paren(')')];
    Digit('2', 2.0);
    Digit('3', 3.0);
    assert Separated(ts[3..]);
    assert Separated(ts[2..]);
    assert Separated(ts[1..]);
  }

  lemma ImplicitPostfix()
    ensures ToPostfix([Number("2"), Paren('('), Number("3"), Paren(')')]) == [Number("2"), Number("3")]
  {
    ImplicitOpen();
    ImplicitClose();
    RunAppend(Shunt([], []), [Number("2"), Paren('(')], [Number("3"), Paren(')')]);
    assert [Number("2"), Paren('(')] + [Number("3"), Paren(')')]
        == [Number("2"), Paren('('), Number("3"), Paren(')')];
  }

  /** Reading 2( leaves 2 on the output and ( on the stack. */
  lemma ImplicitOpen()
    ensures Run(Shunt([], []), [Number("2"), Paren('(')]) == Shunt([Number("2")], [Paren('(')])
  {
    RunAppend(Shunt([], []), [Number("2")], [Paren('(')]);
    assert [Number("2")] + [Paren('(')] == [Number("2"), Paren('(')];
    ReadNumber(Shunt([], []), "2");
    ReadOpen(Shunt([Number("2")], []));
  }

  /** Reading 3) outputs 3 and discards the matching (. */
  lemma ImplicitClose()
    ensures Run(Shunt([Number("2")], [Paren('(')]), [Number("3"), Paren(')')]) == Shunt([Number("2"), Number("3")], [])
  {
    var s2 := Shunt([Number("2")], [Paren('(')]);
    var s3 := Shunt([Number("2"), Number("3")], [Paren('(')]);
    RunAppend(s2, [Number("3")], [Paren(')')]);
    assert [Number("3")] + [Paren(')')] == [Number("3"), Paren(')')];
    ReadNumber(s2, "3");
    ReadClose(s3);
    CloseMatched(s3, 0);
  }
}
