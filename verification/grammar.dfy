/** Expression trees over the calculator's notation, printed as infix tokens with the
    parentheses the precedence rules call for and as postfix tokens, with their value.
    The shunting-yard parser takes the infix print of every such tree to its postfix print,
    and the evaluator takes the postfix print to the tree's value. */
module Grammar {
  import opened Outcomes
  import opened Chars
  import opened Seqs
  import opened Tokens
  import opened Numerals
  import opened Numbers
  import opened Parser
  import opened Evaluator

  datatype Expr =
    | Lit(text: string)
    | Ref(name: string)
    | Bin(op: char, l: Expr, r: Expr)
    | Call(f: string, arg: Expr)
    | Pct(e: Expr)
    | Group(e: Expr)

  /** The infix tokens of a tree: a call prints its name and then its parenthesised
      argument, a percentage its operand and then `%`. */
  function Print(e: Expr): seq<Token> {
    match e
    case Lit(x) => [Number(x)]
    case Ref(n) => [Name(n)]
    case Bin(o, l, r) => Print(l) + [Op(o)] + Print(r)
    case Call(f, a) => [Func(f), Paren('(')] + Print(a) + [Paren(')')]
    case Pct(x) => Print(x) + [Percent]
    case Group(x) => [Paren('(')] + Print(x) + [Paren(')')]
  }

  /** The postfix tokens of a tree: operands before their operator. */
  function Post(e: Expr): seq<Token> {
    match e
    case Lit(x) => [Number(x)]
    case Ref(n) => [Var(n)]
    case Bin(o, l, r) => Post(l) + Post(r) + [Op(o)]
    case Call(f, a) => Post(a) + [Func(f)]
    case Pct(x) => Post(x) + [Percent]
    case Group(x) => Post(x)
  }

  /** The precedence level of an operator, 0 for a symbol without one. */
  function Level(c: char): nat {
    match Prec(c)
    case Some(p) => p
    case None => 0
  }

  /** An operator `x` in the right operand of `o` binds to it without parentheses: it is
      tighter, or as tight and right-associative. */
  predicate Binds(x: char, o: char) {
    Level(x) > Level(o) || (Level(x) == Level(o) && RightAssoc(x))
  }

  /** An operator `x` in the left operand of `o` binds to it without parentheses: it is
      tighter, or as tight with `o` left-associative. */
  predicate BindsLeft(x: char, o: char) {
    Level(x) > Level(o) || (Level(x) == Level(o) && !RightAssoc(o))
  }

  /** Trees whose infix print parses back as the same tree: binary operators are the five
      arithmetic ones, an operand that is itself a bare binary expression binds to its
      parent as the precedence rules say, and a percentage applies to no bare binary
      expression. */
  predicate Fits(e: Expr) {
    match e
    case Lit(_) => true
    case Ref(_) => true
    case Bin(o, l, r) =>
      && IsArith(o) && Fits(l) && Fits(r)
      && (l.Bin? ==> BindsLeft(l.op, o))
      && (r.Bin? ==> Binds(r.op, o))
    case Call(_, a) => Fits(a)
    case Pct(x) => !x.Bin? && Fits(x)
    case Group(x) => Fits(x)
  }

  /** Leaves and names the tokenizer and evaluator accept: numerals, letter names, and
      calls of known functions. */
  predicate Leaves(e: Expr) {
    match e
    case Lit(x) => ParseNumeral(x).Some?
    case Ref(n) => IsLetters(n)
    case Bin(_, l, r) => Leaves(l) && Leaves(r)
    case Call(f, a) => IsLetters(f) && KnownFunction(LowerCase(f)) && Leaves(a)
    case Pct(x) => Leaves(x)
    case Group(x) => Leaves(x)
  }

  /** The value of a tree, computed on the tree itself. */
  function Value(env: Env, e: Expr): Num
    requires Leaves(e)
  {
    match e
    case Lit(x) => Finite(ParseNumeral(x).value)
    case Ref(n) => Finite(Resolve(env, n))
    case Bin(o, l, r) => if IsArith(o) then Binary(env.rt, o, Value(env, l), Value(env, r)) else NonFinite
    case Call(f, a) => Apply(env, LowerCase(f), Value(env, a))
    case Pct(x) => Div(Value(env, x), Finite(100.0))
    case Group(x) => Value(env, x)
  }

  // ---- The parser's state while it reads a tree's print.

  /** What the parser has output after reading a tree's print. */
  function Emitted(e: Expr): seq<Token> {
    match e
    case Lit(x) => [Number(x)]
    case Ref(n) => [Var(n)]
    case Bin(o, l, r) => Emitted(l) + Reverse(Pending(l)) + Emitted(r)
    case Call(f, a) => Emitted(a) + Reverse(Pending(a)) + [Func(f)]
    case Pct(x) => Emitted(x) + [Percent]
    case Group(x) => Emitted(x) + Reverse(Pending(x))
  }

  /** The operators still on the parser's stack after reading a tree's print: those of its
      right spine, bottom first. */
  function Pending(e: Expr): seq<Token> {
    match e
    case Bin(o, _, r) => [Op(o)] + Pending(r)
    case Pct(x) => Pending(x)
    case _ => []
  }

  /** No operator on the tree's left spine pops the stacked token `top` on its way in. */
  predicate Quiet(top: Token, e: Expr) {
    match e
    case Bin(o, l, _) => !Pops(o, top) && Quiet(top, l)
    case Pct(x) => Quiet(top, x)
    case _ => true
  }

  /** A stack the print of `e` can be read onto: its top is no function and is not popped
      by `e`'s left spine. */
  predicate ReadyFor(ops: seq<Token>, e: Expr) {
    |ops| == 0 || (!ops[|ops| - 1].Func? && Quiet(ops[|ops| - 1], e))
  }

  lemma {:induction false} PendingNonBin(e: Expr)
    requires Fits(e) && !e.Bin?
    ensures Pending(e) == []
  {
    if e.Pct? {
      PendingNonBin(e.e);
    }
  }

  lemma {:induction false} QuietNonBin(top: Token, e: Expr)
    requires Fits(e) && !e.Bin?
    ensures Quiet(top, e)
  {
    if e.Pct? {
      QuietNonBin(top, e.e);
    }
  }

  /** Nothing pops a parenthesis. */
  lemma {:induction false} QuietParen(c: char, e: Expr)
    ensures Quiet(Paren(c), e)
  {
    match e
    case Bin(_, l, _) => QuietParen(c, l);
    case Pct(x) => QuietParen(c, x);
    case _ =>
  }

  /** Between arithmetic operators, popping is the precedence comparison. */
  lemma PopsLevel(c: char, x: char)
    requires IsArith(c) && IsArith(x)
    ensures Pops(c, Op(x)) <==> if RightAssoc(c) then Level(c) < Level(x) else Level(c) <= Level(x)
  {
  }

  /** Operators of one level share their associativity. */
  lemma SameClass(a: char, b: char)
    requires IsArith(a) && IsArith(b)
    ensures Level(a) == Level(b) ==> RightAssoc(a) == RightAssoc(b)
  {
  }

  /** An operator that binds as the right operand of `o` does not pop `o`, and neither does
      any operator on its left spine. */
  lemma {:induction false} QuietRight(o: char, r: Expr)
    requires IsArith(o) && Fits(r)
    requires r.Bin? ==> Binds(r.op, o)
    ensures Quiet(Op(o), r)
  {
    if r.Bin? {
      PopsLevel(r.op, o);
      var l2 := r.l;
      if l2.Bin? {
        QuietRight(o, l2);
      } else {
        QuietNonBin(Op(o), l2);
      }
    } else {
      QuietNonBin(Op(o), r);
    }
  }

  /** The pending operators are arithmetic operators. */
  lemma {:induction false} PendingOps(e: Expr)
    requires Fits(e)
    ensures forall j :: 0 <= j < |Pending(e)| ==> Pending(e)[j].Op? && IsArith(Pending(e)[j].sym)
  {
    match e
    case Bin(_, _, r) => PendingOps(r);
    case Pct(x) => PendingOps(x);
    case _ =>
  }

  /** An operator that the left operand `l` binds to pops all of `l`'s pending operators. */
  lemma {:induction false} PendingPops(o: char, l: Expr)
    requires IsArith(o) && Fits(l)
    requires l.Bin? ==> BindsLeft(l.op, o)
    ensures forall j :: 0 <= j < |Pending(l)| ==> Pops(o, Pending(l)[j])
  {
    if l.Bin? {
      PopsLevel(o, l.op);
      var r1 := l.r;
      if r1.Bin? {
        SameClass(r1.op, l.op);
        SameClass(l.op, o);
        PendingPops(o, r1);
      } else {
        PendingNonBin(r1);
      }
    } else {
      PendingNonBin(l);
    }
  }

  // ---- Single tokens, each read on its own.

  lemma ReadNumber(st: Shunt, x: string)
    ensures Run(st, [Number(x)]) == Shunt(st.out + [Number(x)], st.ops)
  {
    RunSingle(st, Number(x));
  }

  lemma ReadName(st: Shunt, n: string)
    ensures Run(st, [Name(n)]) == Shunt(st.out + [Var(n)], st.ops)
  {
    RunSingle(st, Name(n));
  }

  lemma ReadOpen(st: Shunt)
    ensures Run(st, [Paren('(')]) == Shunt(st.out, st.ops + [Paren('(')])
  {
    RunSingle(st, Paren('('));
  }

  lemma ReadClose(st: Shunt)
    ensures Run(st, [Paren(')')]) == CloseParen(st)
  {
    RunSingle(st, Paren(')'));
  }

  lemma ReadPercent(st: Shunt)
    ensures Run(st, [Percent]) == Shunt(st.out + [Percent], st.ops)
  {
    RunSingle(st, Percent);
  }

  lemma ReadOperator(st: Shunt, o: char)
    ensures Run(st, [Op(o)]) == Shunt(PopOps(st, o).out, PopOps(st, o).ops + [Op(o)])
  {
    RunSingle(st, Op(o));
  }

  /** Reading the print of a fitting tree outputs `Emitted(e)` and leaves `Pending(e)` on
      top of the stack it started from. */
  lemma {:induction false} Parses(e: Expr, out: seq<Token>, ops: seq<Token>)
    requires Fits(e) && ReadyFor(ops, e)
    ensures Run(Shunt(out, ops), Print(e)) == Shunt(out + Emitted(e), ops + Pending(e))
    decreases e, 2
  {
    match e
    case Lit(x) => ReadNumber(Shunt(out, ops), x);
    case Ref(n) => ReadName(Shunt(out, ops), n);
    case Bin(o, l, r) => BinParses(o, l, r, out, ops);
    case Call(f, a) => CallParses(f, a, out, ops);
    case Pct(x) => PctParses(x, out, ops);
    case Group(x) => GroupParses(x, out, ops);
  }

  /** The operator after the left operand pops exactly the left operand's pending
      operators. */
  lemma OperatorStep(o: char, l: Expr, out: seq<Token>, ops: seq<Token>)
    requires IsArith(o) && Fits(l) && (l.Bin? ==> BindsLeft(l.op, o))
    requires |ops| == 0 || !Pops(o, ops[|ops| - 1])
    ensures Run(Shunt(out, ops + Pending(l)), [Op(o)]) == Shunt(out + Reverse(Pending(l)), ops + [Op(o)])
  {
    var st := Shunt(out, ops + Pending(l));
    PendingPops(o, l);
    assert st.ops[|ops|..] == Pending(l) && st.ops[..|ops|] == ops;
    PopOpsExact(st, o, |ops|);
    ReadOperator(st, o);
  }

  /** Reading a left operand and the operator after it. */
  lemma {:induction false} LeftThenOperator(o: char, l: Expr, out: seq<Token>, ops: seq<Token>)
    requires IsArith(o) && Fits(l) && (l.Bin? ==> BindsLeft(l.op, o))
    requires ReadyFor(ops, l)
    requires |ops| == 0 || !Pops(o, ops[|ops| - 1])
    ensures Run(Shunt(out, ops), Print(l) + [Op(o)])
         == Shunt(out + Emitted(l) + Reverse(Pending(l)), ops + [Op(o)])
    decreases l, 3
  {
    RunAppend(Shunt(out, ops), Print(l), [Op(o)]);
    Parses(l, out, ops);
    OperatorStep(o, l, out + Emitted(l), ops);
  }

  /** What a binary tree's shape promises its two operands and the stack below it. */
  lemma BinReady(o: char, l: Expr, r: Expr, ops: seq<Token>)
    requires Fits(Bin(o, l, r)) && ReadyFor(ops, Bin(o, l, r))
    ensures IsArith(o) && Fits(l) && Fits(r)
    ensures l.Bin? ==> BindsLeft(l.op, o)
    ensures r.Bin? ==> Binds(r.op, o)
    ensures ReadyFor(ops, l)
    ensures |ops| == 0 || !Pops(o, ops[|ops| - 1])
  {
  }

  /** A right operand is read onto the operator just pushed. */
  lemma ReadyAfterOperator(ops: seq<Token>, o: char, r: Expr)
    requires Quiet(Op(o), r)
    ensures ReadyFor(ops + [Op(o)], r)
  {
  }

  /** The output and stack after a binary tree, in terms of its operands. */
  lemma BinOutput(o: char, l: Expr, r: Expr, out: seq<Token>)
    ensures out + Emitted(Bin(o, l, r)) == (out + Emitted(l) + Reverse(Pending(l))) + Emitted(r)
  {
    var a, b, c := Emitted(l), Reverse(Pending(l)), Emitted(r);
    assert Emitted(Bin(o, l, r)) == a + b + c;
    assert out + (a + b + c) == (out + a + b) + c;
  }

  lemma BinStack(o: char, r: Expr, ops: seq<Token>)
    ensures ops + ([Op(o)] + Pending(r)) == (ops + [Op(o)]) + Pending(r)
  {
  }

  lemma {:induction false} BinParses(o: char, l: Expr, r: Expr, out: seq<Token>, ops: seq<Token>)
    requires Fits(Bin(o, l, r)) && ReadyFor(ops, Bin(o, l, r))
    ensures Run(Shunt(out, ops), Print(Bin(o, l, r)))
         == Shunt(out + Emitted(Bin(o, l, r)), ops + Pending(Bin(o, l, r)))
    decreases Bin(o, l, r), 0
  {
    var mid := Shunt(out + Emitted(l) + Reverse(Pending(l)), ops + [Op(o)]);
    BinReady(o, l, r, ops);
    LeftThenOperator(o, l, out, ops);
    QuietRight(o, r);
    ReadyAfterOperator(ops, o, r);
    Parses(r, mid.out, mid.ops);
    RunAppend(Shunt(out, ops), Print(l) + [Op(o)], Print(r));
    BinOutput(o, l, r, out);
    BinStack(o, r, ops);
  }

  /** The closing parenthesis of a call pops the argument's pending operators, drops the
      "(" and outputs the function. */
  lemma CloseCall(f: string, a: Expr, out: seq<Token>, ops: seq<Token>)
    requires Fits(a)
    ensures CloseParen(Shunt(out, ops + [Func(f), Paren('(')] + Pending(a)))
         == Shunt(out + Reverse(Pending(a)) + [Func(f)], ops)
  {
    var stack := ops + [Func(f), Paren('(')] + Pending(a);
    PendingOps(a);
    var k := |ops| + 1;
    assert stack[k + 1..] == Pending(a) && stack[..k - 1] == ops && stack[k - 1] == Func(f);
    CloseMatched(Shunt(out, stack), k);
  }

  /** A function name and its "(" go on the stack. */
  lemma OpenCall(st: Shunt, f: string)
    ensures Run(st, [Func(f), Paren('(')]) == Shunt(st.out, st.ops + [Func(f), Paren('(')])
  {
    RunAppend(st, [Func(f)], [Paren('(')]);
    RunSingle(st, Func(f));
    ReadOpen(Shunt(st.out, st.ops + [Func(f)]));
    assert [Func(f)] + [Paren('(')] == [Func(f), Paren('(')];
  }

  /** The output after a call, in terms of its argument. */
  lemma CallOutput(out: seq<Token>, f: string, a: Expr)
    ensures out + Emitted(Call(f, a)) == out + Emitted(a) + Reverse(Pending(a)) + [Func(f)]
  {
  }

  /** The output after a group, in terms of its inside. */
  lemma GroupOutput(out: seq<Token>, x: Expr)
    ensures out + Emitted(Group(x)) == out + Emitted(x) + Reverse(Pending(x))
  {
  }

  lemma {:induction false} CallParses(f: string, a: Expr, out: seq<Token>, ops: seq<Token>)
    requires Fits(Call(f, a)) && ReadyFor(ops, Call(f, a))
    ensures Run(Shunt(out, ops), Print(Call(f, a))) == Shunt(out + Emitted(Call(f, a)), ops)
    decreases Call(f, a), 0
  {
    var inner := ops + [Func(f), Paren('(')];
    var s1 := Shunt(out, inner);
    var s2 := Shunt(out + Emitted(a), inner + Pending(a));
    var s3 := Shunt(out + Emitted(a) + Reverse(Pending(a)) + [Func(f)], ops);
    OpenCall(Shunt(out, ops), f);
    QuietParen('(', a);
    Parses(a, out, inner);
    ReadClose(s2);
    CloseCall(f, a, out + Emitted(a), ops);
    RunThree(Shunt(out, ops), [Func(f), Paren('(')], Print(a), [Paren(')')], s1, s2, s3);
    CallOutput(out, f, a);
  }

  /** The closing parenthesis of a group pops the inner pending operators and drops the
      "("; with no function beneath, nothing else moves. */
  lemma CloseGroup(x: Expr, out: seq<Token>, ops: seq<Token>)
    requires Fits(x)
    requires |ops| == 0 || !ops[|ops| - 1].Func?
    ensures CloseParen(Shunt(out, ops + [Paren('(')] + Pending(x))) == Shunt(out + Reverse(Pending(x)), ops)
  {
    var stack := ops + [Paren('(')] + Pending(x);
    PendingOps(x);
    var k := |ops|;
    assert stack[k + 1..] == Pending(x) && stack[..k] == ops;
    CloseMatched(Shunt(out, stack), k);
  }

  lemma {:induction false} GroupParses(x: Expr, out: seq<Token>, ops: seq<Token>)
    requires Fits(Group(x)) && ReadyFor(ops, Group(x))
    ensures Run(Shunt(out, ops), Print(Group(x))) == Shunt(out + Emitted(Group(x)), ops)
    decreases Group(x), 0
  {
    var inner := ops + [Paren('(')];
    var s1 := Shunt(out, inner);
    var s2 := Shunt(out + Emitted(x), inner + Pending(x));
    var s3 := Shunt(out + Emitted(x) + Reverse(Pending(x)), ops);
    ReadOpen(Shunt(out, ops));
    QuietParen('(', x);
    Parses(x, out, inner);
    ReadClose(s2);
    CloseGroup(x, out + Emitted(x), ops);
    RunThree(Shunt(out, ops), [Paren('(')], Print(x), [Paren(')')], s1, s2, s3);
    GroupOutput(out, x);
  }

  lemma {:induction false} PctParses(x: Expr, out: seq<Token>, ops: seq<Token>)
    requires Fits(Pct(x)) && ReadyFor(ops, Pct(x))
    ensures Run(Shunt(out, ops), Print(Pct(x))) == Shunt(out + Emitted(Pct(x)), ops + Pending(Pct(x)))
    decreases Pct(x), 0
  {
    RunAppend(Shunt(out, ops), Print(x), [Percent]);
    Parses(x, out, ops);
    ReadPercent(Shunt(out + Emitted(x), ops + Pending(x)));
  }

  lemma BinDrains(o: char, l: Expr, r: Expr)
    requires Emitted(l) + Reverse(Pending(l)) == Post(l)
    requires Emitted(r) + Reverse(Pending(r)) == Post(r)
    ensures Emitted(Bin(o, l, r)) + Reverse(Pending(Bin(o, l, r))) == Post(Bin(o, l, r))
  {
    ReverseAppend([Op(o)], Pending(r));
    assert Reverse([Op(o)]) == [Op(o)];
  }

  lemma PctDrains(x: Expr)
    requires Fits(Pct(x))
    requires Emitted(x) + Reverse(Pending(x)) == Post(x)
    ensures Emitted(Pct(x)) + Reverse(Pending(Pct(x))) == Post(Pct(x))
  {
    PendingNonBin(x);
  }

  /** What the parser has output plus what it drains from the stack is the postfix print. */
  lemma {:induction false} EmittedDrains(e: Expr)
    requires Fits(e)
    ensures Emitted(e) + Reverse(Pending(e)) == Post(e)
  {
    match e
    case Lit(_) =>
    case Ref(_) =>
    case Bin(o, l, r) =>
      EmittedDrains(l);
      EmittedDrains(r);
      BinDrains(o, l, r);
    case Call(_, a) => EmittedDrains(a);
    case Pct(x) =>
      EmittedDrains(x);
      PctDrains(x);
    case Group(x) => EmittedDrains(x);
  }

  lemma DrainsTo(ts: seq<Token>, st: Shunt)
    requires Run(Shunt([], []), ts) == st
    ensures ToPostfix(ts) == st.out + Reverse(st.ops)
  {
  }

  /** The parser turns the infix print of every fitting tree into its postfix print. */
  lemma ParsesToPostfix(e: Expr)
    requires Fits(e)
    ensures ToPostfix(Print(e)) == Post(e)
  {
    Parses(e, [], []);
    assert [] + Emitted(e) == Emitted(e) && [] + Pending(e) == Pending(e);
    DrainsTo(Print(e), Shunt(Emitted(e), Pending(e)));
    EmittedDrains(e);
  }

  // ---- Evaluating the postfix print.

  /** Running a tree's postfix print pushes the tree's value on whatever stack it starts
      from. */
  lemma {:induction false} PostValue(env: Env, e: Expr, s: seq<Num>)
    requires Fits(e) && Leaves(e)
    ensures Exec(env, s, Post(e)) == Ok(s + [Value(env, e)])
  {
    match e
    case Lit(x) =>
    case Ref(n) =>
    case Bin(o, l, r) =>
      ExecAppend(env, s, Post(l) + Post(r), [Op(o)]);
      ExecAppend(env, s, Post(l), Post(r));
      PostValue(env, l, s);
      PostValue(env, r, s + [Value(env, l)]);
      assert s + [Value(env, l)] + [Value(env, r)] == s + [Value(env, l), Value(env, r)];
      BinaryOperands(env, s, Value(env, l), Value(env, r), o);
    case Call(f, a) =>
      ExecAppend(env, s, Post(a), [Func(f)]);
      PostValue(env, a, s);
      UnaryOperand(env, s, Value(env, a), f);
    case Pct(x) =>
      ExecAppend(env, s, Post(x), [Percent]);
      PostValue(env, x, s);
      PercentOperand(env, s, Value(env, x));
    case Group(x) => PostValue(env, x, s);
  }

  /** The evaluator gives every fitting tree's postfix print the tree's value. */
  lemma EvaluatesToValue(env: Env, e: Expr)
    requires Fits(e) && Leaves(e)
    ensures Eval(env, Post(e)) == Ok(Value(env, e))
  {
    PostValue(env, e, []);
  }
}
