/** The postfix evaluator: a value stack driven by the parser's output, with the angle mode
    deciding whether trigonometry reads and writes degrees or radians. */
module Evaluator {
  import opened Outcomes
  import opened Chars
  import opened Numerals
  import opened Numbers
  import opened Tokens

  /** The DRG setting: DEG, the initial mode, or RAD. */
  datatype AngleMode = Deg | Rad

  /** What an evaluation reads besides its tokens: the angle mode, the last answer and the
      runtime's library routines. */
  datatype Env = Env(mode: AngleMode, ans: real, rt: Runtime)

  /** Why an evaluation throws. */
  datatype Failure =
    | BadNumeral(text: string)
    | UnknownOperator(sym: char)
    | UnknownFunction(name: string)
    | UnhandledNode(node: Token)
    | BadExpression(size: nat)
    | NotFinite

  /** A variable's value, with its name compared case-insensitively: the last answer, π, e,
      and 0 for every other name. */
  function Resolve(env: Env, n: string): real {
    var u := UpperCase(n);
    if u == "ANS" then env.ans
    else if u == "PI" then PI
    else if u == "E" then EULER
    else 0.0
  }

  /** The top of the value stack (kept with its top at the end); popping an empty stack
      yields `undefined`, which arithmetic turns into NaN. */
  function Top(s: seq<Num>): Num {
    if |s| == 0 then NonFinite else s[|s| - 1]
  }

  function Pop(s: seq<Num>): seq<Num> {
    if |s| == 0 then [] else s[..|s| - 1]
  }

  predicate IsArith(c: char) {
    c == '+' || c == '-' || c == '*' || c == '/' || c == '^'
  }

  /** A binary operator applied to its left operand `a` and right operand `b`. */
  function Binary(rt: Runtime, c: char, a: Num, b: Num): Num
    requires IsArith(c)
  {
    if c == '+' then Add(a, b)
    else if c == '-' then Sub(a, b)
    else if c == '*' then Mul(a, b)
    else if c == '/' then Div(a, b)
    else Pow(rt, a, b)
  }

  /** The lower-cased function names a `func` node may carry. */
  predicate KnownFunction(f: string) {
    f in {"sin", "cos", "tan", "asin", "acos", "atan", "ln", "log", "sqrt",
          "10^", "10^(", "10^x", "e^", "e^(", "pow10", "abs"}
  }

  /** The lower-cased names with which a stray `name` node is still evaluated as a call. */
  predicate FallbackFunction(f: string) {
    f in {"sin", "cos", "tan", "asin", "acos", "atan", "ln", "log", "sqrt", "10^", "e^"}
  }

  /** In DEG mode an angle argument is converted as `a * PI / 180`. */
  function ToRadians(mode: AngleMode, a: Num): Num {
    if mode == Deg then Div(Mul(a, Finite(PI)), Finite(180.0)) else a
  }

  /** In DEG mode an inverse function's result is converted as `r * 180 / PI`. */
  function FromRadians(mode: AngleMode, r: Num): Num {
    if mode == Deg then Div(Mul(r, Finite(180.0)), Finite(PI)) else r
  }

  /** A known function applied to its argument. */
  function Apply(env: Env, f: string, a: Num): Num
    requires KnownFunction(f)
  {
    var rt := env.rt;
    if f == "sin" then Lift(rt.sin, ToRadians(env.mode, a))
    else if f == "cos" then Lift(rt.cos, ToRadians(env.mode, a))
    else if f == "tan" then Lift(rt.tan, ToRadians(env.mode, a))
    else if f == "asin" then FromRadians(env.mode, Lift(rt.asin, a))
    else if f == "acos" then FromRadians(env.mode, Lift(rt.acos, a))
    else if f == "atan" then FromRadians(env.mode, Lift(rt.atan, a))
    else if f == "ln" then Lift(rt.ln, a)
    else if f == "log" then Lift(rt.log10, a)
    else if f == "sqrt" then Lift(rt.sqrt, a)
    else if f == "e^" || f == "e^(" then Lift(rt.exp, a)
    else if f == "abs" then Abs(a)
    else Pow(rt, Finite(10.0), a)
  }

  /** The evaluator's handling of one postfix token. */
  function StepEval(env: Env, s: seq<Num>, t: Token): Result<seq<Num>, Failure> {
    match t
    case Number(x) =>
      (match ParseNumeral(x)
       case Some(v) => Ok(s + [Finite(v)])
       case None => Err(BadNumeral(x)))
    case Var(n) => Ok(s + [Finite(Resolve(env, n))])
    case Percent => Ok(Pop(s) + [Div(Top(s), Finite(100.0))])
    case Op(c) =>
      if c == ',' then Ok(s)
      else if IsArith(c) then Ok(Pop(Pop(s)) + [Binary(env.rt, c, Top(Pop(s)), Top(s))])
      else Err(UnknownOperator(c))
    case Func(n) =>
      var f := LowerCase(n);
      if KnownFunction(f) then Ok(Pop(s) + [Apply(env, f, Top(s))]) else Err(UnknownFunction(f))
    case Name(n) =>
      var f := LowerCase(n);
      if FallbackFunction(f) then Ok(Pop(s) + [Apply(env, f, Top(s))]) else Err(UnhandledNode(t))
    case Paren(_) => Err(UnhandledNode(t))
  }

  /** Run the postfix tokens from the front; the first failure stops evaluation. */
  function Exec(env: Env, s: seq<Num>, post: seq<Token>): Result<seq<Num>, Failure>
    decreases |post|
  {
    if |post| == 0 then Ok(s)
    else match StepEval(env, s, post[0])
      case Err(e) => Err(e)
      case Ok(s2) => Exec(env, s2, post[1..])
  }

  /** The value of a postfix sequence: exactly one value must be left on the stack. */
  function Eval(env: Env, post: seq<Token>): Result<Num, Failure> {
    match Exec(env, [], post)
    case Err(e) => Err(e)
    case Ok(s) => if |s| == 1 then Ok(s[0]) else Err(BadExpression(|s|))
  }

  lemma ExecSingle(env: Env, s: seq<Num>, t: Token)
    ensures Exec(env, s, [t]) == StepEval(env, s, t)
  {
    assert [t][1..] == [];
  }

  lemma {:induction false} ExecAppend(env: Env, s: seq<Num>, a: seq<Token>, b: seq<Token>)
    ensures Exec(env, s, a + b) ==
      match Exec(env, s, a)
      case Err(e) => Err(e)
      case Ok(s2) => Exec(env, s2, b)
    decreases |a|
  {
    if |a| == 0 {
      assert a + b == b;
    } else {
      assert (a + b)[1..] == a[1..] + b;
      assert (a + b)[0] == a[0];
      if StepEval(env, s, a[0]).Ok? {
        ExecAppend(env, StepEval(env, s, a[0]).value, a[1..], b);
      }
    }
  }

  // ---- Which postfix sequences evaluate, and to how many values.

  /** A token the evaluator accepts. */
  predicate Admissible(t: Token) {
    match t
    case Number(x) => ParseNumeral(x).Some?
    case Var(_) => true
    case Percent => true
    case Op(c) => c == ',' || IsArith(c)
    case Func(n) => KnownFunction(LowerCase(n))
    case Name(n) => FallbackFunction(LowerCase(n))
    case Paren(_) => false
  }

  /** How many values a token takes from the stack before pushing its one result. */
  function Arity(t: Token): nat {
    match t
    case Number(_) => 0
    case Var(_) => 0
    case Op(c) => if IsArith(c) then 2 else 0
    case _ => 1
  }

  /** The stack height after a token; a missing operand still counts as taken, so an
      operator on a short stack leaves exactly its one result. */
  function NextHeight(h: nat, t: Token): nat {
    if t == Op(',') then h
    else (if h >= Arity(t) then h - Arity(t) else 0) + 1
  }

  function Height(h: nat, post: seq<Token>): nat
    decreases |post|
  {
    if |post| == 0 then h else Height(NextHeight(h, post[0]), post[1..])
  }

  /** One token evaluates exactly when it is admissible, and leaves the predicted height. */
  lemma StepEvalShape(env: Env, s: seq<Num>, t: Token)
    ensures StepEval(env, s, t).Ok? <==> Admissible(t)
    ensures StepEval(env, s, t).Ok? ==> |StepEval(env, s, t).value| == NextHeight(|s|, t)
    ensures t == Op(',') ==> StepEval(env, s, t) == Ok(s)
  {
  }

  /** A postfix sequence runs to the end exactly when every token is admissible, and then
      leaves the predicted height. */
  lemma {:induction false} ExecShape(env: Env, s: seq<Num>, post: seq<Token>)
    ensures Exec(env, s, post).Ok? <==> forall i :: 0 <= i < |post| ==> Admissible(post[i])
    ensures Exec(env, s, post).Ok? ==> |Exec(env, s, post).value| == Height(|s|, post)
    decreases |post|
  {
    if |post| > 0 {
      StepEvalShape(env, s, post[0]);
      if StepEval(env, s, post[0]).Ok? {
        ExecShape(env, StepEval(env, s, post[0]).value, post[1..]);
        assert forall i :: 1 <= i < |post| ==> post[i] == post[1..][i - 1];
      }
    }
  }

  /** Evaluation succeeds exactly when every token is admissible and the stack ends with one
      value. */
  lemma EvalSucceeds(env: Env, post: seq<Token>)
    ensures Eval(env, post).Ok? <==>
      (forall i :: 0 <= i < |post| ==> Admissible(post[i])) && Height(0, post) == 1
  {
    ExecShape(env, [], post);
  }

  // ---- Operand order, case and angle units.

  /** A binary operator's right operand is the top of the stack, its left the value below. */
  lemma BinaryOperands(env: Env, s: seq<Num>, a: Num, b: Num, c: char)
    requires IsArith(c)
    ensures StepEval(env, s + [a, b], Op(c)) == Ok(s + [Binary(env.rt, c, a, b)])
  {
    assert Pop(s + [a, b]) == s + [a];
    assert Pop(s + [a]) == s;
  }

  /** A known function replaces the top value by its result. */
  lemma UnaryOperand(env: Env, s: seq<Num>, a: Num, n: string)
    requires KnownFunction(LowerCase(n))
    ensures StepEval(env, s + [a], Func(n)) == Ok(s + [Apply(env, LowerCase(n), a)])
  {
    assert Pop(s + [a]) == s;
  }

  /** The percent sign replaces the top value by its hundredth. */
  lemma PercentOperand(env: Env, s: seq<Num>, a: Num)
    ensures StepEval(env, s + [a], Percent) == Ok(s + [Div(a, Finite(100.0))])
  {
    assert Pop(s + [a]) == s;
  }

  /** Variable and function names are read without regard to letter case. */
  lemma CaseInsensitive(env: Env, s: seq<Num>, a: string, b: string)
    requires SameIgnoringCase(a, b)
    ensures Resolve(env, a) == Resolve(env, b)
    ensures StepEval(env, s, Var(a)) == StepEval(env, s, Var(b))
    ensures StepEval(env, s, Func(a)) == StepEval(env, s, Func(b))
  {
    CaseMapsAgree(a, b);
  }

  /** In DEG mode `sin`, `cos` and `tan` read their argument as degrees and `asin`, `acos` and
      `atan` give their result in degrees; in RAD mode the runtime's radian functions are used
      as they are. */
  lemma DegreeArgument(rt: Runtime, ans: real, x: real)
    ensures Apply(Env(Deg, ans, rt), "sin", Finite(x)) == rt.sin(x * PI / 180.0)
    ensures Apply(Env(Deg, ans, rt), "cos", Finite(x)) == rt.cos(x * PI / 180.0)
    ensures Apply(Env(Deg, ans, rt), "tan", Finite(x)) == rt.tan(x * PI / 180.0)
    ensures Apply(Env(Deg, ans, rt), "asin", Finite(x)) == InDegrees(rt.asin(x))
    ensures Apply(Env(Deg, ans, rt), "acos", Finite(x)) == InDegrees(rt.acos(x))
    ensures Apply(Env(Deg, ans, rt), "atan", Finite(x)) == InDegrees(rt.atan(x))
    ensures Apply(Env(Rad, ans, rt), "sin", Finite(x)) == rt.sin(x)
    ensures Apply(Env(Rad, ans, rt), "cos", Finite(x)) == rt.cos(x)
    ensures Apply(Env(Rad, ans, rt), "tan", Finite(x)) == rt.tan(x)
    ensures Apply(Env(Rad, ans, rt), "asin", Finite(x)) == rt.asin(x)
    ensures Apply(Env(Rad, ans, rt), "acos", Finite(x)) == rt.acos(x)
    ensures Apply(Env(Rad, ans, rt), "atan", Finite(x)) == rt.atan(x)
  {
  }

  /** A radian angle expressed in degrees; a non-finite one stays non-finite. */
  function InDegrees(r: Num): Num {
    if r.Finite? then Finite(r.value * 180.0 / PI) else NonFinite
  }

  /** The runtime's arcsine undoes its sine on [-π/2, π/2]. */
  ghost predicate SineInverse(rt: Runtime) {
    forall y: real {:trigger rt.sin(y)} :: -PI / 2.0 <= y <= PI / 2.0 ==>
      rt.sin(y).Finite? && rt.asin(rt.sin(y).value) == Finite(y)
  }

  /** In DEG mode `asin(sin(x))` gives back any angle of at most 90 degrees. */
  lemma DegreeRoundTrip(env: Env, s: seq<Num>, x: real)
    requires env.mode == Deg && SineInverse(env.rt)
    requires -90.0 <= x <= 90.0
    ensures Exec(env, s + [Finite(x)], [Func("sin"), Func("asin")]) == Ok(s + [Finite(x)])
  {
    var y := x * PI / 180.0;
    assert -PI / 2.0 <= y <= PI / 2.0;
    assert LowerCase("sin") == "sin" && LowerCase("asin") == "asin";
    var v := env.rt.sin(y);
    UnaryOperand(env, s, Finite(x), "sin");
    UnaryOperand(env, s, v, "asin");
    assert y * 180.0 / PI == x;
    assert [Func("sin"), Func("asin")][1..] == [Func("asin")];
  }
}
