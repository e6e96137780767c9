/** The calculator's state and its keys: the action keys of `handleAction`, the token keys of
    `handleToken`, and the calculation that `performCalc` and `safeEvalResult` run on the
    current expression. */
module Calculator {
  import opened Outcomes
  import opened Chars
  import opened Numbers
  import opened Evaluator
  import opened Grammar
  import opened Calculation

  /** The state variables: the expression being typed, the last answer, the memory, the
      SHIFT and ALPHA latches, the angle unit, and the text of the result display. */
  datatype State = State(
    expression: string, ans: real, memory: real,
    shift: bool, alpha: bool, drg: AngleMode, result: string)

  /** The state after start-up, which ends by clearing everything. */
  const Start: State := State("", 0.0, 0.0, false, false, Deg, "0")

  /** What the evaluator reads from the state: the angle unit and the last answer. */
  function EnvOf(st: State, rt: Runtime): Env {
    Env(st.drg, st.ans, rt)
  }

  function AllClear(st: State): (r: State)
    ensures r.expression == "" && r.result == "0"
    ensures r.(expression := st.expression, result := st.result) == st
  {
    st.(expression := "", result := "0")
  }

  /** `expression.slice(0, -1)`: the expression without its last character, and still empty
      when it is empty. */
  function DeleteLast(st: State): (r: State)
    ensures |st.expression| == 0 ==> r.expression == ""
    ensures |st.expression| > 0 ==> r.expression + [st.expression[|st.expression| - 1]] == st.expression
    ensures r.(expression := st.expression) == st
  {
    var e := st.expression;
    st.(expression := if |e| == 0 then "" else e[..|e| - 1])
  }

  function AppendExpr(st: State, s: string): (r: State)
    ensures |r.expression| == |st.expression| + |s|
    ensures r.expression[..|st.expression|] == st.expression
    ensures r.expression[|st.expression|..] == s
    ensures r.(expression := st.expression) == st
  {
    st.(expression := st.expression + s)
  }

  /** `safeEvalResult`: the value of the expression, or 0 when it does not calculate. */
  function SafeEval(st: State, rt: Runtime): (v: real)
    ensures Calculate(EnvOf(st, rt), st.expression).Ok? ==> Calculate(EnvOf(st, rt), st.expression) == Ok(Finite(v))
    ensures Calculate(EnvOf(st, rt), st.expression).Err? ==> v == 0.0
  {
    match Calculate(EnvOf(st, rt), st.expression)
    case Ok(n) => n.value
    case Err(_) => 0.0
  }

  /** The result display: the exponential form for a non-zero magnitude below 1e-9 or from
      1e10 up, the rounded form otherwise. */
  function Format(rt: Runtime, x: real): string {
    var m := if x < 0.0 then -x else x;
    if m != 0.0 && (m < 0.000000001 || m >= 10000000000.0) then rt.exponential(x) else rt.rounded(x)
  }

  /** The format by range: zero and the magnitudes from 1e-9 up to 1e10 are rounded, the
      others are exponential, whatever the sign. */
  lemma FormatRanges(rt: Runtime, x: real)
    ensures x == 0.0 ==> Format(rt, x) == rt.rounded(x)
    ensures 0.0 < x < 0.000000001 || -0.000000001 < x < 0.0 ==> Format(rt, x) == rt.exponential(x)
    ensures 0.000000001 <= x < 10000000000.0 || -10000000000.0 < x <= -0.000000001 ==> Format(rt, x) == rt.rounded(x)
    ensures x >= 10000000000.0 || x <= -10000000000.0 ==> Format(rt, x) == rt.exponential(x)
    ensures Format(rt, x) == rt.exponential(x) || Format(rt, x) == rt.rounded(x)
  {
  }

  /** `performCalc`: a value becomes the answer and is shown; a failure shows "Error" and keeps
      the previous answer. */
  function PerformCalc(st: State, rt: Runtime): (r: State)
    ensures r.expression == st.expression && r.memory == st.memory
    ensures r.shift == st.shift && r.alpha == st.alpha && r.drg == st.drg
    ensures Calculate(EnvOf(st, rt), st.expression).Err? ==> r.ans == st.ans && r.result == "Error"
    ensures Calculate(EnvOf(st, rt), st.expression).Ok? ==>
      Calculate(EnvOf(st, rt), st.expression) == Ok(Finite(r.ans)) && r.result == Format(rt, r.ans)
  {
    match Calculate(EnvOf(st, rt), st.expression)
    case Ok(n) => st.(result := Format(rt, n.value), ans := n.value)
    case Err(_) => st.(result := "Error")
  }

  /** The keys `handleAction` knows, by their `data-action` names; any other name is
      `Unknown`. */
  datatype Action =
    | ShiftKey | AlphaKey | ModeKey | OnKey | DelKey | AcKey | AnsKey | ExpKey | RclKey
    | MPlusKey | MMinusKey | MrKey | DrgKey | RndKey | CalcKey | Unknown(name: string)

  function ActionOf(name: string): Action {
    match name
    case "shift" => ShiftKey
    case "alpha" => AlphaKey
    case "mode" => ModeKey
    case "on" => OnKey
    case "del" => DelKey
    case "ac" => AcKey
    case "ans" => AnsKey
    case "exp" => ExpKey
    case "rcl" => RclKey
    case "mplus" => MPlusKey
    case "mminus" => MMinusKey
    case "mr" => MrKey
    case "drg" => DrgKey
    case "rnd" => RndKey
    case "calc" => CalcKey
    case _ => Unknown(name)
  }

  /** `handleAction`. `roll` is the text of the random draw the `rnd` key appends
      (`Math.random().toFixed(8)`), which comes from outside the model. MODE only raises an
      alert and an unknown action is only logged, so neither changes the state. */
  function HandleAction(st: State, action: Action, rt: Runtime, roll: string): State {
    match action
    case ShiftKey => st.(shift := !st.shift, alpha := false)
    case AlphaKey => st.(alpha := !st.alpha, shift := false)
    case ModeKey => st
    case OnKey => AllClear(st)
    case DelKey => DeleteLast(st)
    case AcKey => AllClear(st)
    case AnsKey => AppendExpr(st, rt.show(st.ans))
    case ExpKey => AppendExpr(st, "E")
    case RclKey => AppendExpr(st, rt.show(st.memory))
    case MPlusKey => Remember(st, SafeEval(st, rt))
    case MMinusKey => Remember(st, -SafeEval(st, rt))
    case MrKey => AppendExpr(st, rt.show(st.memory))
    case DrgKey => st.(drg := if st.drg == Deg then Rad else Deg)
    case RndKey => AppendExpr(st, roll)
    case CalcKey => PerformCalc(st, rt)
    case Unknown(_) => st
  }

  /** The memory moved by `delta`; M- subtracts by adding the negated value. */
  function Remember(st: State, delta: real): State {
    st.(memory := st.memory + delta)
  }

  /** `handleToken`. `alt` is the key's SHIFT text (its `data-shift`), empty when it has none:
      with SHIFT latched it is typed instead and releases SHIFT. */
  function HandleToken(st: State, token: string, alt: string): State {
    if st.shift && alt != "" then AppendExpr(st, alt).(shift := false)
    else AppendExpr(st, token)
  }

  /** A click on a key: its action if it has one, else its token, else nothing. */
  function Click(st: State, action: string, token: string, alt: string, rt: Runtime, roll: string): State {
    if action != "" then HandleAction(st, ActionOf(action), rt, roll)
    else if token != "" then HandleToken(st, token, alt)
    else st
  }

  // ---- What the keys promise.

  /** SHIFT and ALPHA are never latched together. */
  predicate Latches(st: State) {
    !(st.shift && st.alpha)
  }

  /** Every click keeps SHIFT and ALPHA apart, from start-up on. */
  lemma ClickKeepsLatches(st: State, action: string, token: string, alt: string, rt: Runtime, roll: string)
    requires Latches(st)
    ensures Latches(Start)
    ensures Latches(Click(st, action, token, alt, rt, roll))
  {
  }

  /** A latched SHIFT is used up by the next key that has a SHIFT text, which is typed in place
      of the key's own token; without SHIFT the key's own token is typed. */
  lemma ShiftedToken(st: State, token: string, alt: string)
    ensures var r := HandleToken(st, token, alt);
      && (st.shift && alt != "" ==> r.expression == st.expression + alt && !r.shift)
      && (!st.shift || alt == "" ==> r.expression == st.expression + token && r.shift == st.shift)
      && r.alpha == st.alpha && r.ans == st.ans && r.memory == st.memory && r.drg == st.drg
      && r.result == st.result
  {
  }

  /** DEL takes back the character a key has just typed, unless SHIFT chose a longer
      alternative. */
  lemma DeleteUndoesKey(st: State, c: char, alt: string, rt: Runtime, roll: string)
    requires !st.shift || alt == ""
    ensures HandleAction(HandleToken(st, [c], alt), DelKey, rt, roll) == st
  {
    var t := HandleToken(st, [c], alt);
    assert t.expression == st.expression + [c];
    assert t.expression[..|t.expression| - 1] == st.expression;
  }

  /** The value M+ and M- use depends on the expression, the answer and the angle unit only. */
  lemma SafeEvalFrame(st: State, other: State, rt: Runtime)
    requires other.expression == st.expression && other.ans == st.ans && other.drg == st.drg
    ensures SafeEval(other, rt) == SafeEval(st, rt)
  {
    assert EnvOf(other, rt) == EnvOf(st, rt);
  }

  /** M+ adds the value of the expression to the memory and M- takes it away. */
  lemma MemoryKeys(st: State, rt: Runtime, roll: string, v: real)
    requires Calculate(EnvOf(st, rt), st.expression) == Ok(Finite(v))
    ensures HandleAction(st, MPlusKey, rt, roll) == st.(memory := st.memory + v)
    ensures HandleAction(st, MMinusKey, rt, roll) == st.(memory := st.memory - v)
  {
    PlusUpdate(st, rt, roll, MPlusKey);
    MinusUpdate(st, rt, roll, MMinusKey);
  }

  /** M+ and M- change nothing when the expression does not calculate. */
  lemma MemoryKeysFail(st: State, rt: Runtime, roll: string)
    requires Calculate(EnvOf(st, rt), st.expression).Err?
    ensures HandleAction(st, MPlusKey, rt, roll) == st
    ensures HandleAction(st, MMinusKey, rt, roll) == st
  {
    PlusUpdate(st, rt, roll, MPlusKey);
    MinusUpdate(st, rt, roll, MMinusKey);
  }

  lemma PlusUpdate(st: State, rt: Runtime, roll: string, a: Action)
    requires a == MPlusKey
    ensures HandleAction(st, a, rt, roll) == Remember(st, SafeEval(st, rt))
  {
  }

  lemma MinusUpdate(st: State, rt: Runtime, roll: string, a: Action)
    requires a == MMinusKey
    ensures HandleAction(st, a, rt, roll) == Remember(st, -SafeEval(st, rt))
  {
  }

  /** M+ followed by M- leaves the memory as it was. */
  lemma MemoryRoundTrip(st: State, rt: Runtime, roll: string)
    ensures HandleAction(HandleAction(st, MPlusKey, rt, roll), MMinusKey, rt, roll) == st
  {
    var m := HandleAction(st, MPlusKey, rt, roll);
    SafeEvalFrame(st, m, rt);
  }

  /** DRG switches the angle unit and nothing else; twice is no change. */
  lemma DrgTwice(st: State, rt: Runtime, roll: string)
    ensures HandleAction(HandleAction(st, DrgKey, rt, roll), DrgKey, rt, roll) == st
    ensures HandleAction(st, DrgKey, rt, roll).drg != st.drg
    ensures HandleAction(st, DrgKey, rt, roll).(drg := st.drg) == st
  {
  }

  /** SHIFT and ALPHA each flip their own latch and release the other. */
  lemma LatchKeys(st: State, rt: Runtime, roll: string)
    ensures var r := HandleAction(st, ShiftKey, rt, roll);
      r.shift == !st.shift && !r.alpha && r.(shift := st.shift, alpha := st.alpha) == st
    ensures var r := HandleAction(st, AlphaKey, rt, roll);
      r.alpha == !st.alpha && !r.shift && r.(shift := st.shift, alpha := st.alpha) == st
  {
  }

  /** Ans, RCL and MR type the text of a stored value and leave the stored values alone. */
  lemma RecallKeys(st: State, rt: Runtime, roll: string)
    ensures HandleAction(st, AnsKey, rt, roll) == st.(expression := st.expression + rt.show(st.ans))
    ensures HandleAction(st, RclKey, rt, roll) == st.(expression := st.expression + rt.show(st.memory))
    ensures HandleAction(st, MrKey, rt, roll) == st.(expression := st.expression + rt.show(st.memory))
  {
  }

  /** AC and ON empty the expression and the display and keep the answer and the memory. */
  lemma ClearKeys(st: State, rt: Runtime, roll: string)
    ensures var r := HandleAction(st, AcKey, rt, roll);
      r.expression == "" && r.result == "0" && r.ans == st.ans && r.memory == st.memory
    ensures HandleAction(st, OnKey, rt, roll) == HandleAction(st, AcKey, rt, roll)
  {
  }

  /** After a successful calculation, the name `Ans` calculates to the value just shown. */
  lemma AnswerRecalled(st: State, rt: Runtime)
    requires Calculate(EnvOf(st, rt), st.expression).Ok?
    ensures Calculate(EnvOf(PerformCalc(st, rt), rt), "Ans") == Calculate(EnvOf(st, rt), st.expression)
  {
    AnsValue(EnvOf(PerformCalc(st, rt), rt));
  }

  /** The name `Ans` calculates to the answer the environment holds. */
  lemma AnsValue(env: Env)
    ensures Calculate(env, "Ans") == Ok(Finite(env.ans))
  {
    var e := Ref("Ans");
    AnsText();
    assert UpperCase("Ans") == "ANS";
    CalculatesValue(env, e);
  }

  lemma AnsText()
    ensures Tokens.RenderAll(Print(Ref("Ans"))) == "Ans"
  {
    assert Print(Ref("Ans")) == [Tokens.Name("Ans")];
    Tokenizer.RenderOne(Tokens.Name("Ans"));
  }

  /** With a fitting expression typed in, `=` shows and keeps its value, or shows "Error"
      when the value is not finite. */
  lemma CalcShowsValue(st: State, e: Expr, rt: Runtime)
    requires Fits(e) && Leaves(e) && st.expression == Tokens.RenderAll(Print(e))
    ensures var r := PerformCalc(st, rt);
      var v := Value(EnvOf(st, rt), e);
      && (v.Finite? ==> r.ans == v.value && r.result == Format(rt, v.value))
      && (v.NonFinite? ==> r.ans == st.ans && r.result == "Error")
  {
    CalculatesValue(EnvOf(st, rt), e);
  }
}
