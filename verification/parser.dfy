/** The shunting-yard parser: infix tokens to postfix tokens, with `+ -` below `* /` below a
    right-associative `^`, function calls bound to the parenthesis that follows them, and a
    percent sign passed straight to the output as a postfix operator. */
module Parser {
  import opened Outcomes
  import opened Seqs
  import opened Tokens

  /** The precedence table; symbols outside it (such as `,`) have no precedence. */
  function Prec(c: char): Option<nat> {
    if c == '+' || c == '-' then Some(2)
    else if c == '*' || c == '/' then Some(3)
    else if c == '^' then Some(4)
    else None
  }

  predicate RightAssoc(c: char) {
    c == '^'
  }

  /** Whether an incoming operator `c` pops the stacked token `top` to the output: only a stacked
      operator is popped, only when both have a precedence, and a right-associative incoming
      operator pops strictly tighter operators only. A comparison with a missing precedence is
      false, so `,` neither pops nor is popped by an operator. */
  predicate Pops(c: char, top: Token) {
    && top.Op?
    && Prec(c).Some?
    && Prec(top.sym).Some?
    && (if RightAssoc(c) then Prec(c).value < Prec(top.sym).value
        else Prec(c).value <= Prec(top.sym).value)
  }

  /** The parser's two sequences: the output so far, and the operator stack with its top at
      the end. */
  datatype Shunt = Shunt(out: seq<Token>, ops: seq<Token>)

  /** Pop operators to the output while the incoming operator `c` pops the top. */
  function PopOps(st: Shunt, c: char): Shunt
    decreases |st.ops|
  {
    if |st.ops| > 0 && Pops(c, st.ops[|st.ops| - 1]) then
      PopOps(Shunt(st.out + [st.ops[|st.ops| - 1]], st.ops[..|st.ops| - 1]), c)
    else
      st
  }

  /** `r` is what popping for `c` leaves of `st`: a prefix of the stack whose top `c` does not
      pop; every token popped is one `c` pops, and the output gains them top first. */
  predicate PoppedFor(st: Shunt, c: char, r: Shunt) {
    && |r.ops| <= |st.ops| && r.ops == st.ops[..|r.ops|]
    && r.out == st.out + Reverse(st.ops[|r.ops|..])
    && (forall j :: |r.ops| <= j < |st.ops| ==> Pops(c, st.ops[j]))
    && (|r.ops| == 0 || !Pops(c, r.ops[|r.ops| - 1]))
  }

  lemma {:induction false} PopOpsSpec(st: Shunt, c: char)
    ensures PoppedFor(st, c, PopOps(st, c))
    decreases |st.ops|
  {
    if |st.ops| > 0 && Pops(c, st.ops[|st.ops| - 1]) {
      var next := Shunt(st.out + [st.ops[|st.ops| - 1]], st.ops[..|st.ops| - 1]);
      PopOpsSpec(next, c);
      PoppedStep(st, c, next, PopOps(next, c));
    }
  }

  /** Popping the top and then the rest pops the rest together with the top. */
  lemma PoppedStep(st: Shunt, c: char, next: Shunt, r: Shunt)
    requires 0 < |st.ops| && Pops(c, st.ops[|st.ops| - 1])
    requires next == Shunt(st.out + [st.ops[|st.ops| - 1]], st.ops[..|st.ops| - 1])
    requires PoppedFor(next, c, r)
    ensures PoppedFor(st, c, r)
  {
    ReverseSuffix(st.ops, |r.ops|);
  }

  /** When the incoming operator pops every token above position `k` and not the one just
      below it, exactly the tokens above `k` are popped. */
  lemma PopOpsExact(st: Shunt, c: char, k: nat)
    requires k <= |st.ops|
    requires forall j :: k <= j < |st.ops| ==> Pops(c, st.ops[j])
    requires k == 0 || !Pops(c, st.ops[k - 1])
    ensures PopOps(st, c) == Shunt(st.out + Reverse(st.ops[k..]), st.ops[..k])
  {
    PopOpsSpec(st, c);
  }

  /** An operator without a precedence (`,` or a fallback character) pops nothing: it goes
      straight onto the stack. */
  lemma UnrankedPushed(st: Shunt, c: char)
    requires Prec(c).None?
    ensures Step(st, Op(c)) == Shunt(st.out, st.ops + [Op(c)])
  {
    assert PopOps(st, c) == st;
  }

  /** An operator without a precedence on the stack is never popped by an incoming operator,
      so nothing beneath it is popped either. */
  lemma UnrankedBarrier(st: Shunt, c: char, k: nat)
    requires k < |st.ops| && st.ops[k].Op? && Prec(st.ops[k].sym).None?
    ensures k < |PopOps(st, c).ops|
    ensures PopOps(st, c).ops[..k + 1] == st.ops[..k + 1]
  {
    PopOpsSpec(st, c);
  }

  /** Pop tokens to the output until the top's value is "(" or the stack is empty. */
  function PopToOpen(st: Shunt): Shunt
    decreases |st.ops|
  {
    if |st.ops| > 0 && !ValueIsOpen(st.ops[|st.ops| - 1]) then
      PopToOpen(Shunt(st.out + [st.ops[|st.ops| - 1]], st.ops[..|st.ops| - 1]))
    else
      st
  }

  /** `r` is what popping to the nearest "(" leaves of `st`: a prefix of the stack that is
      empty or has an open-valued top; nothing popped was open-valued, and the output gains
      the popped tokens top first. */
  predicate PoppedToOpen(st: Shunt, r: Shunt) {
    && |r.ops| <= |st.ops| && r.ops == st.ops[..|r.ops|]
    && r.out == st.out + Reverse(st.ops[|r.ops|..])
    && (forall j :: |r.ops| <= j < |st.ops| ==> !ValueIsOpen(st.ops[j]))
    && (|r.ops| == 0 || ValueIsOpen(r.ops[|r.ops| - 1]))
  }

  lemma {:induction false} PopToOpenSpec(st: Shunt)
    ensures PoppedToOpen(st, PopToOpen(st))
    decreases |st.ops|
  {
    if |st.ops| > 0 && !ValueIsOpen(st.ops[|st.ops| - 1]) {
      var next := Shunt(st.out + [st.ops[|st.ops| - 1]], st.ops[..|st.ops| - 1]);
      PopToOpenSpec(next);
      OpenStep(st, next, PopToOpen(next));
    }
  }

  lemma OpenStep(st: Shunt, next: Shunt, r: Shunt)
    requires 0 < |st.ops| && !ValueIsOpen(st.ops[|st.ops| - 1])
    requires next == Shunt(st.out + [st.ops[|st.ops| - 1]], st.ops[..|st.ops| - 1])
    requires PoppedToOpen(next, r)
    ensures PoppedToOpen(st, r)
  {
    ReverseSuffix(st.ops, |r.ops|);
  }

  /** A closing parenthesis: pop to the nearest "(", discard it, and if a function sits right
      beneath, pop that function to the output as well. */
  function CloseParen(st: Shunt): Shunt {
    var a := PopToOpen(st);
    var b := if |a.ops| > 0 && ValueIsOpen(a.ops[|a.ops| - 1]) then Shunt(a.out, a.ops[..|a.ops| - 1]) else a;
    if |b.ops| > 0 && b.ops[|b.ops| - 1].Func? then Shunt(b.out + [b.ops[|b.ops| - 1]], b.ops[..|b.ops| - 1])
    else b
  }

  /** The parser's handling of one input token. A `name` is retagged as a variable; a token of
      a kind the parser has no branch for (a `var`) is skipped. */
  function Step(st: Shunt, t: Token): Shunt {
    match t
    case Number(_) => Shunt(st.out + [t], st.ops)
    case Name(n) => Shunt(st.out + [Var(n)], st.ops)
    case Func(_) => Shunt(st.out, st.ops + [t])
    case Op(c) =>
      var p := PopOps(st, c);
      Shunt(p.out, p.ops + [t])
    case Paren(c) => if c == '(' then Shunt(st.out, st.ops + [t]) else CloseParen(st)
    case Percent => Shunt(st.out + [Percent], st.ops)
    case Var(_) => st
  }

  function Run(st: Shunt, ts: seq<Token>): Shunt
    decreases |ts|
  {
    if |ts| == 0 then st else Run(Step(st, ts[0]), ts[1..])
  }

  /** Whatever is left on the stack at the end goes to the output, top first. */
  function Drain(st: Shunt): seq<Token> {
    st.out + Reverse(st.ops)
  }

  function ToPostfix(ts: seq<Token>): seq<Token> {
    Drain(Run(Shunt([], []), ts))
  }

  lemma RunSingle(st: Shunt, t: Token)
    ensures Run(st, [t]) == Step(st, t)
  {
    assert [t][1..] == [];
  }

  /** Reading three pieces one after another. */
  lemma RunThree(st: Shunt, a: seq<Token>, b: seq<Token>, c: seq<Token>, s1: Shunt, s2: Shunt, s3: Shunt)
    requires Run(st, a) == s1 && Run(s1, b) == s2 && Run(s2, c) == s3
    ensures Run(st, a + b + c) == s3
  {
    RunAppend(st, a + b, c);
    RunAppend(st, a, b);
  }

  lemma {:induction false} RunAppend(st: Shunt, a: seq<Token>, b: seq<Token>)
    ensures Run(st, a + b) == Run(Run(st, a), b)
    decreases |a|
  {
    if |a| == 0 {
      assert a + b == b;
    } else {
      assert (a + b)[1..] == a[1..] + b;
      RunAppend(Step(st, a[0]), a[1..], b);
    }
  }

  /** With an opening parenthesis at stack position `k` and none above it, a ')' sends the
      tokens above it to the output, top first, drops the parenthesis, and then also sends a
      function sitting directly beneath it. */
  lemma CloseMatched(st: Shunt, k: nat)
    requires k < |st.ops| && ValueIsOpen(st.ops[k])
    requires forall j :: k < j < |st.ops| ==> !ValueIsOpen(st.ops[j])
    ensures CloseParen(st) ==
      if k > 0 && st.ops[k - 1].Func? then Shunt(st.out + Reverse(st.ops[k + 1..]) + [st.ops[k - 1]], st.ops[..k - 1])
      else Shunt(st.out + Reverse(st.ops[k + 1..]), st.ops[..k])
  {
    var a := PopToOpen(st);
    PopToOpenSpec(st);
    assert |a.ops| == k + 1;
    assert a.ops[..k] == st.ops[..k];
  }

  /** With no opening parenthesis on the stack, a ')' empties the whole stack to the output. */
  lemma CloseUnmatched(st: Shunt)
    requires forall j :: 0 <= j < |st.ops| ==> !ValueIsOpen(st.ops[j])
    ensures CloseParen(st) == Shunt(st.out + Reverse(st.ops), [])
  {
    var a := PopToOpen(st);
    PopToOpenSpec(st);
    assert |a.ops| == 0;
    assert st.ops[0..] == st.ops;
  }
}

/** What the parser guarantees about its output, as properties that each parsing step keeps. */
module ParserFacts {
  import opened Seqs
  import opened Tokens
  import opened Parser

  /** The operands the parser sends straight to the output for an input token: a number, a
      name retagged as a variable, or a percent sign. */
  function Emits(t: Token): seq<Token> {
    match t
    case Number(_) => [t]
    case Name(n) => [Var(n)]
    case Percent => [Percent]
    case _ => []
  }

  function EmitsAll(ts: seq<Token>): seq<Token> {
    if |ts| == 0 then [] else Emits(ts[0]) + EmitsAll(ts[1..])
  }

  /** Whether a token is pushed onto the operator stack when it is read. */
  predicate Stacked(t: Token) {
    t.Func? || t.Op? || t == Paren('(')
  }

  predicate IsClose(t: Token) {
    t.Paren? && t.c != '('
  }

  /** A closing parenthesis splits the stack into the part kept, a function moved to the
      output, a dropped "(" and the popped part. */
  lemma CloseParts(st: Shunt)
    returns (kept: seq<Token>, moved: seq<Token>, dropped: seq<Token>, popped: seq<Token>)
    ensures st.ops == kept + moved + dropped + popped
    ensures CloseParen(st) == Shunt(st.out + Reverse(popped) + moved, kept)
    ensures moved == [] || (|moved| == 1 && moved[0].Func?)
    ensures dropped == [] || (|dropped| == 1 && ValueIsOpen(dropped[0]))
    ensures forall j :: 0 <= j < |popped| ==> !ValueIsOpen(popped[j])
    ensures dropped == [] ==> kept == [] && moved == []
  {
    var a := PopToOpen(st);
    PopToOpenSpec(st);
    var k := |a.ops|;
    popped := st.ops[k..];
    if k == 0 {
      kept, moved, dropped := [], [], [];
      EmptyAppend(a.ops, popped);
    } else {
      dropped := [a.ops[k - 1]];
      var b := a.ops[..k - 1];
      InitLast(a.ops);
      if |b| > 0 && b[|b| - 1].Func? {
        kept, moved := b[..|b| - 1], [b[|b| - 1]];
        InitLast(b);
      } else {
        kept, moved := b, [];
      }
      Regroup(st.ops, a.ops, b, kept, moved, dropped, popped);
    }
  }

  lemma Regroup(ops: seq<Token>, a: seq<Token>, b: seq<Token>, kept: seq<Token>, moved: seq<Token>, dropped: seq<Token>, popped: seq<Token>)
    requires ops == a + popped && a == b + dropped && b == kept + moved
    ensures ops == kept + moved + dropped + popped
  {
  }

  /** An operator splits the stack into the part kept and the popped part. */
  lemma OpParts(st: Shunt, c: char) returns (kept: seq<Token>, popped: seq<Token>)
    ensures st.ops == kept + popped
    ensures forall j :: 0 <= j < |popped| ==> popped[j].Op? && Prec(popped[j].sym).Some?
    ensures Step(st, Op(c)) == Shunt(st.out + Reverse(popped), kept + [Op(c)])
  {
    var p := PopOps(st, c);
    PopOpsSpec(st, c);
    kept, popped := p.ops, st.ops[|p.ops|..];
    TakeDrop(st.ops, |p.ops|);
  }

  /** How a step from `st` to `r` splits the stack: the part kept, a function moved to the
      output, a dropped "(" and the popped part. The output gains the popped part (top first),
      then the moved function, then the token's own operands. Only a ')' moves or drops
      anything; no step pops an open-valued token; a ')' that drops nothing has emptied the
      stack. */
  predicate Splits(st: Shunt, t: Token, r: Shunt, kept: seq<Token>, moved: seq<Token>, dropped: seq<Token>, popped: seq<Token>) {
    && st.ops == kept + moved + dropped + popped
    && r.out == st.out + Reverse(popped) + moved + Emits(t)
    && r.ops == kept + (if Stacked(t) then [t] else [])
    && (moved == [] || (|moved| == 1 && moved[0].Func?))
    && (dropped == [] || (|dropped| == 1 && ValueIsOpen(dropped[0])))
    && (!IsClose(t) ==> moved == [] && dropped == [])
    && (forall j :: 0 <= j < |popped| ==> !ValueIsOpen(popped[j]))
    && (IsClose(t) && dropped == [] ==> kept == [])
  }

  lemma CloseStep(st: Shunt, t: Token)
    returns (kept: seq<Token>, moved: seq<Token>, dropped: seq<Token>, popped: seq<Token>)
    requires IsClose(t)
    ensures Splits(st, t, Step(st, t), kept, moved, dropped, popped)
  {
    kept, moved, dropped, popped := CloseParts(st);
  }

  lemma OpStep(st: Shunt, c: char) returns (kept: seq<Token>, popped: seq<Token>)
    ensures Splits(st, Op(c), Step(st, Op(c)), kept, [], [], popped)
  {
    kept, popped := OpParts(st, c);
  }

  lemma OtherStep(st: Shunt, t: Token)
    requires !IsClose(t) && !t.Op?
    ensures Splits(st, t, Step(st, t), st.ops, [], [], [])
  {
  }

  lemma StepParts(st: Shunt, t: Token)
    returns (kept: seq<Token>, moved: seq<Token>, dropped: seq<Token>, popped: seq<Token>)
    ensures Splits(st, t, Step(st, t), kept, moved, dropped, popped)
  {
    if IsClose(t) {
      kept, moved, dropped, popped := CloseStep(st, t);
    } else if t.Op? {
      kept, popped := OpStep(st, t.sym);
      moved, dropped := [], [];
    } else {
      OtherStep(st, t);
      kept, moved, dropped, popped := st.ops, [], [], [];
    }
  }

  lemma {:induction false} EmitsAllAppend(a: seq<Token>, b: seq<Token>)
    ensures EmitsAll(a + b) == EmitsAll(a) + EmitsAll(b)
    decreases |a|
  {
    if |a| == 0 {
      assert a + b == b;
    } else {
      assert (a + b)[1..] == a[1..] + b;
      EmitsAllAppend(a[1..], b);
    }
  }

  /** The four parts of a split stack, position by position. */
  lemma Pieces(s: seq<Token>, a: seq<Token>, b: seq<Token>, c: seq<Token>, d: seq<Token>)
    requires s == a + b + c + d
    ensures forall j :: 0 <= j < |a| ==> a[j] == s[j]
    ensures forall j :: 0 <= j < |b| ==> b[j] == s[|a| + j]
    ensures forall j :: 0 <= j < |c| ==> c[j] == s[|a| + |b| + j]
    ensures forall j :: 0 <= j < |d| ==> d[j] == s[|a| + |b| + |c| + j]
  {
  }

  // ---- Operands: numbers, variables and percent signs keep their input order.

  predicate IsOperand(t: Token) {
    t.Number? || t.Var? || t.Percent?
  }

  function Operands(s: seq<Token>): (r: seq<Token>)
    ensures |r| <= |s|
  {
    if |s| == 0 then [] else (if IsOperand(s[0]) then [s[0]] else []) + Operands(s[1..])
  }

  lemma OperandsFront(s: seq<Token>)
    requires 0 < |s|
    ensures Operands(s) == Operands([s[0]]) + Operands(s[1..])
  {
    assert [s[0]][1..] == [];
  }

  lemma {:induction false} OperandsAppend(a: seq<Token>, b: seq<Token>)
    ensures Operands(a + b) == Operands(a) + Operands(b)
    decreases |a|
  {
    if |a| == 0 {
      EmptyAppend(a, b);
    } else {
      TailAppend(a, b);
      OperandsAppend(a[1..], b);
      OperandsFront(a);
      OperandsFront(a + b);
      AppendAssoc(Operands([a[0]]), Operands(a[1..]), Operands(b));
    }
  }

  lemma {:induction false} OperandsNone(s: seq<Token>)
    requires forall j :: 0 <= j < |s| ==> !IsOperand(s[j])
    ensures Operands(s) == []
    decreases |s|
  {
    if |s| > 0 {
      OperandsNone(s[1..]);
    }
  }

  predicate NoOperands(s: seq<Token>) {
    forall j :: 0 <= j < |s| ==> !IsOperand(s[j])
  }

  lemma SplitOperands(out: seq<Token>, popped: seq<Token>, moved: seq<Token>, e: seq<Token>)
    requires NoOperands(popped) && NoOperands(moved)
    ensures Operands(out + Reverse(popped) + moved + e) == Operands(out) + Operands(e)
  {
    OperandsNone(Reverse(popped));
    OperandsNone(moved);
    OperandsAppend(out, Reverse(popped));
    OperandsAppend(out + Reverse(popped), moved);
    OperandsAppend(out + Reverse(popped) + moved, e);
  }

  /** A step keeps operands off the stack, and the output's operands grow by exactly the
      token's own. */
  lemma StepOperands(st: Shunt, t: Token, r: Shunt, kept: seq<Token>, moved: seq<Token>, dropped: seq<Token>, popped: seq<Token>)
    requires Splits(st, t, r, kept, moved, dropped, popped)
    requires NoOperands(st.ops)
    ensures NoOperands(r.ops)
    ensures Operands(r.out) == Operands(st.out) + Emits(t)
  {
    Pieces(st.ops, kept, moved, dropped, popped);
    SplitOperands(st.out, popped, moved, Emits(t));
    assert Operands(Emits(t)) == Emits(t);
  }

  lemma {:induction false} RunOperands(st: Shunt, ts: seq<Token>)
    requires NoOperands(st.ops)
    ensures NoOperands(Run(st, ts).ops)
    ensures Operands(Run(st, ts).out) == Operands(st.out) + EmitsAll(ts)
    decreases |ts|
  {
    if |ts| > 0 {
      var kept, moved, dropped, popped := StepParts(st, ts[0]);
      StepOperands(st, ts[0], Step(st, ts[0]), kept, moved, dropped, popped);
      RunOperands(Step(st, ts[0]), ts[1..]);
    }
  }

  /** The operands reach the postfix output in input order: numbers and percent signs as
      they are, names as variables. */
  lemma OperandsInOrder(ts: seq<Token>)
    ensures Operands(ToPostfix(ts)) == EmitsAll(ts)
  {
    var st := Run(Shunt([], []), ts);
    RunOperands(Shunt([], []), ts);
    OperandsNone(Reverse(st.ops));
    OperandsAppend(st.out, Reverse(st.ops));
  }

  // ---- Shape: no `name` and no closing parenthesis ever reaches the output.

  /** A `name` (the parser retags it as a variable) or a closing parenthesis (the parser
      consumes it). */
  predicate NeverOutput(t: Token) {
    t.Name? || IsClose(t)
  }

  predicate Clean(s: seq<Token>) {
    forall j :: 0 <= j < |s| ==> !NeverOutput(s[j])
  }

  lemma StepClean(st: Shunt, t: Token, r: Shunt, kept: seq<Token>, moved: seq<Token>, dropped: seq<Token>, popped: seq<Token>)
    requires Splits(st, t, r, kept, moved, dropped, popped)
    requires Clean(st.out) && Clean(st.ops)
    ensures Clean(r.out) && Clean(r.ops)
  {
    Pieces(st.ops, kept, moved, dropped, popped);
    assert Clean(Reverse(popped));
  }

  lemma {:induction false} RunClean(st: Shunt, ts: seq<Token>)
    requires Clean(st.out) && Clean(st.ops)
    ensures Clean(Run(st, ts).out) && Clean(Run(st, ts).ops)
    decreases |ts|
  {
    if |ts| > 0 {
      var kept, moved, dropped, popped := StepParts(st, ts[0]);
      StepClean(st, ts[0], Step(st, ts[0]), kept, moved, dropped, popped);
      RunClean(Step(st, ts[0]), ts[1..]);
    }
  }

  /** No `name` and no closing parenthesis appears in the postfix output. */
  lemma PostfixClean(ts: seq<Token>)
    ensures Clean(ToPostfix(ts))
  {
    var st := Run(Shunt([], []), ts);
    RunClean(Shunt([], []), ts);
    assert Clean(Reverse(st.ops));
  }

  // ---- Operators: every function and operator read is output exactly once.

  predicate IsOperator(t: Token) {
    t.Func? || t.Op?
  }

  /** An operator or function whose value is not "(", so the parser's "(" test never takes it
      for a parenthesis. Every token the tokenizer produces is plain. */
  predicate Plain(t: Token) {
    IsOperator(t) ==> !ValueIsOpen(t)
  }

  predicate AllPlain(s: seq<Token>) {
    forall j :: 0 <= j < |s| ==> Plain(s[j])
  }

  /** Counting a token across four concatenated parts. */
  lemma Count4(a: seq<Token>, b: seq<Token>, c: seq<Token>, d: seq<Token>, x: Token)
    ensures Count(a + b + c + d, x) == Count(a, x) + Count(b, x) + Count(c, x) + Count(d, x)
  {
    CountAppend(a, b, x);
    CountAppend(a + b, c, x);
    CountAppend(a + b + c, d, x);
  }

  /** The output after a step counts what it counted before plus the popped and moved parts
      and the emitted operands. */
  lemma OutCount(out: seq<Token>, popped: seq<Token>, moved: seq<Token>, e: seq<Token>, x: Token)
    ensures Count(out + Reverse(popped) + moved + e, x) == Count(out, x) + Count(popped, x) + Count(moved, x) + Count(e, x)
  {
    Count4(out, Reverse(popped), moved, e, x);
    CountReverse(popped, x);
  }

  /** Across a split step the output gains the counts of the popped and moved parts and of
      the emitted operands. */
  lemma SplitOutCount(st: Shunt, t: Token, r: Shunt, kept: seq<Token>, moved: seq<Token>, dropped: seq<Token>, popped: seq<Token>, x: Token)
    requires Splits(st, t, r, kept, moved, dropped, popped)
    ensures Count(r.out, x) == Count(st.out, x) + Count(popped, x) + Count(moved, x) + Count(Emits(t), x)
  {
    OutCount(st.out, popped, moved, Emits(t), x);
  }

  lemma SplitStackCount(st: Shunt, t: Token, r: Shunt, kept: seq<Token>, moved: seq<Token>, dropped: seq<Token>, popped: seq<Token>, x: Token)
    requires Splits(st, t, r, kept, moved, dropped, popped)
    ensures Count(st.ops, x) == Count(kept, x) + Count(moved, x) + Count(dropped, x) + Count(popped, x)
  {
    Count4(kept, moved, dropped, popped, x);
  }

  /** After a split step the stack holds the kept part and the token, if it is stacked. */
  lemma SplitPushCount(st: Shunt, t: Token, r: Shunt, kept: seq<Token>, moved: seq<Token>, dropped: seq<Token>, popped: seq<Token>, x: Token)
    requires Splits(st, t, r, kept, moved, dropped, popped)
    ensures Count(r.ops, x) == Count(kept, x) + (if Stacked(t) && t == x then 1 else 0)
  {
    CountAppend(kept, if Stacked(t) then [t] else [], x);
  }

  /** A step moves an operator `x` between stack and output without losing or duplicating
      it, and adds one when the token read is `x`. */
  lemma StepOperators(st: Shunt, t: Token, r: Shunt, kept: seq<Token>, moved: seq<Token>, dropped: seq<Token>, popped: seq<Token>, x: Token)
    requires Splits(st, t, r, kept, moved, dropped, popped)
    requires AllPlain(st.ops) && Plain(t) && IsOperator(x)
    ensures AllPlain(r.ops)
    ensures Count(r.out, x) + Count(r.ops, x) == Count(st.out, x) + Count(st.ops, x) + (if t == x then 1 else 0)
  {
    SplitPlain(st, t, r, kept, moved, dropped, popped);
    SplitOutCount(st, t, r, kept, moved, dropped, popped, x);
    SplitStackCount(st, t, r, kept, moved, dropped, popped, x);
    SplitPushCount(st, t, r, kept, moved, dropped, popped, x);
    CountNone(dropped, x);
    EmitsNoOperator(t, x);
  }

  /** A step keeps the stack plain, and the "(" it drops is no operator. */
  lemma SplitPlain(st: Shunt, t: Token, r: Shunt, kept: seq<Token>, moved: seq<Token>, dropped: seq<Token>, popped: seq<Token>)
    requires Splits(st, t, r, kept, moved, dropped, popped)
    requires AllPlain(st.ops) && Plain(t)
    ensures AllPlain(r.ops)
    ensures forall j :: 0 <= j < |dropped| ==> !IsOperator(dropped[j])
  {
    PlainParts(kept, moved, dropped, popped);
    PlainPush(kept, if Stacked(t) then [t] else []);
  }

  lemma PlainParts(a: seq<Token>, b: seq<Token>, c: seq<Token>, d: seq<Token>)
    requires AllPlain(a + b + c + d)
    ensures AllPlain(a) && AllPlain(c)
  {
    Pieces(a + b + c + d, a, b, c, d);
  }

  lemma PlainPush(a: seq<Token>, b: seq<Token>)
    requires AllPlain(a) && AllPlain(b)
    ensures AllPlain(a + b)
  {
  }

  lemma EmitsNoOperator(t: Token, x: Token)
    requires IsOperator(x)
    ensures Count(Emits(t), x) == 0
  {
    if Emits(t) != [] {
      assert Emits(t) == [Emits(t)[0]];
      CountNone(Emits(t), x);
    }
  }

  lemma {:induction false} RunOperators(st: Shunt, ts: seq<Token>, x: Token)
    requires AllPlain(st.ops) && AllPlain(ts) && IsOperator(x)
    ensures AllPlain(Run(st, ts).ops)
    ensures Count(Run(st, ts).out, x) + Count(Run(st, ts).ops, x)
         == Count(st.out, x) + Count(st.ops, x) + Count(ts, x)
    decreases |ts|
  {
    if |ts| > 0 {
      var kept, moved, dropped, popped := StepParts(st, ts[0]);
      StepOperators(st, ts[0], Step(st, ts[0]), kept, moved, dropped, popped, x);
      RunOperators(Step(st, ts[0]), ts[1..], x);
    }
  }

  /** The postfix output holds every function and operator of the input exactly as often as
      the input does. */
  lemma OperatorsConserved(ts: seq<Token>, x: Token)
    requires AllPlain(ts) && IsOperator(x)
    ensures Count(ToPostfix(ts), x) == Count(ts, x)
  {
    var st := Run(Shunt([], []), ts);
    RunOperators(Shunt([], []), ts, x);
    CountAppend(st.out, Reverse(st.ops), x);
    CountReverse(st.ops, x);
  }

  // ---- Parentheses: only the unmatched "(" survive into the output.

  /** The count of open parentheses after a token: a ')' closes one if any is open. */
  function Deepen(d: nat, t: Token): nat {
    if t == Paren('(') then d + 1
    else if IsClose(t) then (if d == 0 then 0 else d - 1)
    else d
  }

  /** The number of "(" left unclosed after reading `ts` with `d` already open. */
  function Unclosed(d: nat, ts: seq<Token>): nat
    decreases |ts|
  {
    if |ts| == 0 then d else Unclosed(Deepen(d, ts[0]), ts[1..])
  }

  /** What the parser keeps on its stack: functions, operators and "(". */
  predicate OnStack(t: Token) {
    Stacked(t) && Plain(t)
  }

  lemma OpenOnStack(t: Token)
    requires OnStack(t) && ValueIsOpen(t)
    ensures t == Paren('(')
  {
  }

  predicate StackShaped(s: seq<Token>) {
    forall j :: 0 <= j < |s| ==> OnStack(s[j])
  }

  /** A step keeps only functions, operators and "(" on the stack. */
  lemma StepShaped(st: Shunt, t: Token, r: Shunt, kept: seq<Token>, moved: seq<Token>, dropped: seq<Token>, popped: seq<Token>)
    requires Splits(st, t, r, kept, moved, dropped, popped)
    requires StackShaped(st.ops) && Plain(t)
    ensures StackShaped(r.ops)
  {
    Pieces(st.ops, kept, moved, dropped, popped);
  }

  /** The dropped part of a shaped stack is a "(" if anything. */
  lemma DroppedOpen(st: Shunt, t: Token, r: Shunt, kept: seq<Token>, moved: seq<Token>, dropped: seq<Token>, popped: seq<Token>)
    requires Splits(st, t, r, kept, moved, dropped, popped)
    requires StackShaped(st.ops)
    ensures dropped == [] || dropped == [Paren('(')]
  {
    if dropped != [] {
      Pieces(st.ops, kept, moved, dropped, popped);
      OpenOnStack(dropped[0]);
    }
  }

  /** A step keeps no "(" in the output, and the stack holds as many "(" as are open. */
  lemma StepOpens(st: Shunt, t: Token, r: Shunt, kept: seq<Token>, moved: seq<Token>, dropped: seq<Token>, popped: seq<Token>, d: nat)
    requires Splits(st, t, r, kept, moved, dropped, popped)
    requires StackShaped(st.ops)
    requires Count(st.out, Paren('(')) == 0 && Count(st.ops, Paren('(')) == d
    ensures Count(r.out, Paren('(')) == 0
    ensures Count(r.ops, Paren('(')) == Deepen(d, t)
  {
    DroppedOpen(st, t, r, kept, moved, dropped, popped);
    SplitOutCount(st, t, r, kept, moved, dropped, popped, Paren('('));
    SplitStackCount(st, t, r, kept, moved, dropped, popped, Paren('('));
    SplitPushCount(st, t, r, kept, moved, dropped, popped, Paren('('));
    CountNone(popped, Paren('('));
    CountNone(moved, Paren('('));
    assert Emits(t) == [] || Emits(t) == [Emits(t)[0]];
    CountNone(Emits(t), Paren('('));
  }

  lemma {:induction false} RunOpens(st: Shunt, ts: seq<Token>, d: nat)
    requires StackShaped(st.ops) && AllPlain(ts)
    requires Count(st.out, Paren('(')) == 0 && Count(st.ops, Paren('(')) == d
    ensures Count(Run(st, ts).out, Paren('(')) == 0
    ensures Count(Run(st, ts).ops, Paren('(')) == Unclosed(d, ts)
    decreases |ts|
  {
    if |ts| > 0 {
      var kept, moved, dropped, popped := StepParts(st, ts[0]);
      StepShaped(st, ts[0], Step(st, ts[0]), kept, moved, dropped, popped);
      StepOpens(st, ts[0], Step(st, ts[0]), kept, moved, dropped, popped, d);
      RunOpens(Step(st, ts[0]), ts[1..], Deepen(d, ts[0]));
    }
  }

  /** Every "(" in the postfix output is one the input never closed; a closed one is consumed
      by its ')'. */
  lemma UnclosedOpens(ts: seq<Token>)
    requires AllPlain(ts)
    ensures Count(ToPostfix(ts), Paren('(')) == Unclosed(0, ts)
  {
    var st := Run(Shunt([], []), ts);
    RunOpens(Shunt([], []), ts, 0);
    CountAppend(st.out, Reverse(st.ops), Paren('('));
    CountReverse(st.ops, Paren('('));
  }
}
