/** The tokenizer: whitespace is removed, then the text is cut into tokens front to back, each
    step taking the first rule that matches: numeral, letter run (a function name when a '('
    follows), parenthesis, an arithmetic operator or comma, '%', the root glyph, and otherwise any single
    character as an operator. */
module Tokenizer {
  import opened Chars
  import opened Numerals
  import opened Tokens

  /** Length of the longest run of ASCII letters at the front of `s`. */
  function LetterRun(s: string): (n: nat)
    ensures n <= |s|
    ensures forall i :: 0 <= i < n ==> IsLetter(s[i])
    ensures n < |s| ==> !IsLetter(s[n])
  {
    if |s| > 0 && IsLetter(s[0]) then 1 + LetterRun(s[1..]) else 0
  }

  lemma LetterRunIs(s: string, n: nat)
    requires n <= |s|
    requires forall i :: 0 <= i < n ==> IsLetter(s[i])
    requires n < |s| ==> !IsLetter(s[n])
    ensures LetterRun(s) == n
  {
  }

  /** One step of the token loop: the tokens taken from the front of `s` and how many
      characters they consume. */
  datatype Cut = Cut(tokens: seq<Token>, len: nat)

  function NextCut(s: string): (c: Cut)
    requires 0 < |s|
    ensures 0 < c.len <= |s|
  {
    var n := ScanNumber(s);
    if n > 0 then Cut([Number(s[..n])], n)
    else
      var k := LetterRun(s);
      if k > 0 then
        if k < |s| && s[k] == '(' then Cut([Func(s[..k]), Paren('(')], k + 1)
        else Cut([Name(s[..k])], k)
      else if s[0] == '(' || s[0] == ')' then Cut([Paren(s[0])], 1)
      else if s[0] in "+-*/^," then Cut([Op(s[0])], 1)
      else if s[0] == '%' then Cut([Percent], 1)
      else if s[0] == Root then Cut([Func("sqrt")], 1)
      else Cut([Op(s[0])], 1)
  }

  /** The token loop on text that is already free of whitespace; every step consumes at least
      one character. */
  function Lex(s: string): seq<Token>
    decreases |s|
  {
    if |s| == 0 then []
    else
      var c := NextCut(s);
      c.tokens + Lex(s[c.len..])
  }

  /** `tokenize`: total on every input. */
  function Tokenize(input: string): seq<Token> {
    Lex(Strip(input))
  }

  /** The text with the root glyph written out as the function name it stands for. */
  function Expand(s: string): string {
    if |s| == 0 then "" else (if s[0] == Root then "sqrt" else [s[0]]) + Expand(s[1..])
  }

  lemma {:induction false} ExpandAppend(a: string, b: string)
    ensures Expand(a + b) == Expand(a) + Expand(b)
    decreases |a|
  {
    if |a| == 0 {
      assert a + b == b;
    } else {
      assert (a + b)[1..] == a[1..] + b;
      ExpandAppend(a[1..], b);
    }
  }

  lemma {:induction false} ExpandKeeps(s: string)
    requires forall i :: 0 <= i < |s| ==> s[i] != Root
    ensures Expand(s) == s
    decreases |s|
  {
    if |s| > 0 {
      ExpandKeeps(s[1..]);
    }
  }

  lemma RenderOne(t: Token)
    ensures RenderAll([t]) == Render(t)
  {
    assert [t][1..] == [];
  }

  lemma RenderCall(f: string)
    ensures RenderAll([Func(f), Paren('(')]) == f + "("
  {
    assert [Func(f), Paren('(')][1..] == [Paren('(')];
    RenderOne(Paren('('));
  }

  /** One step spells exactly the characters it consumes. */
  lemma CutSpells(s: string)
    requires 0 < |s|
    ensures RenderAll(NextCut(s).tokens) == Expand(s[..NextCut(s).len])
  {
    if ScanNumber(s) > 0 {
      NumberCut(s);
      NumberSpells(s, ScanNumber(s), NextCut(s).tokens);
    } else if LetterRun(s) > 0 {
      LettersCut(s);
      LettersSpell(s, LetterRun(s), NextCut(s).tokens);
    } else {
      OtherCut(s);
      OtherSpells(s, NextCut(s).tokens);
    }
  }

  lemma NumberCut(s: string)
    requires ScanNumber(s) > 0
    ensures NextCut(s) == Cut([Number(s[..ScanNumber(s)])], ScanNumber(s))
  {
  }

  lemma NumberSpells(s: string, n: nat, ts: seq<Token>)
    requires n <= |s| && forall i :: 0 <= i < n ==> IsNumeralChar(s[i])
    requires ts == [Number(s[..n])]
    ensures RenderAll(ts) == Expand(s[..n])
  {
    ExpandKeeps(s[..n]);
    RenderOne(Number(s[..n]));
  }

  lemma LettersSpell(s: string, k: nat, ts: seq<Token>)
    requires 0 < k <= |s| && forall i :: 0 <= i < k ==> IsLetter(s[i])
    requires ts == if k < |s| && s[k] == '(' then [Func(s[..k]), Paren('(')] else [Name(s[..k])]
    ensures RenderAll(ts) == Expand(s[..if k < |s| && s[k] == '(' then k + 1 else k])
  {
    if k < |s| && s[k] == '(' {
      CallText(s, k);
      ExpandKeeps(s[..k + 1]);
      RenderCall(s[..k]);
    } else {
      ExpandKeeps(s[..k]);
      RenderOne(Name(s[..k]));
    }
  }

  lemma CallText(s: string, k: nat)
    requires k < |s| && s[k] == '('
    ensures s[..k + 1] == s[..k] + "("
  {
  }

  lemma OtherSpells(s: string, ts: seq<Token>)
    requires 0 < |s| && !IsDigit(s[0]) && !IsLetter(s[0])
    requires ts == [OtherToken(s[0])]
    ensures RenderAll(ts) == Expand(s[..1])
  {
    RenderOne(OtherToken(s[0]));
    ExpandOne(s);
  }

  lemma ExpandOne(s: string)
    requires 0 < |s|
    ensures Expand(s[..1]) == if s[0] == Root then "sqrt" else [s[0]]
  {
    assert s[..1][1..] == [];
  }

  lemma SplitAt(s: string, n: nat)
    requires n <= |s|
    ensures s[..n] + s[n..] == s
  {
  }

  lemma SpellStep(s: string, n: nat, head: seq<Token>, tail: seq<Token>)
    requires n <= |s|
    requires RenderAll(head) == Expand(s[..n]) && RenderAll(tail) == Expand(s[n..])
    ensures RenderAll(head + tail) == Expand(s)
  {
    RenderAllAppend(head, tail);
    ExpandAppend(s[..n], s[n..]);
    SplitAt(s, n);
  }

  /** No character is dropped or invented: the tokens spell out the text they were cut from,
      the root glyph reading as `sqrt`. */
  lemma {:induction false} LexSpells(s: string)
    ensures RenderAll(Lex(s)) == Expand(s)
    decreases |s|
  {
    if |s| > 0 {
      var c := NextCut(s);
      LexUnfold(s);
      CutSpells(s);
      LexSpells(s[c.len..]);
      SpellStep(s, c.len, c.tokens, Lex(s[c.len..]));
    }
  }

  /** A step on whitespace-free text produces tokens of the shape `Lexical` describes. */
  lemma CutLexical(s: string)
    requires 0 < |s| && NoSpaces(s)
    ensures forall t <- NextCut(s).tokens :: Lexical(t)
  {
    if ScanNumber(s) > 0 {
      NumberCutLexical(s);
    } else if LetterRun(s) > 0 {
      LettersCutLexical(s);
    } else {
      OtherCutLexical(s);
    }
  }

  lemma NumberCutLexical(s: string)
    requires ScanNumber(s) > 0
    ensures forall t <- NextCut(s).tokens :: Lexical(t)
  {
    ScanPrefix(s);
  }

  lemma LettersCutLexical(s: string)
    requires 0 < |s| && ScanNumber(s) == 0 && LetterRun(s) > 0
    ensures forall t <- NextCut(s).tokens :: Lexical(t)
  {
    LettersCut(s);
    LettersLexical(s, LetterRun(s), NextCut(s).tokens);
  }

  lemma LettersCut(s: string)
    requires 0 < |s| && ScanNumber(s) == 0 && LetterRun(s) > 0
    ensures var k := LetterRun(s);
      NextCut(s) == if k < |s| && s[k] == '(' then Cut([Func(s[..k]), Paren('(')], k + 1) else Cut([Name(s[..k])], k)
  {
  }

  lemma LettersLexical(s: string, k: nat, ts: seq<Token>)
    requires 0 < k <= |s| && forall i :: 0 <= i < k ==> IsLetter(s[i])
    requires ts == if k < |s| && s[k] == '(' then [Func(s[..k]), Paren('(')] else [Name(s[..k])]
    ensures forall t <- ts :: Lexical(t)
  {
    assert IsLetters(s[..k]);
  }

  lemma OtherCutLexical(s: string)
    requires 0 < |s| && NoSpaces(s) && ScanNumber(s) == 0 && LetterRun(s) == 0
    ensures forall t <- NextCut(s).tokens :: Lexical(t)
  {
    OtherCut(s);
    OtherLexical(s[0], NextCut(s).tokens);
  }

  lemma OtherCut(s: string)
    requires 0 < |s| && ScanNumber(s) == 0 && LetterRun(s) == 0
    ensures NextCut(s) == Cut([OtherToken(s[0])], 1)
  {
    var c := s[0];
    if c in "+-*/^," {
      OperatorGlyph(c);
    }
  }

  lemma OperatorGlyph(c: char)
    requires c in "+-*/^,"
    ensures c != '(' && c != ')' && c != '%' && c != Root
  {
  }

  /** The token a character that starts neither a numeral nor a letter run becomes. */
  function OtherToken(c: char): Token {
    if c == '(' || c == ')' then Paren(c)
    else if c == '%' then Percent
    else if c == Root then Func("sqrt")
    else Op(c)
  }

  lemma OtherLexical(c: char, ts: seq<Token>)
    requires !IsSpace(c) && !IsDigit(c) && !IsLetter(c)
    requires ts == [OtherToken(c)]
    ensures forall t <- ts :: Lexical(t)
  {
    if c == Root {
      assert IsLetters("sqrt");
    }
  }

  /** Every token cut from whitespace-free text has the shape `Lexical` describes; in
      particular each `number` token is a whole numeral, so converting it cannot fail. */
  lemma {:induction false} LexLexical(s: string)
    requires NoSpaces(s)
    ensures forall t <- Lex(s) :: Lexical(t)
    decreases |s|
  {
    if |s| > 0 {
      var c := NextCut(s);
      CutLexical(s);
      LexLexical(s[c.len..]);
    }
  }

  lemma TokenizeLexical(input: string)
    ensures forall t <- Tokenize(input) :: Lexical(t)
  {
    LexLexical(Strip(input));
  }

  lemma TokenizeSpells(input: string)
    ensures RenderAll(Tokenize(input)) == Expand(Strip(input))
  {
    LexSpells(Strip(input));
  }

  /** Tokens that may directly follow a numeral or a name without running into it. */
  predicate Closer(u: Token) {
    (u.Op? && u.sym in "+-*/^,") || u == Paren(')') || u == Percent
  }

  /** Token sequences whose spelling reads back as the same tokens: numerals are whole and
      names are letter runs, neither is directly followed by text that would extend it (a
      name followed by '(' would read as a function name, a numeral would not), and every
      function name is directly followed by its '('. */
  predicate Separated(ts: seq<Token>)
    decreases |ts|
  {
    if |ts| == 0 then true
    else match ts[0]
      case Number(x) =>
        ParseNumeral(x).Some? && (|ts| == 1 || Closer(ts[1]) || ts[1] == Paren('(')) && Separated(ts[1..])
      case Name(n) => IsLetters(n) && (|ts| == 1 || Closer(ts[1])) && Separated(ts[1..])
      case Func(f) => IsLetters(f) && 2 <= |ts| && ts[1] == Paren('(') && Separated(ts[2..])
      case Paren(c) => (c == '(' || c == ')') && Separated(ts[1..])
      case Op(c) => c in "+-*/^," && Separated(ts[1..])
      case Percent => Separated(ts[1..])
      case Var(_) => false
  }

  lemma LeadChar(ts: seq<Token>)
    requires 0 < |ts| && (Closer(ts[0]) || ts[0] == Paren('('))
    ensures 0 < |RenderAll(ts)| && RenderAll(ts)[0] in "+-*/^,()%"
    ensures Closer(ts[0]) ==> RenderAll(ts)[0] in "+-*/^,)%"
  {
  }

  /** A single-character token at the front is cut as itself. */
  lemma CutSingle(s: string)
    requires 0 < |s| && s[0] in "+-*/^,()%"
    ensures NextCut(s).len == 1
    ensures NextCut(s).tokens == [if s[0] == '%' then Percent else if s[0] in "()" then Paren(s[0]) else Op(s[0])]
  {
    LetterRunIs(s, 0);
  }

  /** A letter run at the front, followed by something other than a letter, is cut as a name
      or, when '(' follows, as a function name and its parenthesis. */
  lemma CutLetters(n: string, rest: string)
    requires IsLetters(n)
    requires |rest| == 0 || !IsLetter(rest[0])
    ensures 0 < |rest| && rest[0] == '(' ==> NextCut(n + rest) == Cut([Func(n), Paren('(')], |n| + 1)
    ensures (|rest| == 0 || rest[0] != '(') ==> NextCut(n + rest) == Cut([Name(n)], |n|)
  {
    var s := n + rest;
    LetterRunIs(s, |n|);
    assert s[..|n|] == n;
  }

  lemma LexUnfold(s: string)
    requires 0 < |s|
    ensures Lex(s) == NextCut(s).tokens + Lex(s[NextCut(s).len..])
  {
  }

  lemma RenderUnfold(ts: seq<Token>)
    requires 0 < |ts|
    ensures RenderAll(ts) == Render(ts[0]) + RenderAll(ts[1..])
  {
  }

  lemma LexFunc(ts: seq<Token>)
    requires 2 <= |ts| && ts[0].Func? && IsLetters(ts[0].name) && ts[1] == Paren('(')
    ensures Lex(RenderAll(ts)) == ts[..2] + Lex(RenderAll(ts[2..]))
  {
    FuncCut(ts);
    LexUnfold(RenderAll(ts));
  }

  /** How the first step cuts the spelling of a sequence that starts with a function name and
      its '(': those two tokens, and the spelling of the rest remains. */
  lemma FuncCut(ts: seq<Token>)
    requires 2 <= |ts| && ts[0].Func? && IsLetters(ts[0].name) && ts[1] == Paren('(')
    ensures |ts[0].name| + 1 <= |RenderAll(ts)|
    ensures NextCut(RenderAll(ts)) == Cut(ts[..2], |ts[0].name| + 1)
    ensures RenderAll(ts)[|ts[0].name| + 1..] == RenderAll(ts[2..])
  {
    RenderUnfold(ts);
    RenderUnfold(ts[1..]);
    TailTail(ts);
    CallString(ts[0].name, RenderAll(ts[2..]));
    FrontTwo(ts);
  }

  lemma TailTail(ts: seq<Token>)
    requires 2 <= |ts|
    ensures ts[1..][1..] == ts[2..]
  {
  }

  lemma FrontTwo(ts: seq<Token>)
    requires 2 <= |ts|
    ensures ts[..2] == [ts[0], ts[1]]
  {
  }

  /** A function name followed by '(' is cut as the name and the parenthesis. */
  lemma CallString(f: string, rest: string)
    requires IsLetters(f)
    ensures |f| + 1 <= |f + ("(" + rest)|
    ensures NextCut(f + ("(" + rest)) == Cut([Func(f), Paren('(')], |f| + 1)
    ensures (f + ("(" + rest))[|f| + 1..] == rest
  {
    CutLetters(f, "(" + rest);
  }

  /** How the first step cuts the spelling of a sequence that starts with a numeral or a
      name: that token alone, and the spelling of the rest remains. */
  lemma AtomCut(ts: seq<Token>)
    requires 0 < |ts|
    requires (ts[0].Number? && ParseNumeral(ts[0].text).Some?) || (ts[0].Name? && IsLetters(ts[0].name))
    requires |ts| == 1 || Closer(ts[1]) || (ts[0].Number? && ts[1] == Paren('('))
    ensures 0 < |Render(ts[0])| <= |RenderAll(ts)|
    ensures NextCut(RenderAll(ts)) == Cut(ts[..1], |Render(ts[0])|)
    ensures RenderAll(ts)[|Render(ts[0])|..] == RenderAll(ts[1..])
  {
    RenderUnfold(ts);
    if |ts| > 1 {
      LeadChar(ts[1..]);
    }
    if ts[0].Number? {
      NumeralString(ts[0].text, RenderAll(ts[1..]));
    } else {
      NameString(ts[0].name, RenderAll(ts[1..]));
    }
    FrontOne(ts);
  }

  lemma FrontOne(ts: seq<Token>)
    requires 0 < |ts|
    ensures ts[..1] == [ts[0]]
  {
  }

  /** A numeral followed by text that starts with a closing character is cut alone. */
  lemma NumeralString(x: string, rest: string)
    requires ParseNumeral(x).Some?
    requires |rest| == 0 || rest[0] in "+-*/^,()%"
    ensures 0 < |x| <= |x + rest|
    ensures NextCut(x + rest) == Cut([Number(x)], |x|)
    ensures (x + rest)[|x|..] == rest
  {
    ScanExtend(x, rest);
    assert (x + rest)[..|x|] == x;
  }

  /** A name followed by text that starts with a closing character is cut alone. */
  lemma NameString(x: string, rest: string)
    requires IsLetters(x)
    requires |rest| == 0 || rest[0] in "+-*/^,)%"
    ensures 0 < |x| <= |x + rest|
    ensures NextCut(x + rest) == Cut([Name(x)], |x|)
    ensures (x + rest)[|x|..] == rest
  {
    CutLetters(x, rest);
  }

  lemma LexAtom(ts: seq<Token>)
    requires 0 < |ts|
    requires (ts[0].Number? && ParseNumeral(ts[0].text).Some?) || (ts[0].Name? && IsLetters(ts[0].name))
    requires |ts| == 1 || Closer(ts[1]) || (ts[0].Number? && ts[1] == Paren('('))
    ensures Lex(RenderAll(ts)) == ts[..1] + Lex(RenderAll(ts[1..]))
  {
    AtomCut(ts);
    LexUnfold(RenderAll(ts));
  }

  /** How the first step cuts the spelling of a sequence that starts with a one-character
      token: that token alone. */
  lemma SingleCut(ts: seq<Token>)
    requires 0 < |ts|
    requires ts[0] == Percent || (ts[0].Paren? && ts[0].c in "()") || (ts[0].Op? && ts[0].sym in "+-*/^,")
    ensures 0 < |RenderAll(ts)|
    ensures NextCut(RenderAll(ts)) == Cut(ts[..1], 1)
    ensures RenderAll(ts)[1..] == RenderAll(ts[1..])
  {
    RenderUnfold(ts);
    SingleString(ts[0], RenderAll(ts[1..]));
    FrontOne(ts);
  }

  /** A one-character token's spelling is cut as that token. */
  lemma SingleString(t: Token, rest: string)
    requires t == Percent || (t.Paren? && t.c in "()") || (t.Op? && t.sym in "+-*/^,")
    ensures 0 < |Render(t) + rest|
    ensures NextCut(Render(t) + rest) == Cut([t], 1)
    ensures (Render(t) + rest)[1..] == rest
  {
    var s := Render(t) + rest;
    assert s[0] in "+-*/^,()%";
    CutSingle(s);
  }

  lemma LexSingle(ts: seq<Token>)
    requires 0 < |ts|
    requires ts[0] == Percent || (ts[0].Paren? && ts[0].c in "()") || (ts[0].Op? && ts[0].sym in "+-*/^,")
    ensures Lex(RenderAll(ts)) == ts[..1] + Lex(RenderAll(ts[1..]))
  {
    SingleCut(ts);
    LexUnfold(RenderAll(ts));
  }

  /** The first step on the spelling of a separated sequence cuts its first `k` tokens and
      leaves the spelling of the rest, itself separated. */
  lemma LexFront(ts: seq<Token>) returns (k: nat)
    requires 0 < |ts| && Separated(ts)
    ensures 1 <= k <= |ts| && Separated(ts[k..])
    ensures Lex(RenderAll(ts)) == ts[..k] + Lex(RenderAll(ts[k..]))
  {
    if ts[0].Func? {
      k := 2;
      LexFunc(ts);
    } else if ts[0].Number? || ts[0].Name? {
      k := 1;
      LexAtom(ts);
    } else {
      k := 1;
      LexSingle(ts);
    }
  }

  lemma Rejoin(ts: seq<Token>, k: nat, whole: seq<Token>, tail: seq<Token>)
    requires k <= |ts| && whole == ts[..k] + tail && tail == ts[k..]
    ensures whole == ts
  {
    assert ts == ts[..k] + ts[k..];
  }

  /** The tokenizer reads the spelling of a separated token sequence back as that sequence. */
  lemma {:induction false} LexRender(ts: seq<Token>)
    requires Separated(ts)
    ensures Lex(RenderAll(ts)) == ts
    decreases |ts|
  {
    if |ts| > 0 {
      var k := LexFront(ts);
      LexRender(ts[k..]);
      Rejoin(ts, k, Lex(RenderAll(ts)), Lex(RenderAll(ts[k..])));
    }
  }
}
