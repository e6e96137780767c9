/** The tokens that flow from the tokenizer through the shunting-yard parser into the postfix
    evaluator, and the text each one spells. */
module Tokens {
  import opened Chars
  import opened Numerals

  /** `number`, `func`, `name`, `paren`, `op` and `percent` come from the tokenizer; the parser
      retags a `name` as a `var`. */
  datatype Token =
    | Number(text: string)
    | Func(name: string)
    | Name(name: string)
    | Var(name: string)
    | Paren(c: char)
    | Op(sym: char)
    | Percent

  /** The square-root glyph. */
  const Root: char := '\U{221A}'

  /** Whether the token's `value` field is the string "(" (a `percent` token has none). This is
      the test the parser applies to the operator stack on a ')'. */
  predicate ValueIsOpen(t: Token) {
    match t
    case Number(x) => x == "("
    case Func(n) => n == "("
    case Name(n) => n == "("
    case Var(n) => n == "("
    case Paren(c) => c == '('
    case Op(c) => c == '('
    case Percent => false
  }

  /** The text a token spells; a function token spells its name. */
  function Render(t: Token): string {
    match t
    case Number(x) => x
    case Func(n) => n
    case Name(n) => n
    case Var(n) => n
    case Paren(c) => [c]
    case Op(c) => [c]
    case Percent => "%"
  }

  function RenderAll(ts: seq<Token>): string {
    if |ts| == 0 then "" else Render(ts[0]) + RenderAll(ts[1..])
  }

  lemma {:induction false} RenderAllAppend(a: seq<Token>, b: seq<Token>)
    ensures RenderAll(a + b) == RenderAll(a) + RenderAll(b)
    decreases |a|
  {
    if |a| == 0 {
      assert a + b == b;
    } else {
      assert (a + b)[1..] == a[1..] + b;
      RenderAllAppend(a[1..], b);
    }
  }

  /** A non-empty run of ASCII letters. */
  predicate IsLetters(s: string) {
    0 < |s| && forall i :: 0 <= i < |s| ==> IsLetter(s[i])
  }

  /** The shape of every token the tokenizer produces from whitespace-free text. */
  predicate Lexical(t: Token) {
    match t
    case Number(x) => ParseNumeral(x).Some?
    case Func(n) => IsLetters(n)
    case Name(n) => IsLetters(n)
    case Var(_) => false
    case Paren(c) => c == '(' || c == ')'
    case Op(c) => !IsDigit(c) && !IsLetter(c) && !IsSpace(c) && c != '(' && c != ')' && c != '%' && c != Root
    case Percent => true
  }

  /** Among tokenizer output, the parser's "(" test picks out exactly the opening parentheses. */
  lemma OpenValueIsParen(t: Token)
    requires Lexical(t)
    ensures ValueIsOpen(t) <==> t == Paren('(')
  {
    assert ScanNumber("(") == 0;
  }
}
