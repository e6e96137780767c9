/** `calculateExpression`: the display glyphs are rewritten to the ASCII the tokenizer knows,
    then the text is tokenized, put in postfix order and evaluated; a non-finite value is an
    error, and a blank input is 0. */
module Calculation {
  import opened Outcomes
  import opened Chars
  import opened Seqs
  import opened Numerals
  import opened Numbers
  import opened Tokens
  import opened Tokenizer
  import opened Parser
  import opened ParserFacts
  import opened Evaluator
  import opened Grammar

  const Times: char := '\U{D7}'
  const Divide: char := '\U{F7}'
  const Minus: char := '\U{2212}'
  const Pi: char := '\U{3C0}'

  /** `s.replace(/c/g, by)`. */
  function ReplaceAll(s: string, c: char, with: string): string {
    if |s| == 0 then "" else (if s[0] == c then with else [s[0]]) + ReplaceAll(s[1..], c, with)
  }

  /** The four replacements, in the order the source applies them. */
  function Normalize(raw: string): string {
    ReplaceAll(ReplaceAll(ReplaceAll(ReplaceAll(raw, Times, "*"), Divide, "/"), Minus, "-"), Pi, "PI")
  }

  /** What the four replacements make of one character. */
  function Glyph(c: char): string {
    if c == Times then "*"
    else if c == Divide then "/"
    else if c == Minus then "-"
    else if c == Pi then "PI"
    else [c]
  }

  /** A single pass that rewrites each character on its own. */
  function GlyphAll(s: string): string {
    if |s| == 0 then "" else Glyph(s[0]) + GlyphAll(s[1..])
  }

  lemma {:induction false} ReplaceAllAppend(a: string, b: string, c: char, with: string)
    ensures ReplaceAll(a + b, c, with) == ReplaceAll(a, c, with) + ReplaceAll(b, c, with)
    decreases |a|
  {
    if |a| == 0 {
      assert a + b == b;
    } else {
      assert (a + b)[1..] == a[1..] + b;
      ReplaceAllAppend(a[1..], b, c, with);
    }
  }

  lemma ReplaceAllOne(x: char, c: char, with: string)
    ensures ReplaceAll([x], c, with) == if x == c then with else [x]
  {
    assert [x][1..] == [];
  }

  lemma NormalizeOne(x: char)
    ensures Normalize([x]) == Glyph(x)
  {
    ReplaceAllOne(x, Times, "*");
    var a := ReplaceAll([x], Times, "*");
    if x == Times {
      ReplaceAllOne('*', Divide, "/");
      ReplaceAllOne('*', Minus, "-");
      ReplaceAllOne('*', Pi, "PI");
    } else {
      ReplaceAllOne(x, Divide, "/");
      if x == Divide {
        ReplaceAllOne('/', Minus, "-");
        ReplaceAllOne('/', Pi, "PI");
      } else {
        ReplaceAllOne(x, Minus, "-");
        if x == Minus {
          ReplaceAllOne('-', Pi, "PI");
        } else {
          ReplaceAllOne(x, Pi, "PI");
        }
      }
    }
  }

  lemma NormalizeAppend(a: string, b: string)
    ensures Normalize(a + b) == Normalize(a) + Normalize(b)
  {
    ReplaceAllAppend(a, b, Times, "*");
    var a1, b1 := ReplaceAll(a, Times, "*"), ReplaceAll(b, Times, "*");
    ReplaceAllAppend(a1, b1, Divide, "/");
    var a2, b2 := ReplaceAll(a1, Divide, "/"), ReplaceAll(b1, Divide, "/");
    ReplaceAllAppend(a2, b2, Minus, "-");
    var a3, b3 := ReplaceAll(a2, Minus, "-"), ReplaceAll(b2, Minus, "-");
    ReplaceAllAppend(a3, b3, Pi, "PI");
  }

  /** The source's four successive global replacements act as one character-by-character
      rewrite: no replacement text contains a glyph a later replacement looks for. */
  lemma {:induction false} NormalizeCharwise(s: string)
    ensures Normalize(s) == GlyphAll(s)
    decreases |s|
  {
    if |s| > 0 {
      assert s == [s[0]] + s[1..];
      NormalizeAppend([s[0]], s[1..]);
      NormalizeOne(s[0]);
      NormalizeCharwise(s[1..]);
    }
  }

  predicate IsGlyph(c: char) {
    c == Times || c == Divide || c == Minus || c == Pi
  }

  lemma {:induction false} GlyphAllAppend(a: string, b: string)
    ensures GlyphAll(a + b) == GlyphAll(a) + GlyphAll(b)
    decreases |a|
  {
    if |a| == 0 {
      assert a + b == b;
    } else {
      assert (a + b)[1..] == a[1..] + b;
      GlyphAllAppend(a[1..], b);
    }
  }

  /** Text without any of the four glyphs is left alone. */
  lemma {:induction false} NormalizeKeeps(s: string)
    requires forall i :: 0 <= i < |s| ==> !IsGlyph(s[i])
    ensures Normalize(s) == s
  {
    NormalizeCharwise(s);
    GlyphAllKeeps(s);
  }

  lemma {:induction false} GlyphAllKeeps(s: string)
    requires forall i :: 0 <= i < |s| ==> !IsGlyph(s[i])
    ensures GlyphAll(s) == s
    decreases |s|
  {
    if |s| > 0 {
      GlyphAllKeeps(s[1..]);
    }
  }

  /** The rewritten text holds none of the glyphs. */
  lemma {:induction false} GlyphAllClears(s: string)
    ensures forall i :: 0 <= i < |GlyphAll(s)| ==> !IsGlyph(GlyphAll(s)[i])
    decreases |s|
  {
    if |s| > 0 {
      GlyphAllClears(s[1..]);
    }
  }

  /** Rewriting the glyphs twice is rewriting them once. */
  lemma NormalizeIdempotent(s: string)
    ensures Normalize(Normalize(s)) == Normalize(s)
  {
    NormalizeCharwise(s);
    GlyphAllClears(s);
    NormalizeKeeps(Normalize(s));
  }

  /** `calculateExpression`. */
  function Calculate(env: Env, raw: string): (r: Result<Num, Failure>)
    ensures r.Ok? ==> r.value.Finite?
    ensures Blank(raw) ==> r == Ok(Finite(0.0))
  {
    if Blank(raw) then Ok(Finite(0.0))
    else match Eval(env, ToPostfix(Tokenize(Normalize(raw))))
      case Err(e) => Err(e)
      case Ok(v) => if v.Finite? then Ok(v) else Err(NotFinite)
  }

  lemma StripMiddle(x: string, c: char, y: string)
    requires IsSpace(c)
    ensures Strip(x + [c] + y) == Strip(x + y)
  {
    StripAppend(x + [c], y);
    StripAppend(x, [c]);
    StripAppend(x, y);
    assert Strip([c]) == [] by { assert Strip([c][1..]) == []; }
  }

  lemma GlyphAllOne(c: char)
    requires !IsGlyph(c)
    ensures GlyphAll([c]) == [c]
  {
    assert [c][1..] == [];
  }

  lemma GlyphDropSpace(a: string, c: char, b: string)
    requires IsSpace(c)
    ensures Strip(GlyphAll(a + [c] + b)) == Strip(GlyphAll(a + b))
  {
    GlyphAllAppend(a + [c], b);
    GlyphAllAppend(a, [c]);
    GlyphAllAppend(a, b);
    GlyphAllOne(c);
    StripMiddle(GlyphAll(a), c, GlyphAll(b));
  }

  /** Dropping the whitespace character `c` leaves the stripped text as it was. */
  lemma DropSpace(a: string, c: char, b: string)
    requires IsSpace(c)
    ensures Strip(Normalize(a + [c] + b)) == Strip(Normalize(a + b))
  {
    NormalizeCharwise(a + [c] + b);
    NormalizeCharwise(a + b);
    GlyphDropSpace(a, c, b);
  }

  /** Dropping a whitespace character keeps a blank input blank and a non-blank one not. */
  lemma DropSpaceBlank(a: string, c: char, b: string)
    requires IsSpace(c)
    ensures Blank(a + [c] + b) <==> Blank(a + b)
  {
    if Blank(a + b) {
      forall i | 0 <= i < |a + [c] + b| ensures IsSpace((a + [c] + b)[i]) {
        if i < |a| {
          assert (a + [c] + b)[i] == (a + b)[i];
        } else if i > |a| {
          assert (a + [c] + b)[i] == (a + b)[i - 1];
        }
      }
    }
    if Blank(a + [c] + b) {
      forall i | 0 <= i < |a + b| ensures IsSpace((a + b)[i]) {
        if i < |a| {
          assert (a + [c] + b)[i] == (a + b)[i];
        } else {
          assert (a + [c] + b)[i + 1] == (a + b)[i];
        }
      }
    }
  }

  /** Whitespace anywhere in the input changes nothing. */
  lemma SpacesIgnored(env: Env, a: string, c: char, b: string)
    requires IsSpace(c)
    ensures Calculate(env, a + [c] + b) == Calculate(env, a + b)
  {
    DropSpace(a, c, b);
    DropSpaceBlank(a, c, b);
  }

  /** The characters printed expressions are written with. */
  predicate Keyed(c: char) {
    IsNumeralChar(c) || IsLetter(c) || c in "+-*/^,()%"
  }

  predicate AllKeyed(s: string) {
    forall i :: 0 <= i < |s| ==> Keyed(s[i])
  }

  lemma TokenKeyed(t: Token)
    requires t.Func? || Lexical(t)
    requires t.Func? ==> IsLetters(t.name)
    requires t.Op? ==> t.sym in "+-*/^,"
    ensures AllKeyed(Render(t))
  {
    if t.Number? {
      assert ScanNumber(t.text) == |t.text|;
    }
  }

  /** The spelling of separated tokens uses only keyed characters. */
  lemma {:induction false} SeparatedKeyed(ts: seq<Token>)
    requires Separated(ts)
    ensures AllKeyed(RenderAll(ts))
    decreases |ts|
  {
    if |ts| > 0 {
      RenderUnfold(ts);
      if ts[0].Func? {
        assert ts[1..][1..] == ts[2..];
      }
      SeparatedKeyed(ts[1..]);
      TokenKeyed(ts[0]);
    }
  }

  /** Keyed text is free of whitespace and of the display glyphs. */
  lemma KeyedText(s: string)
    requires AllKeyed(s)
    ensures NoSpaces(s) && forall i :: 0 <= i < |s| ==> !IsGlyph(s[i])
  {
  }

  /** Separated tokens read back from their spelling as the source reads any input. */
  lemma TokenizeSeparated(ts: seq<Token>)
    requires Separated(ts) && 0 < |ts|
    ensures !Blank(RenderAll(ts))
    ensures Tokenize(Normalize(RenderAll(ts))) == ts
  {
    var s := RenderAll(ts);
    SeparatedKeyed(ts);
    KeyedText(s);
    NormalizeKeeps(s);
    StripKeeps(s);
    LexRender(ts);
    RenderUnfold(ts);
    TokenKeyedNonEmpty(ts[0]);
    assert !IsSpace(s[0]);
  }

  lemma TokenKeyedNonEmpty(t: Token)
    requires Separated([t]) || t.Func?
    requires t.Func? ==> IsLetters(t.name)
    ensures 0 < |Render(t)|
  {
  }

  /** Joining two separated sequences keeps them separated unless a numeral or name at the
      end of the first would run into the start of the second. */
  lemma {:induction false} SeparatedAppend(a: seq<Token>, b: seq<Token>)
    requires Separated(a) && Separated(b)
    requires |a| == 0 || |b| == 0 || Closer(b[0]) || !(a[|a| - 1].Number? || a[|a| - 1].Name?)
    ensures Separated(a + b)
    decreases |a|
  {
    if |a| == 0 {
      assert a + b == b;
    } else if a[0].Func? {
      assert (a + b)[2..] == a[2..] + b;
      SeparatedAppend(a[2..], b);
    } else {
      assert (a + b)[1..] == a[1..] + b;
      SeparatedAppend(a[1..], b);
    }
  }

  lemma PrintNonEmpty(e: Expr)
    ensures 0 < |Print(e)|
  {
  }

  /** The infix print of a tree with valid leaves reads back token for token. */
  lemma {:induction false} PrintSeparated(e: Expr)
    requires Fits(e) && Leaves(e)
    ensures Separated(Print(e))
  {
    match e
    case Lit(_) =>
    case Ref(_) =>
    case Bin(o, l, r) =>
      PrintSeparated(l);
      PrintSeparated(r);
      SeparatedAppend(Print(l), [Op(o)]);
      SeparatedAppend(Print(l) + [Op(o)], Print(r));
    case Call(f, a) =>
      PrintSeparated(a);
      assert Separated([Func(f), Paren('(')]) by {
        assert [Func(f), Paren('(')][2..] == [];
      }
      SeparatedAppend([Func(f), Paren('(')], Print(a));
      SeparatedAppend([Func(f), Paren('(')] + Print(a), [Paren(')')]);
    case Pct(x) =>
      PrintSeparated(x);
      SeparatedAppend(Print(x), [Percent]);
    case Group(x) =>
      PrintSeparated(x);
      SeparatedAppend([Paren('(')], Print(x));
      SeparatedAppend([Paren('(')] + Print(x), [Paren(')')]);
  }

  /** Every fitting tree with valid leaves, written out as text, calculates to its value,
      or to the non-finite error when that value is not finite. */
  lemma CalculatesValue(env: Env, e: Expr)
    requires Fits(e) && Leaves(e)
    ensures Calculate(env, RenderAll(Print(e)))
         == if Value(env, e).Finite? then Ok(Value(env, e)) else Err(NotFinite)
  {
    PrintSeparated(e);
    PrintNonEmpty(e);
    TokenizeSeparated(Print(e));
    ParsesToPostfix(e);
    EvaluatesToValue(env, e);
  }

  /** A name on its own calculates to its value: the last answer, π or e, compared up to
      case, and 0 for every other name. */
  lemma NameValue(env: Env, n: string)
    requires IsLetters(n)
    ensures UpperCase(n) == "ANS" ==> Calculate(env, n) == Ok(Finite(env.ans))
    ensures UpperCase(n) == "PI" ==> Calculate(env, n) == Ok(Finite(PI))
    ensures UpperCase(n) == "E" ==> Calculate(env, n) == Ok(Finite(EULER))
    ensures UpperCase(n) !in {"ANS", "PI", "E"} ==> Calculate(env, n) == Ok(Finite(0.0))
  {
    NameCalculates(env, n);
  }

  lemma NameCalculates(env: Env, n: string)
    requires IsLetters(n)
    ensures Calculate(env, n) == Ok(Finite(Resolve(env, n)))
  {
    CalculatesValue(env, Ref(n));
    assert Print(Ref(n)) == [Name(n)];
    assert RenderAll([Name(n)]) == n + RenderAll([]) == n;
    assert Value(env, Ref(n)) == Finite(Resolve(env, n));
  }

  /** Operators and functions never spell a "(" in tokenizer output. */
  lemma {:induction false} TokenizePlain(input: string)
    ensures AllPlain(Tokenize(input))
  {
    var ts := Tokenize(input);
    TokenizeLexical(input);
    forall j | 0 <= j < |ts| ensures Plain(ts[j]) {
      assert ts[j] in ts;
      OpenValueIsParen(ts[j]);
    }
  }

  /** A postfix sequence holding a "(" does not evaluate. */
  lemma OpenFails(env: Env, post: seq<Token>)
    requires Count(post, Paren('(')) > 0
    ensures Eval(env, post).Err?
  {
    EvalSucceeds(env, post);
    if Eval(env, post).Ok? {
      CountNone(post, Paren('('));
    }
  }

  /** An input that leaves a "(" unclosed is an error. */
  lemma UnclosedFails(env: Env, raw: string)
    requires !Blank(raw) && Unclosed(0, Tokenize(Normalize(raw))) > 0
    ensures Calculate(env, raw).Err?
  {
    var ts := Tokenize(Normalize(raw));
    TokenizePlain(Normalize(raw));
    UnclosedOpens(ts);
    OpenFails(env, ToPostfix(ts));
  }
}
