# SciCal expression engine in Dafny

A model of the expression engine and key handling of SciCal, a click-only scientific calculator
in the style of the fx-82MS written in browser JavaScript (`script.js`). The model covers:

- the calculator state (expression, last answer, memory, SHIFT and ALPHA latches, angle unit,
  result display);
- the tokenizer, which turns the typed text into numbers, function names, names, parentheses,
  operators and percent signs;
- the shunting-yard parser, which turns those tokens into postfix;
- the postfix evaluator with its angle-unit handling;
- `calculateExpression`, which adds the glyph replacements (× ÷ − π) and the finiteness check;
- the key handlers `handleAction` and `handleToken`, together with `allClear`, `deleteLast`,
  `safeEvalResult` and `performCalc`.

Modules, in dependency order:

| module | file | what it holds |
|---|---|---|
| `Outcomes` | outcomes.dfy | `Option` and `Result`: a thrown error is an `Err` |
| `Chars` | chars.dfy | ASCII digits, letters and white space; case mapping; whitespace removal (`Strip`) |
| `Numerals` | numerals.dfy | the number pattern `(\d+(\.\d*)?\|\.\d+)([eE][+-]?\d+)?` as a scanner (`ScanNumber`) and its exact value (`ParseNumeral`) |
| `Numbers` | numbers.dfy | `Num = Finite(real) \| NonFinite`, arithmetic, and the `Runtime` record of host functions |
| `Tokens` | tokens.dfy | the token datatype and the text each token spells |
| `Tokenizer` | tokenizer.dfy | `tokenize`, one cut at a time (`NextCut`), with its round trip |
| `Seqs` | seqs.dfy | sequence reversal and counting |
| `Parser`, `ParserFacts` | parser.dfy | `shuntingYard` as a fold of `Step` over the tokens, and what the fold keeps |
| `Evaluator` | evaluator.dfy | `toNumber`, `evalPostfix` and `postInsertEval` |
| `Grammar` | grammar.dfy | expression trees, their infix and postfix prints and their value, and the proof that parsing and evaluation agree with them |
| `Calculation` | calculate.dfy | `calculateExpression` |
| `Calculator` | calculator.dfy | the state and the key handlers |
| `Examples` | examples.dfy | whole calculations on concrete text |

The numbers are exact reals, and NaN and the infinities collapse into `NonFinite`. The source's
host functions are fields of a `Runtime` value that every operation takes as a parameter. These
are `Math.sin` and the other transcendental functions, `Math.pow`, `String(x)`, and the two
number formats of `performCalc`. `Math.PI` and `Math.E` are the exact rationals of their IEEE
doubles. The `rnd` key's random text is a parameter too (`roll`).

A stack pop on an empty stack gives `NonFinite`, as `undefined` turns into NaN in JavaScript. The
one exception is `Math.pow` with a zero exponent, which gives 1 whatever the base, so `^0`
is 1.

The `data-action` names of the keys are mapped to the `Action` datatype by `ActionOf`. A click
(`Click`) runs the key's action if it has one, otherwise its token.

Behaviour worth knowing, as the code has it:

- **Unmatched '('.** The parser's final drain moves an unmatched '(' to the output
  (script.js:128-131), and the evaluator then rejects it as an unhandled node (script.js:240).
  So `(1+2` is an error (`Calculation.UnclosedFails`, `Examples.Unbalanced`).
- **Unmatched ')'.** A ')' with no '(' before it pops the whole operator stack to the output
  (script.js:117-121). So `2+3)*4` is 20 (`Parser.CloseUnmatched`, `Examples.StrayClose`).
- **No unary minus.** The header comment of the tokenizer (script.js:48) lists a unary minus, but the code has
  none. `-5` subtracts 5 from a missing operand and fails as non-finite (`Examples.NoUnaryMinus`).
- **SHIFT latch.** SHIFT stays latched after a key that has no SHIFT text
  (`Calculator.ShiftedToken`).

## Model

| member | source | states |
|---|---|---|
| Chars.Strip | script.js:51 | removing white space leaves no white space and never lengthens the text |
| Chars.StripKeeps | script.js:51 | text without white space is left exactly as it is |
| Chars.BlankIffStripEmpty | script.js:277 | `raw.trim()===''` holds exactly when removing all white space leaves nothing, so the blank test agrees with the tokenizer's normalisation |
| Chars.CaseMapsAgree | script.js:149-151 | two names equal up to ASCII case have the same upper-case and lower-case forms |
| Numerals.ScanNumber | script.js:53-56 | the number match is a prefix of the input made of numeral characters; it starts with a digit or '.', and it is non-empty whenever the input starts with a digit |
| Numerals.ScanPrefix | script.js:56-58 | the matched text matches itself in full and always has a numeric value, so `toNumber` never fails on tokenizer output |
| Numerals.ScanExtend | script.js:53 | a complete numeral followed by a character that cannot continue a number is matched exactly, so numerals are cut where they end |
| Numerals.NumeralForm | script.js:53-58 | the number pattern read by its parts: integer digits, an optional point with fraction digits (at least one digit overall), and an optional `e`/`E` exponent with an optional sign and at least one digit. Such a numeral, followed by text that does not continue it, is matched exactly, and `Number` gives it (integer + fraction / 10^digits) × 10^exponent |
| Numerals.ScanShape | script.js:53 | conversely, every text the number pattern matches is made of those parts |
| Numerals.ParseNatText | script.js:135-140 | the decimal text of every natural number reads back as that number |
| Numbers.PowNatural | script.js:171 | `^` with a natural exponent is repeated multiplication, given a `Math.pow` that is exact there |
| Tokens.OpenValueIsParen | script.js:118-119 | among tokenizer output, the parser's test `value === '('` picks out exactly the opening parentheses |
| Tokenizer.NextCut | script.js:54-86 | every pass of the tokenizer loop consumes at least one character and no more than remain |
| Tokenizer.CutSpells | script.js:54-86 | the tokens of one pass spell exactly the characters it consumed, with the root glyph spelled `sqrt` |
| Tokenizer.LexSpells | script.js:54-87 | the tokens of whitespace-free text spell that text back, with each root glyph spelled `sqrt` |
| Tokenizer.TokenizeSpells | script.js:49-89 | the tokens of any input spell that input with its white space removed and each root glyph spelled `sqrt` |
| Tokenizer.TokenizeLexical | script.js:49-89 | every token produced is well formed: a valid numeral, a letter run, a parenthesis, a one-character operator other than digits, letters and brackets, or a percent |
| Tokenizer.Tokenize | script.js:49-89 | definition of `tokenize`: white space removed, then cut by cut; its contract is stated by `Tokenizer.TokenizeSpells`, `Tokenizer.TokenizeLexical` and `Tokenizer.LexRender` |
| Tokenizer.Expand | script.js:82-83 | the text a tokenization spells, with the root glyph written out as `sqrt`; the reference against which `Tokenizer.CutSpells`, `Tokenizer.LexSpells` and `Tokenizer.TokenizeSpells` state the tokenizer's output |
| Tokenizer.CutSingle | script.js:79-81 | each of `+-*/^,()%` is a token of its own, of the right kind |
| Tokenizer.OtherCut | script.js:77-86 | a character that starts neither a numeral nor a letter run is consumed alone: a parenthesis, a percent, the root glyph as the function `sqrt`, and any other character as a one-character operator |
| Tokenizer.CutLetters | script.js:63-75 | a maximal letter run followed by '(' becomes a function token and an open parenthesis, and otherwise a name |
| Tokenizer.LexRender | script.js:49-89 | tokens laid out so that neighbours cannot merge tokenize back to themselves, the inverse of spelling |
| Parser.PopOpsSpec | script.js:107-112 | before an operator is pushed, the operators that outrank it are moved from the top of the stack to the output in pop order, and the first that does not stops the loop |
| Parser.PopOpsExact | script.js:107-113 | when the top part of the stack all outranks the incoming operator and the entry below it does not, exactly that part moves to the output, reversed |
| Parser.UnrankedPushed | script.js:109 | an operator with no precedence (such as ',' or a stray symbol) pops nothing and is pushed |
| Parser.UnrankedBarrier | script.js:109 | an operator with no precedence on the stack is never popped by an incoming operator, nor is anything below it |
| Parser.PopToOpenSpec | script.js:118 | on ')', the entries above the topmost '(' move to the output in pop order, and the stack keeps everything up to and including that '(' |
| Parser.CloseMatched | script.js:117-121 | a ')' with a matching '(' outputs the entries above it, discards the '(', and outputs a function token directly beneath it |
| Parser.CloseUnmatched | script.js:117-121 | a ')' without a '(' on the stack moves the whole stack to the output |
| Parser.RunAppend | script.js:96-127 | reading two pieces of input one after the other is reading their concatenation |
| Parser.Step | script.js:96-127 | definition of one pass of the parser loop; its contract is stated by `Parser.PopOpsSpec`, `Parser.PopOpsExact`, `Parser.PopToOpenSpec`, `Parser.CloseMatched`, `Parser.CloseUnmatched` and `Parser.UnrankedPushed` |
| Parser.ToPostfix | script.js:91-133 | definition of `shuntingYard` as a fold of `Step` and a final drain; its contract is stated by `ParserFacts.OperandsInOrder`, `ParserFacts.PostfixClean`, `ParserFacts.OperatorsConserved`, `ParserFacts.UnclosedOpens` and `Grammar.ParsesToPostfix` |
| ParserFacts.OperandsInOrder | script.js:91-133 | numbers and names reach the output in input order, names retagged as variables |
| ParserFacts.PostfixClean | script.js:91-133 | the output never holds a ')' or an untagged name |
| ParserFacts.OperatorsConserved | script.js:91-133 | every operator and function token occurs in the output as often as in the input |
| ParserFacts.UnclosedOpens | script.js:115-131 | the number of '(' left in the output is the number of '(' the input leaves unclosed |
| Grammar.PopsLevel | script.js:109 | an incoming arithmetic operator pops a stacked one exactly when its precedence is lower, or equal and it is left-associative |
| Grammar.SameClass | script.js:94-95 | operators of the same precedence agree on associativity |
| Grammar.QuietRight | script.js:107-112 | the right operand of an operator, printed with the precedence rules' parentheses, never pops that operator |
| Grammar.Parses | script.js:96-127 | reading a tree's infix print outputs its emitted part and leaves its pending operators on top of the stack, whatever came before |
| Grammar.ParsesToPostfix | script.js:91-133 | the shunting-yard output of a tree's infix print is the tree's postfix print |
| Grammar.EvaluatesToValue | script.js:142-249 | evaluating a tree's postfix print gives the value computed on the tree |
| Evaluator.StepEvalShape | script.js:144-245 | a postfix token fails exactly when it is inadmissible; otherwise it takes as many values as its arity (a missing one still counts as taken) and pushes one, and ',' leaves the stack exactly as it was |
| Evaluator.ExecShape | script.js:144-246 | a postfix sequence runs through exactly when all its tokens are admissible, and then ends at the height the arities give |
| Evaluator.EvalSucceeds | script.js:142-249 | evaluation succeeds exactly when every token is admissible and exactly one value is left |
| Evaluator.ExecAppend | script.js:144-246 | evaluating a concatenation evaluates the first part and then the second from the stack it left, and the first failure ends it |
| Evaluator.BinaryOperands | script.js:162-171 | an arithmetic operator combines the two top values, the lower as its left operand, and leaves the rest of the stack alone |
| Evaluator.UnaryOperand | script.js:176-228 | a known function replaces the top value by the function of it, whatever the case of its name |
| Evaluator.PercentOperand | script.js:154-157 | a percent sign divides the top value by 100 |
| Evaluator.CaseInsensitive | script.js:147-153 | variable and function names are read without regard to ASCII case |
| Evaluator.DegreeArgument | script.js:180-203 | in DEG mode sin, cos and tan take their argument in degrees and asin, acos and atan give their result in degrees; in RAD mode all six are the runtime's radian functions unchanged |
| Evaluator.DegreeRoundTrip | script.js:180-203 | in DEG mode asin undoes sin on angles from -90 to 90 degrees, given runtime functions that are inverse there |
| Evaluator.Resolve | script.js:147-153 | definition of the variable lookup; its contract is stated by `Calculation.NameValue` and `Evaluator.CaseInsensitive` |
| Evaluator.Apply | script.js:176-228 | definition of the function table; its contract is stated by `Evaluator.UnaryOperand`, `Evaluator.DegreeArgument` and `Evaluator.DegreeRoundTrip` |
| Evaluator.StepEval | script.js:144-245 | definition of one pass of the evaluator loop; its contract is stated by `Evaluator.StepEvalShape` (including the ',' no-op), `Calculation.NameValue` (the value a variable pushes), `Evaluator.BinaryOperands`, `Evaluator.UnaryOperand` and `Evaluator.PercentOperand` |
| Evaluator.Eval | script.js:142-249 | definition of `evalPostfix`; its contract is stated by `Evaluator.EvalSucceeds`, `Evaluator.ExecAppend` and `Grammar.EvaluatesToValue` |
| Calculation.NormalizeCharwise | script.js:279 | the four glyph replacements act character by character |
| Calculation.NormalizeIdempotent | script.js:279 | replacing the glyphs a second time changes nothing |
| Calculation.NormalizeKeeps | script.js:279 | text without the four glyphs is unchanged |
| Calculation.Normalize | script.js:279 | definition of the four glyph replacements; its contract is stated by `Calculation.NormalizeCharwise`, `Calculation.NormalizeIdempotent` and `Calculation.NormalizeKeeps` |
| Calculation.Calculate | script.js:276-292 | a calculation yields a finite value or an error, and blank text yields 0 |
| Calculation.SpacesIgnored | script.js:276-292 | a white-space character anywhere in the text does not change the calculation |
| Calculation.TokenizeSeparated | script.js:49-89 | the spelling of non-merging tokens is not blank and tokenizes back to those tokens |
| Calculation.CalculatesValue | script.js:276-292 | text spelling a tree calculates to the tree's value when that value is finite, and fails as non-finite otherwise |
| Calculation.NameValue | script.js:147-153 | a name on its own calculates to the last answer when it reads ANS, to Math.PI when it reads PI and to Math.E when it reads E, in any case, and to 0 for every other name |
| Calculation.TokenizePlain | script.js:49-89 | no operator or function token from the tokenizer has the text "(", so the parser never mistakes one for an open parenthesis |
| Calculation.OpenFails | script.js:229-244 | a '(' that reaches the evaluator makes evaluation fail |
| Calculation.UnclosedFails | script.js:276-292 | text that leaves a '(' unclosed fails to calculate |
| Calculator.AllClear | script.js:31 | AC empties the expression, shows 0, and keeps the answer, the memory, the latches and the angle unit |
| Calculator.DeleteLast | script.js:32 | DEL drops the last character of the expression, leaves an empty expression empty, and changes nothing else |
| Calculator.AppendExpr | script.js:27 | typing keeps the expression as a prefix, adds exactly the typed text, and changes nothing else |
| Calculator.SafeEval | script.js:316-323 | the safe value is the calculated value, or 0 when the calculation fails |
| Calculator.PerformCalc | script.js:325-341 | CALC stores and shows a successful value; on failure it shows "Error" and keeps the previous answer; nothing else changes |
| Calculator.Format | script.js:331-335 | definition of the choice between the exponential and the rounded display; its contract is stated by `Calculator.FormatRanges` |
| Calculator.FormatRanges | script.js:331-335 | zero and magnitudes from 1e-9 up to but excluding 1e10 are shown rounded, non-zero magnitudes below 1e-9 and from 1e10 up exponentially, for either sign |
| Calculator.ClickKeepsLatches | script.js:297-298 | from start-up on, no click leaves SHIFT and ALPHA latched together |
| Calculator.ShiftedToken | script.js:366-386 | with SHIFT latched, a key's SHIFT text is typed and SHIFT is released; otherwise the key's token is typed and SHIFT is as it was; nothing else changes |
| Calculator.DeleteUndoesKey | script.js:32 | DEL takes back the character a key has just typed, whenever SHIFT is released or the key has no SHIFT text |
| Calculator.SafeEvalFrame | script.js:316-323 | the safe value depends only on the expression, the last answer and the angle unit |
| Calculator.MemoryKeys | script.js:306-307 | when the expression calculates to v, M+ adds v to the memory and M- subtracts it, and nothing else changes |
| Calculator.MemoryKeysFail | script.js:306-307 | when the expression does not calculate, M+ and M- leave the state as it was |
| Calculator.MemoryRoundTrip | script.js:306-307 | M- right after M+ restores the state |
| Calculator.DrgTwice | script.js:309 | DRG flips the angle unit and nothing else, and pressing it twice restores the state |
| Calculator.LatchKeys | script.js:297-298 | SHIFT toggles its latch and releases ALPHA, and ALPHA the other way round; nothing else changes |
| Calculator.RecallKeys | script.js:303-308 | ANS types the last answer, and RCL and MR type the memory, each as `String` shows it |
| Calculator.ClearKeys | script.js:300-302 | AC and ON both clear the expression and display and keep the answer and the memory |
| Calculator.AnswerRecalled | script.js:325-341 | after a successful CALC, the text `Ans` calculates to the same value |
| Calculator.CalcShowsValue | script.js:325-341 | CALC on text spelling a tree stores and shows the tree's value when it is finite, and otherwise shows "Error" |
| Calculator.HandleAction | script.js:295-314 | definition of the key dispatch; its contract is stated by `Calculator.LatchKeys`, `Calculator.ClearKeys`, `Calculator.RecallKeys`, `Calculator.MemoryKeys`, `Calculator.MemoryKeysFail`, `Calculator.DrgTwice` and `Calculator.PerformCalc` |
| Calculator.HandleToken | script.js:366-386 | definition of typing a key's text; its contract is stated by `Calculator.ShiftedToken` and `Calculator.DeleteUndoesKey` |
| Calculator.Click | script.js:389-396 | definition of the click wiring: a key's action if it has one, otherwise its token; its contract is stated by `Calculator.ClickKeepsLatches` |
| Examples.Precedence | script.js:94 | 2+3*4 calculates to 14 |
| Examples.LeftAssociative | script.js:109 | 8-3-2 calculates to 3 |
| Examples.RightAssociative | script.js:95 | 2^3^2 calculates to 512 |
| Examples.Grouping | script.js:115-121 | (2+3)*4 calculates to 20 |
| Examples.StrayClose | script.js:118 | 2+3)*4 also calculates to 20: the stray ')' closes everything typed before it |
| Examples.Percentage | script.js:154-157 | 5% calculates to 0.05 |
| Examples.ScientificNumeral | script.js:135-140 | `1.5e-3` is one numeral worth 0.0015 |
| Examples.ExponentBacktrack | script.js:53 | in `1e+` the exponent has no digits, so the pattern matches only `1`, and `1e+` as a whole is no numeral |
| Examples.ScientificProduct | script.js:46-58 | `1.5e-3*2` calculates to 0.003: a fraction and a signed exponent are read as one number |
| Examples.PiByName | script.js:150 | "pi" calculates to Math.PI |
| Examples.EulerByName | script.js:151 | "E" calculates to Math.E |
| Examples.UnknownName | script.js:152 | x+1 calculates to 1, because an unknown name counts as 0 |
| Examples.DivideByZero | script.js:287 | 1/0 fails as non-finite |
| Examples.PowerOfE | script.js:63 | e^( tokenizes as the name e, the operator ^ and a parenthesis, not as a function |
| Examples.Unbalanced | script.js:128-131 | (1+2 fails |
| Examples.Underflow | script.js:163 | a lone + fails as non-finite |
| Examples.NoUnaryMinus | script.js:164-165 | -5 fails as non-finite |
| Examples.PowerOfNothing | script.js:171 | ^0 calculates to 1 |
| Examples.BareRoot | script.js:83 | a root glyph without a parenthesis still follows its operand in postfix |
| Examples.NoImplicitProduct | script.js:247 | 2(3) tokenizes as the number 2, a parenthesized 3, leaves two values, and the text calculates to a bad-expression error |

## Left out

- The DOM: the display elements, the SHIFT and ALPHA highlighting, the DRG indicator and the
  click wiring. The model keeps the display text as the state's `result` field only.
- The MODE key, which only raises an alert, and the logging of an unknown action. Both leave
  the state unchanged.
- `Math.random`: the text the `rnd` key types is the parameter `roll`.
- IEEE double rounding and overflow. Arithmetic is exact, so `Calculator.MemoryRoundTrip`
  holds exactly, while the source's floating-point M+ then M- may be off by a rounding error.
  An overflow to infinity is not modelled.
- NaN and the two infinities are one value, `NonFinite`. Host functions that map an infinity
  back to a finite value (`atan(Infinity)`, `1/Infinity`) are therefore not modelled.
- `String(x)`, `toExponential(9)` with its trailing-zero removal, and `toPrecision(12)` are
  the runtime parameters `show`, `exponential` and `rounded`. Only the choice between the two
  formats (`Calculator.Format`) is modelled. The threshold 1e-9 is the exact decimal, not its
  double.
- The transcendental functions and `Math.pow` come from the runtime. Their laws are assumed
  only where a lemma says so (`PowLaw`, `SineInverse`).
- The `π` comparison in the variable lookup (script.js:150). It can never succeed in the
  source: a variable holds only the letters `a-zA-Z` (script.js:63), and no upper-case form of
  those is the lower-case `π`. Dropping it changes nothing; `π` arrives as `PI` through the
  glyph replacement. Case mapping is modelled for ASCII letters only, which are the only
  letters a name can hold.
- Strings are sequences of characters, not UTF-16 code units. The root glyph and the replaced
  glyphs are single characters either way.
- Numeral forms that `Number` accepts but the tokenizer never produces (hexadecimal, `Infinity`,
  surrounding blanks). `toNumber`'s failure path is kept as `BadNumeral`, but
  `Numerals.ScanPrefix` shows that tokenizer output never reaches it.
- `shiftMap`, which nothing reads: a key's SHIFT text is its `alt` parameter.
- Calculator.RecallKeys: states the typed text in terms of the runtime's `show`, not as
  concrete digits, because `String(x)` is a runtime parameter.
