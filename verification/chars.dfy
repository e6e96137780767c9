/** Character classes, ASCII case mapping and whitespace removal, as the JavaScript runtime
    provides them to the calculator's tokenizer and evaluator. */
module Chars {

  /** `\d` in a JavaScript regular expression: the ASCII digits only. */
  predicate IsDigit(c: char) {
    '0' <= c <= '9'
  }

  /** `[a-zA-Z]`. */
  predicate IsLetter(c: char) {
    'a' <= c <= 'z' || 'A' <= c <= 'Z'
  }

  /** `\s`, which is also what `String.prototype.trim` removes: the WhiteSpace and
      LineTerminator code points of ECMA-262. */
  predicate IsSpace(c: char) {
    || c == '\t' || c == '\n' || c == '\U{B}' || c == '\U{C}' || c == '\r' || c == ' '
    || c == '\U{A0}' || c == '\U{1680}' || '\U{2000}' <= c <= '\U{200A}'
    || c == '\U{2028}' || c == '\U{2029}' || c == '\U{202F}' || c == '\U{205F}'
    || c == '\U{3000}' || c == '\U{FEFF}'
  }

  /** `toUpperCase` on one character, for the ASCII letters the tokenizer produces. */
  function Upper(c: char): char {
    if 'a' <= c <= 'z' then (c as int - 32) as char else c
  }

  /** `toLowerCase` on one character, for the ASCII letters the tokenizer produces. */
  function Lower(c: char): char {
    if 'A' <= c <= 'Z' then (c as int + 32) as char else c
  }

  function UpperCase(s: string): string {
    seq(|s|, i requires 0 <= i < |s| => Upper(s[i]))
  }

  function LowerCase(s: string): string {
    seq(|s|, i requires 0 <= i < |s| => Lower(s[i]))
  }

  /** Two names that differ only in the case of their letters. */
  predicate SameIgnoringCase(a: string, b: string) {
    |a| == |b| && forall i :: 0 <= i < |a| ==> Upper(a[i]) == Upper(b[i])
  }

  /** Case-insensitive equality is what both case mappings compare. */
  lemma CaseMapsAgree(a: string, b: string)
    requires SameIgnoringCase(a, b)
    ensures UpperCase(a) == UpperCase(b)
    ensures LowerCase(a) == LowerCase(b)
  {
    forall i | 0 <= i < |a|
      ensures Lower(a[i]) == Lower(b[i])
    {
      assert Upper(a[i]) == Upper(b[i]);
    }
  }

  /** An input with nothing but whitespace (the empty input included). */
  predicate Blank(s: string) {
    forall i :: 0 <= i < |s| ==> IsSpace(s[i])
  }

  predicate NoSpaces(s: string) {
    forall i :: 0 <= i < |s| ==> !IsSpace(s[i])
  }

  /** `s.replace(/\s+/g, '')`: the input with every whitespace character removed. */
  function Strip(s: string): (r: string)
    ensures NoSpaces(r)
    ensures |r| <= |s|
  {
    if |s| == 0 then []
    else (if IsSpace(s[0]) then [] else [s[0]]) + Strip(s[1..])
  }

  lemma {:induction false} StripAppend(a: string, b: string)
    ensures Strip(a + b) == Strip(a) + Strip(b)
    decreases |a|
  {
    if |a| == 0 {
      assert a + b == b;
    } else {
      assert (a + b)[1..] == a[1..] + b;
      StripAppend(a[1..], b);
    }
  }

  /** Removing whitespace leaves a text without whitespace unchanged, so stripping twice is
      stripping once. */
  lemma {:induction false} StripKeeps(s: string)
    requires NoSpaces(s)
    ensures Strip(s) == s
    decreases |s|
  {
    if |s| > 0 {
      StripKeeps(s[1..]);
    }
  }

  /** The empty-input test of the calculator: trimming leaves nothing exactly when stripping
      every whitespace character leaves nothing. */
  lemma {:induction false} BlankIffStripEmpty(s: string)
    ensures Blank(s) <==> Strip(s) == []
    decreases |s|
  {
    if |s| > 0 {
      BlankIffStripEmpty(s[1..]);
      if Blank(s) {
        assert Blank(s[1..]) by {
          forall i | 0 <= i < |s[1..]| ensures IsSpace(s[1..][i]) {
            assert s[1..][i] == s[i + 1];
          }
        }
      }
      if Strip(s) == [] {
        assert IsSpace(s[0]);
        forall i | 0 <= i < |s| ensures IsSpace(s[i]) {
          if i > 0 {
            assert s[i] == s[1..][i - 1];
          }
        }
      }
    }
  }
}
