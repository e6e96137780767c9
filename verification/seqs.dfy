/** Sequence helpers: reversal (how a stack is drained) and filtering. */
module Seqs {

  /** Shapes of concatenations, stated once so that proofs need not re-derive them. */
  lemma EmptyAppend<T>(a: seq<T>, b: seq<T>)
    requires |a| == 0
    ensures a + b == b
  {
  }

  lemma TailAppend<T>(a: seq<T>, b: seq<T>)
    requires 0 < |a|
    ensures (a + b)[0] == a[0] && (a + b)[1..] == a[1..] + b
  {
  }

  lemma TakeDrop<T>(s: seq<T>, k: nat)
    requires k <= |s|
    ensures s == s[..k] + s[k..]
  {
  }

  lemma AppendAssoc<T>(a: seq<T>, b: seq<T>, c: seq<T>)
    ensures a + (b + c) == a + b + c
  {
  }

  lemma DropAppend<T>(a: seq<T>, b: seq<T>, k: nat)
    requires k <= |a|
    ensures (a + b)[k..] == a[k..] + b
  {
  }

  lemma TakeThenDrop<T>(s: seq<T>, i: nat, k: nat)
    requires i <= k <= |s|
    ensures s[..k][i..] == s[i..][..k - i]
  {
  }

  lemma InitLast<T>(s: seq<T>)
    requires 0 < |s|
    ensures s == s[..|s| - 1] + [s[|s| - 1]]
  {
  }

  /** Reversing a suffix that ends in the top of `s`: the top comes out first. */
  lemma ReverseSuffix<T>(s: seq<T>, k: nat)
    requires k < |s|
    ensures Reverse(s[k..]) == [s[|s| - 1]] + Reverse(s[k..|s| - 1])
    ensures s[..|s| - 1][k..] == s[k..|s| - 1]
  {
    assert s[k..][..|s[k..]| - 1] == s[k..|s| - 1];
  }

  /** The elements of `s` from last to first: the order in which a stack held in `s`, top at
      the end, is popped. */
  function Reverse<T>(s: seq<T>): (r: seq<T>)
    ensures |r| == |s|
    ensures forall i :: 0 <= i < |s| ==> r[i] == s[|s| - 1 - i]
  {
    if |s| == 0 then [] else [s[|s| - 1]] + Reverse(s[..|s| - 1])
  }

  lemma ReverseAppend<T>(a: seq<T>, b: seq<T>)
    ensures Reverse(a + b) == Reverse(b) + Reverse(a)
  {
  }

  /** How often `x` occurs in `s`. */
  function Count<T(==)>(s: seq<T>, x: T): nat {
    if |s| == 0 then 0 else (if s[0] == x then 1 else 0) + Count(s[1..], x)
  }

  lemma {:induction false} CountAppend<T>(a: seq<T>, b: seq<T>, x: T)
    ensures Count(a + b, x) == Count(a, x) + Count(b, x)
    decreases |a|
  {
    if |a| == 0 {
      EmptyAppend(a, b);
    } else {
      TailAppend(a, b);
      CountAppend(a[1..], b, x);
    }
  }

  lemma {:induction false} CountNone<T>(s: seq<T>, x: T)
    requires forall j :: 0 <= j < |s| ==> s[j] != x
    ensures Count(s, x) == 0
    decreases |s|
  {
    if |s| > 0 {
      CountNone(s[1..], x);
    }
  }

  lemma {:induction false} CountReverse<T>(s: seq<T>, x: T)
    ensures Count(Reverse(s), x) == Count(s, x)
    decreases |s|
  {
    if |s| > 0 {
      var init := s[..|s| - 1];
      InitLast(s);
      CountReverse(init, x);
      CountAppend([s[|s| - 1]], Reverse(init), x);
      CountAppend(init, [s[|s| - 1]], x);
    }
  }
}
