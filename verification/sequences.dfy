/** Generic sequence helpers used to state what the converter does with its stack. */
module Sequences {

  /** The sequence read back to front: what popping every element of a stack,
      whose top is its last element, appends to an output. */
  function Reversed<T>(s: seq<T>): (r: seq<T>)
    ensures |r| == |s|
    ensures forall k :: 0 <= k < |s| ==> r[k] == s[|s| - 1 - k]
    ensures multiset(r) == multiset(s)
    decreases |s|
  {
    if s == [] then []
    else
      assert s == s[..|s| - 1] + [s[|s| - 1]];
      [s[|s| - 1]] + Reversed(s[..|s| - 1])
  }

  /** Reading s[m..] back to front starts with the last element of s and goes on
      with what is left once it is removed. */
  lemma ReversedSuffix<T>(s: seq<T>, m: nat)
    requires m < |s|
    ensures s[..|s| - 1][..m] == s[..m]
    ensures Reversed(s[m..]) == [s[|s| - 1]] + Reversed(s[..|s| - 1][m..])
  {
    var t := s[m..];
    assert t[..|t| - 1] == s[..|s| - 1][m..];
  }

  /** Reading a concatenation back to front reads its second part first. */
  lemma ReversedConcat<T>(a: seq<T>, b: seq<T>)
    ensures Reversed(a + b) == Reversed(b) + Reversed(a)
  {
    var r, q := Reversed(a + b), Reversed(b) + Reversed(a);
    assert |r| == |q|;
    forall k | 0 <= k < |r|
      ensures r[k] == q[k]
    {
      if k < |b| {
        assert r[k] == (a + b)[|a + b| - 1 - k] == b[|b| - 1 - k];
      } else {
        assert r[k] == (a + b)[|a + b| - 1 - k] == a[|a| - 1 - (k - |b|)];
      }
    }
  }

  lemma SplitLast<T>(s: seq<T>)
    requires s != []
    ensures s == s[..|s| - 1] + [s[|s| - 1]]
  {
  }

  lemma ConcatSplitLast<T>(a: seq<T>, s: seq<T>)
    requires s != []
    ensures a + s == (a + s[..|s| - 1]) + [s[|s| - 1]]
  {
    assert s == s[..|s| - 1] + [s[|s| - 1]];
  }

  /** Moving the elements above position m of a stack onto an output, top
      first, neither loses nor duplicates any of them. */
  lemma MoveTop<T>(stack: seq<T>, m: nat, output: seq<T>)
    requires m <= |stack|
    ensures multiset(stack[..m]) + multiset(output + Reversed(stack[m..])) == multiset(stack) + multiset(output)
  {
    assert stack == stack[..m] + stack[m..];
  }

  lemma AppendAssoc<T>(a: seq<T>, b: seq<T>, c: seq<T>)
    ensures a + (b + c) == (a + b) + c
  {
  }

  /** The elements of s that satisfy p, in their order in s. */
  function Filter<T(!new)>(p: T -> bool, s: seq<T>): (r: seq<T>)
    ensures |r| <= |s|
    ensures forall x :: x in r <==> x in s && p(x)
    decreases |s|
  {
    if s == [] then []
    else Filter(p, s[..|s| - 1]) + (if p(s[|s| - 1]) then [s[|s| - 1]] else [])
  }

  /** Filtering distributes over concatenation. */
  lemma {:induction false} FilterAppend<T(!new)>(p: T -> bool, a: seq<T>, b: seq<T>)
    ensures Filter(p, a + b) == Filter(p, a) + Filter(p, b)
    decreases |b|
  {
    if b != [] {
      var b' := b[..|b| - 1];
      assert (a + b)[..|a + b| - 1] == a + b';
      FilterAppend(p, a, b');
    } else {
      assert a + b == a;
    }
  }
}
