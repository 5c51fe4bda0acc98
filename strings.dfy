/** String operations of Python's `str` that the grade watcher relies on. */
module Strings {

  /** Python's `a < b` on `str`: code points compared left to right, a proper prefix first. */
  predicate Less(a: string, b: string)
    decreases |a|
  {
    if a == [] then b != []
    else if b == [] then false
    else if a[0] != b[0] then a[0] < b[0]
    else Less(a[1..], b[1..])
  }

  lemma {:induction false} LessIrreflexive(a: string)
    ensures !Less(a, a)
    decreases |a|
  {
    if a != [] {
      LessIrreflexive(a[1..]);
    }
  }

  lemma {:induction false} LessAsymmetric(a: string, b: string)
    ensures Less(a, b) ==> !Less(b, a)
    decreases |a|
  {
    if a != [] && b != [] && a[0] == b[0] {
      LessAsymmetric(a[1..], b[1..]);
    }
  }

  lemma {:induction false} LessTransitive(a: string, b: string, c: string)
    requires Less(a, b) && Less(b, c)
    ensures Less(a, c)
    decreases |a|
  {
    if a != [] && a[0] == b[0] && b[0] == c[0] {
      LessTransitive(a[1..], b[1..], c[1..]);
    }
  }

  lemma {:induction false} LessTotal(a: string, b: string)
    requires a != b
    ensures Less(a, b) || Less(b, a)
    decreases |a|
  {
    if a != [] && b != [] && a[0] == b[0] {
      assert a == [a[0]] + a[1..] && b == [b[0]] + b[1..];
      LessTotal(a[1..], b[1..]);
    }
  }

  /** `str.lower()` restricted to ASCII letters. */
  function LowerChar(ch: char): char {
    if 'A' <= ch <= 'Z' then (ch as int + 32) as char else ch
  }

  function Lower(s: string): (r: string)
    ensures |r| == |s|
  {
    seq(|s|, i requires 0 <= i < |s| => LowerChar(s[i]))
  }

  /** `p` occurs in `s` at position `i`. */
  predicate InfixAt(p: string, s: string, i: int) {
    0 <= i <= |s| - |p| && s[i..i + |p|] == p
  }

  /** `p in s` for two strings. */
  predicate IsInfix(p: string, s: string) {
    exists i | 0 <= i <= |s| - |p| :: InfixAt(p, s, i)
  }

  lemma InfixSelf(p: string)
    ensures IsInfix(p, p)
  {
    assert InfixAt(p, p, 0);
  }

  lemma InfixOfConcat(a: string, p: string, b: string)
    ensures IsInfix(p, a + p + b)
  {
    var s := a + p + b;
    assert InfixAt(p, s, |a|);
  }

  lemma InfixTransitive(p: string, q: string, s: string)
    requires IsInfix(p, q) && IsInfix(q, s)
    ensures IsInfix(p, s)
  {
    var i :| 0 <= i <= |q| - |p| && InfixAt(p, q, i);
    var j :| 0 <= j <= |s| - |q| && InfixAt(q, s, j);
    forall k | 0 <= k < |p|
      ensures s[j + i..j + i + |p|][k] == p[k]
    {
      assert s[j..j + |q|][i + k] == q[i + k];
      assert q[i..i + |p|][k] == p[k];
    }
    assert InfixAt(p, s, j + i);
  }

  lemma InfixInLeft(p: string, a: string, b: string)
    requires IsInfix(p, a)
    ensures IsInfix(p, a + b)
  {
    var i :| 0 <= i <= |a| - |p| && InfixAt(p, a, i);
    assert (a + b)[i..i + |p|] == a[i..i + |p|];
    assert InfixAt(p, a + b, i);
  }

  lemma InfixInRight(p: string, a: string, b: string)
    requires IsInfix(p, b)
    ensures IsInfix(p, a + b)
  {
    var i :| 0 <= i <= |b| - |p| && InfixAt(p, b, i);
    assert (a + b)[|a| + i..|a| + i + |p|] == b[i..i + |p|];
    assert InfixAt(p, a + b, |a| + i);
  }
}
