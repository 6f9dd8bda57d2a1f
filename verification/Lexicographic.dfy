/** Lexicographic comparison, of sequences and of text by code points. */
module Lexicographic {

  predicate LexLess(a: seq<int>, b: seq<int>) {
    b != [] && (a == [] || a[0] < b[0] || (a[0] == b[0] && LexLess(a[1..], b[1..])))
  }

  function Codes(s: string): seq<int> {
    seq(|s|, i requires 0 <= i < |s| => s[i] as int)
  }

  predicate TextLess(s: string, t: string) {
    LexLess(Codes(s), Codes(t))
  }

  /** `a` and `b` agree before position `n`, where `a` ends or has the smaller element. */
  predicate DiffersAt(a: seq<int>, b: seq<int>, n: nat) {
    n <= |a| && n < |b| && (forall i :: 0 <= i < n ==> a[i] == b[i]) && (n == |a| || a[n] < b[n])
  }

  /** The first difference decides. */
  lemma {:induction false} LexLessIff(a: seq<int>, b: seq<int>)
    ensures LexLess(a, b) <==> exists n :: 0 <= n <= |a| && DiffersAt(a, b, n)
  {
    if a == [] || b == [] || a[0] != b[0] {
      assert b != [] ==> (LexLess(a, b) <==> DiffersAt(a, b, 0));
      if n :| 0 <= n <= |a| && DiffersAt(a, b, n) {
        assert n == 0;
      }
    } else {
      LexLessIff(a[1..], b[1..]);
      if n :| 0 <= n <= |a[1..]| && DiffersAt(a[1..], b[1..], n) {
        forall i | 0 <= i < n + 1 ensures a[i] == b[i] {
          assert i > 0 ==> a[1..][i - 1] == b[1..][i - 1];
        }
        assert DiffersAt(a, b, n + 1);
      }
      if n :| 0 <= n <= |a| && DiffersAt(a, b, n) {
        assert DiffersAt(a[1..], b[1..], n - 1);
      }
    }
  }

  predicate TextDiffersAt(s: string, t: string, n: nat) {
    n <= |s| && n < |t| && (forall i :: 0 <= i < n ==> s[i] == t[i]) && (n == |s| || s[n] < t[n])
  }

  /** `s` stands before `t` in the order of code points. */
  predicate TextBefore(s: string, t: string) {
    exists n :: 0 <= n <= |s| && TextDiffersAt(s, t, n)
  }

  lemma TextLessIff(s: string, t: string)
    ensures TextLess(s, t) <==> TextBefore(s, t)
  {
    LexLessIff(Codes(s), Codes(t));
    forall n: nat ensures DiffersAt(Codes(s), Codes(t), n) <==> TextDiffersAt(s, t, n) {
      if n <= |s| && n < |t| {
        forall i | 0 <= i < n ensures Codes(s)[i] == Codes(t)[i] <==> s[i] == t[i] {
        }
      }
    }
  }

  lemma {:induction false} LexPrefix(p: seq<int>, a: seq<int>, b: seq<int>)
    ensures LexLess(p + a, p + b) <==> LexLess(a, b)
  {
    if p == [] {
      assert p + a == a && p + b == b;
    } else {
      assert (p + a)[1..] == p[1..] + a && (p + b)[1..] == p[1..] + b;
      LexPrefix(p[1..], a, b);
    }
  }

  lemma CodesSplit(s: string, t: string)
    ensures Codes(s + t) == Codes(s) + Codes(t)
  {
  }

  lemma {:induction false} LexTotal(a: seq<int>, b: seq<int>)
    ensures LexLess(a, b) || a == b || LexLess(b, a)
  {
    if a != [] && b != [] {
      LexTotal(a[1..], b[1..]);
      assert a == [a[0]] + a[1..] && b == [b[0]] + b[1..];
    }
  }

  lemma {:induction false} LexAsymmetric(a: seq<int>, b: seq<int>)
    requires LexLess(a, b)
    ensures !LexLess(b, a)
  {
    if a != [] && a[0] == b[0] {
      LexAsymmetric(a[1..], b[1..]);
    }
  }

  lemma {:induction false} LexTransitive(a: seq<int>, b: seq<int>, c: seq<int>)
    requires LexLess(a, b) && LexLess(b, c)
    ensures LexLess(a, c)
  {
    if a != [] && a[0] == b[0] == c[0] {
      LexTransitive(a[1..], b[1..], c[1..]);
    }
  }

  lemma LexNotLessTransitive(a: seq<int>, b: seq<int>, c: seq<int>)
    requires !LexLess(b, a) && !LexLess(c, b)
    ensures !LexLess(c, a)
  {
    if LexLess(c, a) {
      LexTotal(a, b);
      LexTotal(b, c);
      if LexLess(a, b) {
        LexTransitive(c, a, b);
      }
      LexAsymmetric(c, a);
    }
  }
}
