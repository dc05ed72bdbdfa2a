/** Subsequences: what remains of a sequence after some of its elements are dropped. */
module Subsequences {
  ghost predicate Subseq<T>(a: seq<T>, b: seq<T>) {
    || a == []
    || (b != [] && a[|a| - 1] == b[|b| - 1] && Subseq(a[..|a| - 1], b[..|b| - 1]))
    || (b != [] && Subseq(a, b[..|b| - 1]))
  }

  lemma AppendBoth<T>(a: seq<T>, b: seq<T>, x: T)
    requires Subseq(a, b)
    ensures Subseq(a + [x], b + [x])
  {
    assert (a + [x])[..|a|] == a && (b + [x])[..|b|] == b;
  }

  lemma AppendRight<T>(a: seq<T>, b: seq<T>, x: T)
    requires Subseq(a, b)
    ensures Subseq(a, b + [x])
  {
    assert (b + [x])[..|b|] == b;
  }

  lemma {:induction false} Reflexive<T>(a: seq<T>)
    ensures Subseq(a, a)
  {
    if a == [] {
    } else {
      Reflexive(a[..|a| - 1]);
    }
  }

  lemma {:induction false} AppendSame<T>(a: seq<T>, b: seq<T>, c: seq<T>)
    requires Subseq(a, b)
    ensures Subseq(a + c, b + c)
  {
    if c == [] {
      assert a + c == a && b + c == b;
    } else {
      var n := |c| - 1;
      AppendSame(a, b, c[..n]);
      assert (a + c)[..|a| + n] == a + c[..n] && (b + c)[..|b| + n] == b + c[..n];
    }
  }

  lemma {:induction false} Transitive<T>(a: seq<T>, b: seq<T>, c: seq<T>)
    requires Subseq(a, b) && Subseq(b, c)
    ensures Subseq(a, c)
    decreases |c|
  {
    if a == [] {
    } else {
      var a', b', c' := a[..|a| - 1], b[..|b| - 1], c[..|c| - 1];
      if Subseq(b, c') {
        Transitive(a, b, c');
      } else if Subseq(a, b') {
        Transitive(a, b', c');
      } else {
        Transitive(a', b', c');
      }
    }
  }

  /** Dropping the element in the middle. */
  lemma DropMiddle<T>(a: seq<T>, x: T, b: seq<T>)
    ensures Subseq(a + b, a + [x] + b)
  {
    Reflexive(a);
    AppendRight(a, a, x);
    AppendSame(a, a + [x], b);
  }

  lemma {:induction false} Prefix<T>(a: seq<T>, b: seq<T>)
    ensures Subseq(a, a + b)
  {
    if b == [] {
      Reflexive(a);
      assert a + b == a;
    } else {
      Prefix(a, b[..|b| - 1]);
      assert (a + b)[..|a + b| - 1] == a + b[..|b| - 1];
    }
  }

  lemma {:induction false} NoLonger<T>(a: seq<T>, b: seq<T>)
    requires Subseq(a, b)
    ensures |a| <= |b| && (|a| == |b| ==> a == b)
    decreases |b|
  {
    if a == [] {
    } else {
      if Subseq(a, b[..|b| - 1]) {
        NoLonger(a, b[..|b| - 1]);
      } else {
        NoLonger(a[..|a| - 1], b[..|b| - 1]);
        assert a == a[..|a| - 1] + [a[|a| - 1]] && b == b[..|b| - 1] + [b[|b| - 1]];
      }
    }
  }

  lemma CountsOnce<T>(a: seq<T>, k: nat)
    requires k < |a| && forall j :: 0 <= j < |a| && j != k ==> a[j] != a[k]
    ensures multiset(a)[a[k]] == 1
  {
    assert a == a[..k] + [a[k]] + a[k + 1..];
    assert a[k] !in a[..k] && a[k] !in a[k + 1..];
  }

  /** `x` occurs somewhere before `y`. */
  ghost predicate Before<T>(a: seq<T>, x: T, y: T) {
    exists i, j :: 0 <= i < j < |a| && a[i] == x && a[j] == y
  }

  /** What a subsequence keeps, it keeps in order. */
  lemma {:induction false} OrderSurvives<T>(a: seq<T>, b: seq<T>, x: T, y: T)
    requires Subseq(a, b) && Before(a, x, y)
    ensures Before(b, x, y)
    decreases |b|
  {
    var i, j :| 0 <= i < j < |a| && a[i] == x && a[j] == y;
    var a', b' := a[..|a| - 1], b[..|b| - 1];
    if Subseq(a, b') {
      OrderSurvives(a, b', x, y);
      BeforeExtends(b', b, x, y);
    } else if j < |a'| {
      assert a'[i] == x && a'[j] == y;
      OrderSurvives(a', b', x, y);
      BeforeExtends(b', b, x, y);
    } else {
      assert a'[i] == x;
      MemberSurvives(a', b', x);
      var k :| 0 <= k < |b'| && b'[k] == x;
      assert b[k] == x && b[|b| - 1] == y;
    }
  }

  lemma BeforeExtends<T>(a: seq<T>, b: seq<T>, x: T, y: T)
    requires a <= b && Before(a, x, y)
    ensures Before(b, x, y)
  {
    var i, j :| 0 <= i < j < |a| && a[i] == x && a[j] == y;
    assert b[i] == x && b[j] == y;
  }

  lemma {:induction false} MemberSurvives<T>(a: seq<T>, b: seq<T>, x: T)
    requires Subseq(a, b) && x in a
    ensures x in b
    decreases |b|
  {
    if Subseq(a, b[..|b| - 1]) {
      MemberSurvives(a, b[..|b| - 1], x);
    } else if x in a[..|a| - 1] {
      MemberSurvives(a[..|a| - 1], b[..|b| - 1], x);
    } else {
      assert a == a[..|a| - 1] + [a[|a| - 1]];
    }
  }

  lemma OccursOnce<T>(a: seq<T>, i: nat, j: nat)
    requires i < |a| && j < |a| && a[i] == a[j] && multiset(a)[a[i]] <= 1
    ensures i == j
  {
    if i < j { OccursTwice(a, i, j); }
    if j < i { OccursTwice(a, j, i); }
  }

  lemma OccursTwice<T>(a: seq<T>, i: nat, j: nat)
    requires i < j < |a| && a[i] == a[j]
    ensures multiset(a)[a[i]] >= 2
  {
    assert a == a[..j] + a[j..];
    assert a[..j][i] in multiset(a[..j]) && a[j..][0] in multiset(a[j..]);
  }

  /** Elements that occur once do not occur in both orders. */
  lemma OneOrder<T>(a: seq<T>, x: T, y: T)
    requires multiset(a)[x] <= 1 && multiset(a)[y] <= 1
    ensures !(Before(a, x, y) && Before(a, y, x))
  {
    if Before(a, x, y) && Before(a, y, x) {
      var i, j :| 0 <= i < j < |a| && a[i] == x && a[j] == y;
      var k, l :| 0 <= k < l < |a| && a[k] == y && a[l] == x;
      OccursOnce(a, i, l);
      OccursOnce(a, j, k);
    }
  }
}
