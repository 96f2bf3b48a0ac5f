/**
 * The ordering JavaScript's default `Array.prototype.sort` uses for strings
 * (comparison code unit by code unit, a proper prefix first), and the sorted,
 * duplicate-free list of a set of names that both the message compiler
 * (`Array.from(set).sort()`) and the runtime `format` (`Object.keys(values).sort()`)
 * produce.
 */
module Order {

  /** `a` sorts strictly before `b`. */
  predicate StrLt(a: string, b: string)
    decreases |a|
  {
    |b| > 0 && (|a| == 0 || a[0] < b[0] || (a[0] == b[0] && StrLt(a[1..], b[1..])))
  }

  lemma {:induction false} StrLtIrreflexive(a: string)
    ensures !StrLt(a, a)
    decreases |a|
  {
    if |a| > 0 {
      StrLtIrreflexive(a[1..]);
    }
  }

  lemma {:induction false} StrLtTransitive(a: string, b: string, c: string)
    requires StrLt(a, b) && StrLt(b, c)
    ensures StrLt(a, c)
    decreases |a|
  {
    if |a| > 0 && a[0] == b[0] && b[0] == c[0] {
      StrLtTransitive(a[1..], b[1..], c[1..]);
    }
  }

  lemma {:induction false} StrLtTotal(a: string, b: string)
    ensures a == b || StrLt(a, b) || StrLt(b, a)
    decreases |a|
  {
    if |a| > 0 && |b| > 0 && a[0] == b[0] {
      StrLtTotal(a[1..], b[1..]);
      if a[1..] == b[1..] {
        assert a == [a[0]] + a[1..] && b == [b[0]] + b[1..];
      }
    }
  }

  lemma StrLtAsymmetric(a: string, b: string)
    requires StrLt(a, b)
    ensures !StrLt(b, a)
  {
    if StrLt(b, a) {
      StrLtTransitive(a, b, a);
      StrLtIrreflexive(a);
    }
  }

  predicate StrictlySorted(xs: seq<string>)
  {
    forall i, j :: 0 <= i < j < |xs| ==> StrLt(xs[i], xs[j])
  }

  /** The least element of a non-empty finite set of strings exists. */
  lemma {:induction false} LeastExists(s: set<string>)
    requires s != {}
    ensures exists m :: m in s && forall y :: y in s ==> !StrLt(y, m)
    decreases |s|
  {
    var x :| x in s;
    var rest := s - {x};
    var m := x;
    if rest != {} {
      LeastExists(rest);
      m :| m in rest && forall y :: y in rest ==> !StrLt(y, m);
    }
    assert forall y :: y in s && y != x ==> y in rest;
    LeastStep(s, x, m);
    var w := if StrLt(x, m) then x else m;
    assert w in s && forall y :: y in s ==> !StrLt(y, w);
  }

  /**
   * Adding `x` to a set whose other elements are not below `m`: the smaller
   * of `x` and `m` is not above any element.
   */
  lemma LeastStep(s: set<string>, x: string, m: string)
    requires x in s && m in s
    requires forall y :: y in s && y != x ==> !StrLt(y, m)
    ensures var w := if StrLt(x, m) then x else m;
            forall y :: y in s ==> !StrLt(y, w)
  {
    StrLtIrreflexive(x);
    if StrLt(x, m) {
      forall y | y in s ensures !StrLt(y, x) {
        if y != x && StrLt(y, x) {
          StrLtTransitive(y, x, m);
        }
      }
    }
  }

  /** Any two strings that are each not less than the other are equal. */
  lemma LeastUnique()
    ensures forall a, b :: !StrLt(a, b) && !StrLt(b, a) ==> a == b
  {
    forall a, b | !StrLt(a, b) && !StrLt(b, a) ensures a == b {
      StrLtTotal(a, b);
    }
  }

  /**
   * The elements of `s` in ascending order, each once: what
   * `Array.from(s).sort()` and `Object.keys(o).sort()` return.
   */
  function SortedNames(s: set<string>): (r: seq<string>)
    ensures StrictlySorted(r)
    ensures forall x :: x in r <==> x in s
    ensures |r| == |s|
    decreases |s|
  {
    if s == {} then []
    else
      LeastExists(s);
      LeastUnique();
      var m :| m in s && forall y :: y in s ==> !StrLt(y, m);
      var rest := SortedNames(s - {m});
      assert forall y :: y in s - {m} ==> StrLt(m, y) by {
        forall y | y in s - {m} ensures StrLt(m, y) {
          StrLtTotal(m, y);
        }
      }
      [m] + rest
  }

  /**
   * A strictly sorted list is determined by its elements: any two orderings
   * of the same names that are both sorted are the same list.
   */
  lemma {:induction false} SortedUnique(a: seq<string>, b: seq<string>)
    requires StrictlySorted(a) && StrictlySorted(b)
    requires forall x :: x in a <==> x in b
    ensures a == b
    decreases |a|
  {
    assert a != [] ==> a[0] in b;
    assert b != [] ==> b[0] in a;
    if a != [] && b != [] {
      var k :| 0 <= k < |b| && b[k] == a[0];
      var l :| 0 <= l < |a| && a[l] == b[0];
      if k > 0 {
        StrLtAsymmetric(b[0], a[0]);
      }
      assert a[0] == b[0];
      forall x ensures x in a[1..] <==> x in b[1..] {
        if x in a[1..] {
          var k :| 1 <= k < |a| && a[k] == x;
          assert StrLt(a[0], x);
          StrLtIrreflexive(x);
          assert x in b && x != b[0];
        }
        if x in b[1..] {
          var k :| 1 <= k < |b| && b[k] == x;
          assert StrLt(b[0], x);
          StrLtIrreflexive(x);
          assert x in a && x != a[0];
        }
      }
      SortedUnique(a[1..], b[1..]);
      assert a == [a[0]] + a[1..] && b == [b[0]] + b[1..];
    }
  }
}
