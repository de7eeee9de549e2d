/**
 * The order in which GUID-keyed sorted dictionaries hand out their keys:
 * StringComparer.OrdinalIgnoreCase (compare the upper-cased strings code
 * point by code point), with an ordinal tie-break so that the order is total
 * on all strings. Keys that the transcoders insert are lower-cased first, so
 * the tie-break never decides between two of them.
 */
module KeyOrder {
  import opened Xml

  /** Ordinal (code point by code point) comparison of two strings. */
  predicate OrdinalLess(a: string, b: string)
    decreases |a|
  {
    if a == [] then b != []
    else if b == [] then false
    else if a[0] != b[0] then a[0] < b[0]
    else OrdinalLess(a[1..], b[1..])
  }

  /** Key `a` sorts before key `b`. */
  predicate Before(a: string, b: string) {
    OrdinalLess(ToUpper(a), ToUpper(b)) || (ToUpper(a) == ToUpper(b) && OrdinalLess(a, b))
  }

  lemma {:induction false} OrdinalIrreflexive(a: string)
    ensures !OrdinalLess(a, a)
    decreases |a|
  {
    if a != [] {
      OrdinalIrreflexive(a[1..]);
    }
  }

  lemma {:induction false} OrdinalTransitive(a: string, b: string, c: string)
    requires OrdinalLess(a, b) && OrdinalLess(b, c)
    ensures OrdinalLess(a, c)
    decreases |a|
  {
    if a != [] && b != [] && c != [] && a[0] == b[0] && b[0] == c[0] {
      OrdinalTransitive(a[1..], b[1..], c[1..]);
    }
  }

  lemma {:induction false} OrdinalTotal(a: string, b: string)
    ensures a == b || OrdinalLess(a, b) || OrdinalLess(b, a)
    decreases |a|
  {
    if a != [] && b != [] && a[0] == b[0] {
      OrdinalTotal(a[1..], b[1..]);
      if a[1..] == b[1..] {
        assert a == [a[0]] + a[1..] && b == [b[0]] + b[1..];
      }
    }
  }

  lemma OrdinalAsymmetric(a: string, b: string)
    requires OrdinalLess(a, b)
    ensures !OrdinalLess(b, a)
  {
    if OrdinalLess(b, a) {
      OrdinalTransitive(a, b, a);
      OrdinalIrreflexive(a);
    }
  }

  /** Before is a strict total order on strings. */
  lemma BeforeIrreflexive(a: string)
    ensures !Before(a, a)
  {
    OrdinalIrreflexive(ToUpper(a));
    OrdinalIrreflexive(a);
  }

  lemma BeforeTransitive(a: string, b: string, c: string)
    requires Before(a, b) && Before(b, c)
    ensures Before(a, c)
  {
    var A, B, C := ToUpper(a), ToUpper(b), ToUpper(c);
    if OrdinalLess(A, B) && OrdinalLess(B, C) {
      OrdinalTransitive(A, B, C);
    } else if OrdinalLess(A, B) {
      assert B == C;
    } else if OrdinalLess(B, C) {
      assert A == B;
    } else {
      OrdinalTransitive(a, b, c);
    }
  }

  lemma BeforeTotal(a: string, b: string)
    ensures a == b || Before(a, b) || Before(b, a)
  {
    OrdinalTotal(ToUpper(a), ToUpper(b));
    OrdinalTotal(a, b);
  }

  lemma BeforeAsymmetric(a: string, b: string)
    requires Before(a, b)
    ensures !Before(b, a)
  {
    if Before(b, a) {
      BeforeTransitive(a, b, a);
      BeforeIrreflexive(a);
    }
  }

  /** Every non-empty finite set of keys has a least key. */
  lemma {:induction false} HasLeast(s: set<string>)
    requires s != {}
    ensures exists m :: m in s && forall k :: k in s && k != m ==> Before(m, k)
    decreases |s|
  {
    var x :| x in s;
    var rest := s - {x};
    if rest == {} {
      assert forall k :: k in s && k != x ==> k in rest;
      assert x in s && forall k :: k in s && k != x ==> Before(x, k);
    } else {
      HasLeast(rest);
      var m :| m in rest && forall k :: k in rest && k != m ==> Before(m, k);
      BeforeTotal(x, m);
      if Before(x, m) {
        forall k | k in s && k != x
          ensures Before(x, k)
        {
          if k != m {
            BeforeTransitive(x, m, k);
          }
        }
      } else {
        assert m in s && forall k :: k in s && k != m ==> Before(m, k);
      }
    }
  }

  /** The first key a sorted dictionary over `s` hands out. */
  function Least(s: set<string>): (m: string)
    requires s != {}
    ensures m in s
    ensures forall k :: k in s && k != m ==> Before(m, k)
  {
    HasLeast(s);
    assert forall x, y :: x in s && y in s && x != y && Before(x, y) ==> !Before(y, x) by {
      forall x, y | x in s && y in s && x != y && Before(x, y)
        ensures !Before(y, x)
      {
        BeforeAsymmetric(x, y);
      }
    }
    var m :| m in s && forall k :: k in s && k != m ==> Before(m, k);
    m
  }

  /** The keys of `s` in the order a sorted dictionary enumerates them. */
  function SortedKeys(s: set<string>): (r: seq<string>)
    ensures |r| == |s|
    ensures forall k :: k in s <==> k in r
    ensures forall i, j :: 0 <= i < j < |r| ==> Before(r[i], r[j])
    decreases |s|
  {
    if s == {} then []
    else
      var m := Least(s);
      [m] + SortedKeys(s - {m})
  }

  /** Strictly increasing sequences over the same keys are the same sequence. */
  lemma {:induction false} SortedUnique(r: seq<string>, q: seq<string>)
    requires forall i, j :: 0 <= i < j < |r| ==> Before(r[i], r[j])
    requires forall i, j :: 0 <= i < j < |q| ==> Before(q[i], q[j])
    requires forall k :: k in r <==> k in q
    ensures r == q
    decreases |r|
  {
    assert r != [] ==> r[0] in q;
    assert q != [] ==> q[0] in r;
    if r != [] && q != [] {
      if r[0] != q[0] {
        assert r[0] in q;
        var j :| 0 <= j < |q| && q[j] == r[0];
        assert q[0] in r;
        var i :| 0 <= i < |r| && r[i] == q[0];
        assert Before(r[0], r[i]) && Before(q[0], q[j]);
        BeforeAsymmetric(r[0], q[0]);
        assert false;
      }
      forall k ensures k in r[1..] <==> k in q[1..] {
        if k in r[1..] {
          var i :| 1 <= i < |r| && r[i] == k;
          BeforeIrreflexive(r[0]);
          assert k != r[0];
          assert k in q;
        }
        if k in q[1..] {
          var i :| 1 <= i < |q| && q[i] == k;
          BeforeIrreflexive(q[0]);
          assert k != q[0];
          assert k in r;
        }
      }
      SortedUnique(r[1..], q[1..]);
    }
  }
}
