/** Sums of per-particle terms over a list of particle indices. Reals add
    exactly, so a sum depends only on which indices are visited and not on
    the order; the lemmas here say when two lists give the same sum. */
module Sums {
  import opened Vectors

  /** The sum of f over the indices of js, accumulated from the front (the
      definition peels the last index, as a loop that appends does). */
  function SumOver(js: seq<nat>, f: nat -> real): real {
    if js == [] then 0.0 else SumOver(js[..|js| - 1], f) + f(js[|js| - 1])
  }

  /** The vector sum of f over the indices of js. */
  function VecSumOver(js: seq<nat>, f: nat -> Vec): Vec {
    if js == [] then Zero else Add(VecSumOver(js[..|js| - 1], f), f(js[|js| - 1]))
  }

  function XOf(f: nat -> Vec): nat -> real {
    (j: nat) => f(j).x
  }

  function YOf(f: nat -> Vec): nat -> real {
    (j: nat) => f(j).y
  }

  function ScaledBy(f: nat -> real, c: real): nat -> real {
    (j: nat) => c * f(j)
  }

  predicate NoDups(s: seq<nat>) {
    forall a, b :: 0 <= a < b < |s| ==> s[a] != s[b]
  }

  /** The indices 0, 1, ..., n - 1 in order: every particle once. */
  function Iota(n: nat): (s: seq<nat>)
    ensures |s| == n
    ensures forall k :: 0 <= k < n ==> s[k] == k
  {
    seq(n, k requires 0 <= k < n => k)
  }

  lemma IotaHasEach(n: nat)
    ensures NoDups(Iota(n))
    ensures forall j: nat :: j in Iota(n) <==> j < n
  {
    var s := Iota(n);
    forall j: nat | j < n ensures j in s {
      assert s[j] == j;
    }
  }

  /** Appending one more index adds its term. */
  lemma SumSnoc(js: seq<nat>, j: nat, f: nat -> real)
    ensures SumOver(js + [j], f) == SumOver(js, f) + f(j)
  {
    assert (js + [j])[..|js|] == js;
  }

  lemma VecSumSnoc(js: seq<nat>, j: nat, f: nat -> Vec)
    ensures VecSumOver(js + [j], f) == Add(VecSumOver(js, f), f(j))
  {
    assert (js + [j])[..|js|] == js;
  }

  /** The sum over a concatenation is the sum of the sums. */
  lemma {:induction false} SumAppend(a: seq<nat>, b: seq<nat>, f: nat -> real)
    ensures SumOver(a + b, f) == SumOver(a, f) + SumOver(b, f)
  {
    if b == [] {
      assert a + b == a;
    } else {
      var b0, last := b[..|b| - 1], b[|b| - 1];
      assert a + b == (a + b0) + [last];
      SumSnoc(a + b0, last, f);
      SumAppend(a, b0, f);
    }
  }

  /** Taking one index out of the list removes exactly its term. */
  lemma {:induction false} SumRemoveAt(s: seq<nat>, k: nat, f: nat -> real)
    requires k < |s|
    ensures SumOver(s, f) == SumOver(s[..k] + s[k + 1..], f) + f(s[k])
  {
    var p, last := s[..|s| - 1], s[|s| - 1];
    if k == |s| - 1 {
      assert s[..k] + s[k + 1..] == p;
    } else {
      SumRemoveAt(p, k, f);
      assert s[..k] + s[k + 1..] == (p[..k] + p[k + 1..]) + [last];
      SumSnoc(p[..k] + p[k + 1..], last, f);
    }
  }

  /** Two duplicate-free lists of indices give the same sum when the shorter
      is contained in the longer and f vanishes on the indices only the
      longer visits. */
  lemma {:induction false} SumOverSubset(a: seq<nat>, b: seq<nat>, f: nat -> real)
    requires NoDups(a) && NoDups(b)
    requires forall j :: j in a ==> j in b
    requires forall j :: j in b && j !in a ==> f(j) == 0.0
    ensures SumOver(a, f) == SumOver(b, f)
    decreases |b|
  {
    if b == [] {
      NoMembersMeansEmpty(a);
    } else {
      var b0, last := b[..|b| - 1], b[|b| - 1];
      RemoveAtMembers(b, |b| - 1);
      assert b[..|b| - 1] + b[|b|..] == b0;
      SumSnoc(b0, last, f);
      assert b0 + [last] == b;
      if last in a {
        var k :| 0 <= k < |a| && a[k] == last;
        var a0 := a[..k] + a[k + 1..];
        SumRemoveAt(a, k, f);
        RemoveAtMembers(a, k);
        forall j | j in a0 ensures j in b0 {
          assert j in a && j != last;
        }
        forall j | j in b0 && j !in a0 ensures f(j) == 0.0 {
          assert j in b && j !in a;
        }
        SumOverSubset(a0, b0, f);
      } else {
        SumOverSubset(a, b0, f);
      }
    }
  }

  lemma NoMembersMeansEmpty(s: seq<nat>)
    ensures (forall j :: j !in s) ==> s == []
  {
    if s != [] {
      assert s[0] in s;
    }
  }

  /** Removing the entry at k from a duplicate-free list leaves a
      duplicate-free list of the other members. */
  lemma RemoveAtMembers(s: seq<nat>, k: nat)
    requires NoDups(s) && k < |s|
    ensures NoDups(s[..k] + s[k + 1..])
    ensures forall j :: j in s[..k] + s[k + 1..] <==> j in s && j != s[k]
  {
    var r := s[..k] + s[k + 1..];
    assert forall x :: 0 <= x < |r| ==> r[x] == s[if x < k then x else x + 1];
    forall j | j in s && j != s[k] ensures j in r {
      var x :| 0 <= x < |s| && s[x] == j;
      assert r[if x < k then x else x - 1] == j;
    }
  }

  /** A vector sum is the pair of the sums of its components. */
  lemma {:induction false} VecSumComponents(js: seq<nat>, f: nat -> Vec)
    ensures VecSumOver(js, f) == Vec(SumOver(js, XOf(f)), SumOver(js, YOf(f)))
  {
    if js != [] {
      VecSumComponents(js[..|js| - 1], f);
    }
  }

  /** SumOverSubset for vector-valued terms. */
  lemma VecSumOverSubset(a: seq<nat>, b: seq<nat>, f: nat -> Vec)
    requires NoDups(a) && NoDups(b)
    requires forall j :: j in a ==> j in b
    requires forall j :: j in b && j !in a ==> f(j) == Zero
    ensures VecSumOver(a, f) == VecSumOver(b, f)
  {
    VecSumComponents(a, f);
    VecSumComponents(b, f);
    SumOverSubset(a, b, XOf(f));
    SumOverSubset(a, b, YOf(f));
  }

  /** A common factor of every term comes out of the sum. */
  lemma {:induction false} SumScale(js: seq<nat>, f: nat -> real, c: real)
    ensures SumOver(js, ScaledBy(f, c)) == c * SumOver(js, f)
  {
    if js != [] {
      SumScale(js[..|js| - 1], f, c);
      var rest, last := SumOver(js[..|js| - 1], f), f(js[|js| - 1]);
      assert c * (rest + last) == c * rest + c * last;
    }
  }

  /** Terms that are each c times those of g sum to c times the sum of g. */
  lemma SumOfScaled(js: seq<nat>, f: nat -> real, g: nat -> real, c: real)
    requires forall j :: j in js ==> f(j) == ScaledBy(g, c)(j)
    ensures SumOver(js, f) == c * SumOver(js, g)
  {
    SumCongruent(js, f, ScaledBy(g, c));
    SumScale(js, g, c);
  }

  /** Two term functions that agree on the visited indices give one sum. */
  lemma {:induction false} SumCongruent(js: seq<nat>, f: nat -> real, g: nat -> real)
    requires forall j :: j in js ==> f(j) == g(j)
    ensures SumOver(js, f) == SumOver(js, g)
  {
    if js != [] {
      SumCongruent(js[..|js| - 1], f, g);
    }
  }

  /** A sum of non-negative terms with one positive term is positive. */
  lemma {:induction false} SumPositive(js: seq<nat>, f: nat -> real, j0: nat)
    requires forall j :: j in js ==> f(j) >= 0.0
    requires j0 in js && f(j0) > 0.0
    ensures SumOver(js, f) > 0.0
  {
    var init, last := js[..|js| - 1], js[|js| - 1];
    assert js == init + [last];
    SumNonNegative(init, f);
    if j0 != last {
      SumPositive(init, f, j0);
    }
  }

  lemma {:induction false} SumNonNegative(js: seq<nat>, f: nat -> real)
    requires forall j :: j in js ==> f(j) >= 0.0
    ensures SumOver(js, f) >= 0.0
  {
    if js != [] {
      assert js == js[..|js| - 1] + [js[|js| - 1]];
      SumNonNegative(js[..|js| - 1], f);
    }
  }
}
