/** Facts about sequences that several components share. */
module Sequences {

  ghost predicate Distinct<T>(s: seq<T>) {
    forall i, j :: 0 <= i < j < |s| ==> s[i] != s[j]
  }

  lemma DistinctParts<T>(a: seq<T>, b: seq<T>)
    ensures Distinct(a + b) <==> Distinct(a) && Distinct(b) && forall x :: x in a ==> x !in b
  {
    var c := a + b;
    assert forall i :: 0 <= i < |b| ==> c[|a| + i] == b[i];
    if Distinct(c) {
      forall x | x in a ensures x !in b {
        var i :| 0 <= i < |a| && a[i] == x;
        assert c[i] == x;
        forall j | 0 <= j < |b| ensures b[j] != x { assert c[|a| + j] == b[j]; }
      }
      forall i, j | 0 <= i < j < |b| ensures b[i] != b[j] { assert c[|a| + i] == b[i] && c[|a| + j] == b[j]; }
      forall i, j | 0 <= i < j < |a| ensures a[i] != a[j] { assert c[i] == a[i] && c[j] == a[j]; }
    }
    if Distinct(a) && Distinct(b) && forall x :: x in a ==> x !in b {
      forall i, j | 0 <= i < j < |c| ensures c[i] != c[j] {
        if i < |a| <= j { assert a[i] in a && b[j - |a|] in b; }
      }
    }
  }

  lemma SliceOfSlice<T>(s: seq<T>, k: nat, q: seq<T>, i: nat, j: nat)
    requires k + |q| <= |s| && s[k..k + |q|] == q && i <= j <= |q|
    ensures s[k + i..k + j] == q[i..j]
  {
    forall x | 0 <= x < j - i ensures s[k + i..k + j][x] == q[i..j][x] {
      assert s[k..k + |q|][i + x] == s[k + i + x];
    }
  }
}
