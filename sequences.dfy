/** Sequence facts shared by the model: a JavaScript `Set` is modelled as a
    duplicate-free sequence kept in insertion order, and string prefixes. */
module Sequences {
  /** No element occurs twice. */
  predicate Distinct<T(==)>(s: seq<T>)
  {
    forall i, j :: 0 <= i < j < |s| ==> s[i] != s[j]
  }

  /** `p` is a prefix of `s` (`String.prototype.startsWith`). */
  predicate StartsWith<T(==)>(s: seq<T>, p: seq<T>)
  {
    |p| <= |s| && s[..|p|] == p
  }

  /** `a` occurs in `s` at some position before an occurrence of `b`. */
  ghost predicate Before<T>(s: seq<T>, a: T, b: T)
  {
    exists p, q :: 0 <= p < q < |s| && s[p] == a && s[q] == b
  }

  /** Any two elements of `r` occur in `s` in the same relative order. */
  ghost predicate KeepsOrder<T>(r: seq<T>, s: seq<T>)
  {
    forall i, j :: 0 <= i < j < |r| ==> Before(s, r[i], r[j])
  }

  /** Order kept within the tail of `s` is kept within `s`, and stays kept when the
      head of `s` is put in front. */
  lemma KeepsOrderCons<T>(r: seq<T>, s: seq<T>)
    requires |s| > 0 && KeepsOrder(r, s[1..])
    requires forall i :: 0 <= i < |r| ==> r[i] in s[1..]
    ensures KeepsOrder(r, s)
    ensures KeepsOrder([s[0]] + r, s)
  {
    forall i, j | 0 <= i < j < |r|
      ensures Before(s, r[i], r[j])
    {
      assert Before(s[1..], r[i], r[j]);
      var p, q :| 0 <= p < q < |s[1..]| && s[1..][p] == r[i] && s[1..][q] == r[j];
      assert 0 <= p + 1 < q + 1 < |s| && s[p + 1] == r[i] && s[q + 1] == r[j];
    }
    var c := [s[0]] + r;
    forall i, j | 0 <= i < j < |c|
      ensures Before(s, c[i], c[j])
    {
      if i == 0 {
        var q :| 0 <= q < |s[1..]| && s[1..][q] == r[j - 1];
        assert 0 <= 0 < q + 1 < |s| && s[0] == c[0] && s[q + 1] == c[j];
      } else {
        assert c[i] == r[i - 1] && c[j] == r[j - 1];
      }
    }
  }
}
