/** What several modules share. */
module Prelude {
  datatype Option<T> = None | Some(value: T)

  predicate NoTwice<T(==)>(s: seq<T>) {
    forall i, j :: 0 <= i < j < |s| ==> s[i] != s[j]
  }

  lemma {:induction false} NoTwiceCounts<T>(s: seq<T>)
    ensures NoTwice(s) <==> forall x :: multiset(s)[x] <= 1
  {
    if |s| > 0 {
      var n := |s| - 1;
      NoTwiceCounts(s[..n]);
      assert s == s[..n] + [s[n]];
      assert multiset(s) == multiset(s[..n]) + multiset{s[n]};
      if forall x :: multiset(s)[x] <= 1 {
        forall x ensures multiset(s[..n])[x] <= 1 { assert multiset(s)[x] <= 1; }
        assert multiset(s)[s[n]] <= 1;
        assert s[n] !in multiset(s[..n]);
        assert s[n] !in s[..n];
      }
      if NoTwice(s) {
        assert s[n] !in s[..n];
        assert s[n] !in multiset(s[..n]);
      }
    }
  }
}
