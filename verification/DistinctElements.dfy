/** Sequences without repetitions. */
module DistinctElements {
  ghost predicate Distinct<T>(s: seq<T>) {
    forall i, j :: 0 <= i < j < |s| ==> s[i] != s[j]
  }

  /** Of distinct numbers below `n` there are at most `n`. */
  lemma {:induction false} FewBelow(s: seq<nat>, n: nat)
    requires Distinct(s) && forall j :: 0 <= j < |s| ==> s[j] < n
    ensures |s| <= n
    decreases n
  {
    assert s != [] ==> s[0] < n;
    if s != [] {
      if n - 1 in s {
        var j :| 0 <= j < |s| && s[j] == n - 1;
        var t := s[..j] + s[j + 1..];
        forall k | 0 <= k < |t| ensures t[k] < n - 1 {
          assert t[k] == if k < j then s[k] else s[k + 1];
        }
        FewBelow(t, n - 1);
      } else {
        FewBelow(s, n - 1);
      }
    }
  }
}
