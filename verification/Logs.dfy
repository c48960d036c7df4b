/** Subsequences, and the part of a log that concerns one key. */
module Logs {
  /** `d` can be read off `a` by leaving entries out. */
  predicate Subseq<T(==)>(d: seq<T>, a: seq<T>) {
    || d == []
    || (a != [] && (var m, n := |d| - 1, |a| - 1;
                    (d[m] == a[n] && Subseq(d[..m], a[..n])) || Subseq(d, a[..n])))
  }

  lemma Extend<T>(d: seq<T>, a: seq<T>, x: T)
    requires Subseq(d, a)
    ensures Subseq(d, a + [x]) && Subseq(d + [x], a + [x])
  {
    assert (a + [x])[..|a|] == a && (d + [x])[..|d|] == d;
  }

  lemma {:induction false} Prefix<T>(d: seq<T>, a: seq<T>, j: nat)
    requires j <= |a| && Subseq(d, a[..j])
    ensures Subseq(d, a)
    decreases |a| - j
  {
    if j == |a| { assert a[..j] == a; }
    else {
      Extend(d, a[..j], a[j]);
      assert a[..j] + [a[j]] == a[..j + 1];
      Prefix(d, a, j + 1);
    }
  }

  function Of<T>(log: seq<(string, T)>, id: string): seq<T> {
    if log == [] then []
    else var n := |log| - 1;
         Of(log[..n], id) + (if log[n].0 == id then [log[n].1] else [])
  }

  lemma OfAppend<T>(log: seq<(string, T)>, id: string, key: string, x: T)
    ensures Of(log + [(key, x)], id) == if key == id then Of(log, id) + [x] else Of(log, id)
  {
    assert (log + [(key, x)])[..|log|] == log;
  }
}
