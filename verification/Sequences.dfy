/** Ends and slices of sequences. */
module Sequences {
  function First<T>(s: seq<T>, n: nat): seq<T> {
    if |s| > n then s[..n] else s
  }

  function Last<T>(s: seq<T>, n: nat): seq<T> {
    if |s| > n then s[|s| - n..] else s
  }

  lemma FirstIsIn<T>(s: seq<T>)
    ensures s == [] || s[0] in s
  {}

  lemma SliceOfDrop<T>(s: seq<T>, start: nat, i: nat, j: nat)
    requires start <= i <= j <= |s|
    ensures s[start..][i - start..j - start] == s[i..j]
  {}

  lemma SliceOfTake<T>(s: seq<T>, end: nat, i: nat, j: nat)
    requires i <= j <= end <= |s|
    ensures s[..end][i..j] == s[i..j]
  {}

  // One turn of a loop that rewrites a sequence in place.
  lemma NextReplaced<T>(done: seq<T>, s: seq<T>, x: T)
    requires |done| < |s|
    ensures var i := |done|;
            (done + s[i..])[i] == s[i] && done + [x] + s[i + 1..] == (done + s[i..])[i := x]
  {}

  lemma MultisetOfInit<T>(s: seq<T>)
    requires s != []
    ensures multiset(s) == multiset(s[..|s| - 1]) + multiset{s[|s| - 1]}
  {
    assert s == s[..|s| - 1] + [s[|s| - 1]];
  }

  lemma Associates<T>(a: seq<T>, b: seq<T>, c: seq<T>)
    ensures a + b + c == a + (b + c)
  {}

  lemma DropOfTake<T>(s: seq<T>, k: nat, n: nat)
    requires k <= n <= |s|
    ensures s[..n][k..] == s[k..][..n - k]
  {}

  lemma MultisetOfParts<T>(s: seq<T>, n: nat, x: T)
    requires n <= |s|
    ensures multiset(s)[x] == multiset(s[..n])[x] + multiset(s[n..])[x]
  {
    assert s == s[..n] + s[n..];
  }

  lemma PositionAfter<T>(s: seq<T>, n: nat, x: T) returns (i: nat)
    requires n <= |s| && x in multiset(s[n..])
    ensures n <= i < |s| && s[i] == x
  {
    assert x in s[n..];
    var j :| 0 <= j < |s[n..]| && s[n..][j] == x;
    i := n + j;
  }
}
