/** Plain JavaScript objects seen through `Object.entries`: a sequence of
    (key, value) pairs in enumeration order. */
module Objects {
  import opened Js

  type Entries<V> = seq<(string, V)>

  /** Every object built from JSON has distinct own keys. */
  ghost predicate DistinctKeys<V>(e: Entries<V>) {
    forall i, j :: 0 <= i < j < |e| ==> e[i].0 != e[j].0
  }

  /** `Object.keys(o)`. */
  function Keys<V>(e: Entries<V>): (ks: seq<string>)
    ensures |ks| == |e|
    ensures forall i :: 0 <= i < |e| ==> ks[i] == e[i].0
  {
    if e == [] then [] else [e[0].0] + Keys(e[1..])
  }

  /** `Object.values(o)`. */
  function Values<V>(e: Entries<V>): (vs: seq<V>)
    ensures |vs| == |e|
    ensures forall i :: 0 <= i < |e| ==> vs[i] == e[i].1
  {
    if e == [] then [] else [e[0].1] + Values(e[1..])
  }

  /** `o[k]`: the value of own property `k`, or `None` for `undefined`. */
  function Lookup<V>(e: Entries<V>, k: string): (r: Option<V>)
    ensures r.Some? <==> k in Keys(e)
    ensures r.Some? ==> (k, r.value) in e
  {
    if e == [] then None
    else if e[0].0 == k then Some(e[0].1)
    else Lookup(e[1..], k)
  }

  lemma {:induction false} LookupFindsEntry<V>(e: Entries<V>, k: string, v: V)
    requires DistinctKeys(e)
    requires (k, v) in e
    ensures Lookup(e, k) == Some(v)
  {
    if e[0].0 != k {
      assert (k, v) in e[1..];
      LookupFindsEntry(e[1..], k, v);
    }
  }

  /** `[].concat(...xss)`: the arrays joined end to end. */
  function Flatten<T(!new)>(xss: seq<seq<T>>): (r: seq<T>)
    ensures forall x :: x in r <==> exists i :: 0 <= i < |xss| && x in xss[i]
  {
    if xss == [] then []
    else
      var rest := Flatten(xss[1..]);
      assert forall i :: 1 <= i < |xss| ==> xss[i] == xss[1..][i - 1];
      xss[0] + rest
  }

  /** `xs` is `ys` with some elements left out, the rest in their order. */
  ghost predicate IsSubsequence<T>(xs: seq<T>, ys: seq<T>)
    decreases |ys|
  {
    xs == [] ||
    (ys != [] &&
     ((xs[0] == ys[0] && IsSubsequence(xs[1..], ys[1..])) || IsSubsequence(xs, ys[1..])))
  }

  lemma {:induction false} SubsequenceMembers<T>(xs: seq<T>, ys: seq<T>)
    requires IsSubsequence(xs, ys)
    ensures forall x :: x in xs ==> x in ys
    decreases |ys|
  {
    if xs != [] {
      if xs[0] == ys[0] && IsSubsequence(xs[1..], ys[1..]) {
        SubsequenceMembers(xs[1..], ys[1..]);
        assert forall x :: x in xs ==> x == xs[0] || x in xs[1..];
      } else {
        SubsequenceMembers(xs, ys[1..]);
      }
    }
  }

  /** A subsequence of an object's entries has distinct keys too. */
  lemma {:induction false} SubsequenceKeepsDistinctKeys<V>(xs: Entries<V>, ys: Entries<V>)
    requires IsSubsequence(xs, ys)
    requires DistinctKeys(ys)
    ensures DistinctKeys(xs)
    decreases |ys|
  {
    if xs != [] {
      assert DistinctKeys(ys[1..]);
      if xs[0] == ys[0] && IsSubsequence(xs[1..], ys[1..]) {
        SubsequenceKeepsDistinctKeys(xs[1..], ys[1..]);
        SubsequenceMembers(xs[1..], ys[1..]);
        forall j | 0 < j < |xs| ensures xs[0].0 != xs[j].0 {
          assert xs[j] in xs[1..];
          var q :| 0 <= q < |ys[1..]| && ys[1..][q] == xs[j];
          assert ys[q + 1] == xs[j];
        }
        forall i, j | 0 <= i < j < |xs| ensures xs[i].0 != xs[j].0 {
          if i > 0 {
            assert xs[i] == xs[1..][i - 1] && xs[j] == xs[1..][j - 1];
          }
        }
      } else {
        SubsequenceKeepsDistinctKeys(xs, ys[1..]);
      }
    }
  }
}
