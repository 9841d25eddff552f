/** The keyed data join that `selection.data(items, key).join(...)` performs in
    render: old elements are matched to new data by key, the unmatched new data
    enter and the unmatched old elements exit. */
module KeyedJoin {
  import opened Js

  /** The outcome of one join. `matched[i]` is `Some(j)` when new datum `i` updates
      old element `j` and `None` when it enters; `exiting[j]` says whether old
      element `j` exits. */
  datatype Join = Join(matched: seq<Option<nat>>, exiting: seq<bool>)

  /** Position `p` holds the first occurrence of its key. */
  predicate IsFirst(keys: seq<string>, p: nat)
    requires p < |keys|
  {
    forall q :: 0 <= q < p ==> keys[q] != keys[p]
  }

  function FirstIndex(keys: seq<string>, k: string): (p: nat)
    requires k in keys
    ensures p < |keys| && keys[p] == k && IsFirst(keys, p)
  {
    if keys[0] == k then 0 else 1 + FirstIndex(keys[1..], k)
  }

  /** The first occurrence of a key is where `FirstIndex` finds it. */
  lemma FirstIndexOfFirst(keys: seq<string>, p: nat)
    requires p < |keys| && IsFirst(keys, p)
    ensures FirstIndex(keys, keys[p]) == p
  {
    var f := FirstIndex(keys, keys[p]);
    assert !(f < p) && !(p < f);
  }

  /** New datum `i` updates the first old element with its key, provided no earlier
      datum already took that key. */
  function MatchOf(oldKeys: seq<string>, newKeys: seq<string>, i: nat): Option<nat>
    requires i < |newKeys|
  {
    if IsFirst(newKeys, i) && newKeys[i] in oldKeys then Some(FirstIndex(oldKeys, newKeys[i])) else None
  }

  /** Old element `j` stays only when it is the first with its key and some new datum has that key. */
  predicate Exits(oldKeys: seq<string>, newKeys: seq<string>, j: nat)
    requires j < |oldKeys|
  {
    !(IsFirst(oldKeys, j) && oldKeys[j] in newKeys)
  }

  /** The join, stated element by element. */
  function JoinOf(oldKeys: seq<string>, newKeys: seq<string>): Join {
    Join(seq(|newKeys|, i requires 0 <= i < |newKeys| => MatchOf(oldKeys, newKeys, i)),
         seq(|oldKeys|, j requires 0 <= j < |oldKeys| => Exits(oldKeys, newKeys, j)))
  }

  /** The join as the selection library computes it: one pass over the old
      elements indexing them by key (a repeated key exits at once), one pass over
      the new data claiming keys, and one pass sending the unclaimed old elements to exit. */
  method JoinByKey(oldKeys: seq<string>, newKeys: seq<string>) returns (j: Join)
    ensures j == JoinOf(oldKeys, newKeys)
  {
    var byKey, repeated := IndexByKey(oldKeys);
    var matched, unclaimed := ClaimKeys(oldKeys, newKeys, byKey);
    var exiting := ExitUnclaimed(oldKeys, newKeys, unclaimed, repeated);
    j := Join(matched, exiting);
  }

  /** First pass: the first index of every old key; later repeats are marked exiting. */
  method IndexByKey(oldKeys: seq<string>) returns (byKey: map<string, nat>, exiting: seq<bool>)
    ensures forall k :: k in byKey <==> k in oldKeys
    ensures forall k :: k in byKey ==> byKey[k] == FirstIndex(oldKeys, k)
    ensures |exiting| == |oldKeys|
    ensures forall p :: 0 <= p < |oldKeys| ==> exiting[p] == !IsFirst(oldKeys, p)
  {
    byKey, exiting := map[], [];
    var i := 0;
    while i < |oldKeys|
      invariant 0 <= i <= |oldKeys| && |exiting| == i
      invariant forall p :: 0 <= p < i ==> oldKeys[p] in byKey
      invariant forall k :: k in byKey ==> byKey[k] < i && oldKeys[byKey[k]] == k && IsFirst(oldKeys, byKey[k])
      invariant forall p :: 0 <= p < i ==> exiting[p] == !IsFirst(oldKeys, p)
    {
      var k := oldKeys[i];
      if k in byKey {
        assert oldKeys[byKey[k]] == k;
        exiting := exiting + [true];
      } else {
        byKey := byKey[k := i];
        exiting := exiting + [false];
      }
      i := i + 1;
    }
    forall k | k in byKey ensures byKey[k] == FirstIndex(oldKeys, k) {
      FirstIndexOfFirst(oldKeys, byKey[k]);
    }
  }

  /** Second pass: each new datum claims the old index still registered under its
      key; what is left unclaimed are the old keys that no new datum has. */
  method ClaimKeys(oldKeys: seq<string>, newKeys: seq<string>, byKey: map<string, nat>)
    returns (matched: seq<Option<nat>>, unclaimed: map<string, nat>)
    requires forall k :: k in byKey <==> k in oldKeys
    requires forall k :: k in byKey ==> byKey[k] == FirstIndex(oldKeys, k)
    ensures |matched| == |newKeys|
    ensures forall p :: 0 <= p < |newKeys| ==> matched[p] == MatchOf(oldKeys, newKeys, p)
    ensures forall k :: k in unclaimed <==> k in oldKeys && k !in newKeys
    ensures forall k :: k in unclaimed ==> unclaimed[k] == FirstIndex(oldKeys, k)
  {
    matched, unclaimed := [], byKey;
    ghost var claimedAt: map<string, nat> := map[];
    var i := 0;
    while i < |newKeys|
      invariant 0 <= i <= |newKeys| && |matched| == i
      invariant ClaimState(newKeys, byKey, unclaimed, claimedAt, i)
      invariant forall p :: 0 <= p < i ==> matched[p] == MatchOf(oldKeys, newKeys, p)
    {
      var k := newKeys[i];
      if k in unclaimed {
        ClaimFirst(newKeys, byKey, unclaimed, claimedAt, i);
        matched := matched + [Some(unclaimed[k])];
        unclaimed := unclaimed - {k};
        claimedAt := claimedAt[k := i];
      } else {
        ClaimAgain(newKeys, byKey, unclaimed, claimedAt, i);
        matched := matched + [None];
      }
      i := i + 1;
    }
    forall k | k in byKey && k !in unclaimed ensures k in newKeys {
      assert newKeys[claimedAt[k]] == k;
    }
  }

  /** The bookkeeping of the second pass after `i` new data: the unclaimed keys are
      registered old keys that none of those data has, and every claimed key
      remembers the datum that claimed it. */
  ghost predicate ClaimState(newKeys: seq<string>, byKey: map<string, nat>, unclaimed: map<string, nat>,
                             claimedAt: map<string, nat>, i: nat)
    requires i <= |newKeys|
  {
    (forall k :: k in unclaimed ==> k in byKey && unclaimed[k] == byKey[k]) &&
    (forall p :: 0 <= p < i ==> newKeys[p] !in unclaimed) &&
    (forall k :: k in byKey && k !in unclaimed ==> k in claimedAt) &&
    (forall k :: k in claimedAt ==> claimedAt[k] < i && newKeys[claimedAt[k]] == k)
  }

  /** A datum whose key is still unclaimed is the first with that key, and claiming it keeps the bookkeeping. */
  lemma ClaimFirst(newKeys: seq<string>, byKey: map<string, nat>, unclaimed: map<string, nat>,
                   claimedAt: map<string, nat>, i: nat)
    requires i < |newKeys| && ClaimState(newKeys, byKey, unclaimed, claimedAt, i)
    requires newKeys[i] in unclaimed
    ensures IsFirst(newKeys, i) && newKeys[i] in byKey
    ensures ClaimState(newKeys, byKey, unclaimed - {newKeys[i]}, claimedAt[newKeys[i] := i], i + 1)
  {
  }

  /** A datum whose key is registered but no longer unclaimed is not the first with
      that key; passing over it keeps the bookkeeping. */
  lemma ClaimAgain(newKeys: seq<string>, byKey: map<string, nat>, unclaimed: map<string, nat>,
                   claimedAt: map<string, nat>, i: nat)
    requires i < |newKeys| && ClaimState(newKeys, byKey, unclaimed, claimedAt, i)
    requires newKeys[i] !in unclaimed
    ensures newKeys[i] in byKey ==> !IsFirst(newKeys, i)
    ensures ClaimState(newKeys, byKey, unclaimed, claimedAt, i + 1)
  {
    if newKeys[i] in byKey {
      assert newKeys[claimedAt[newKeys[i]]] == newKeys[i];
    }
  }

  /** Third pass: an old element exits when its key was repeated or left unclaimed. */
  method ExitUnclaimed(oldKeys: seq<string>, newKeys: seq<string>, unclaimed: map<string, nat>, repeated: seq<bool>)
    returns (exiting: seq<bool>)
    requires forall k :: k in unclaimed <==> k in oldKeys && k !in newKeys
    requires forall k :: k in unclaimed ==> unclaimed[k] == FirstIndex(oldKeys, k)
    requires |repeated| == |oldKeys|
    requires forall p :: 0 <= p < |oldKeys| ==> repeated[p] == !IsFirst(oldKeys, p)
    ensures |exiting| == |oldKeys|
    ensures forall p :: 0 <= p < |oldKeys| ==> exiting[p] == Exits(oldKeys, newKeys, p)
  {
    exiting := repeated;
    var i := 0;
    while i < |oldKeys|
      invariant 0 <= i <= |oldKeys| && |exiting| == |oldKeys|
      invariant forall p :: 0 <= p < i ==> exiting[p] == Exits(oldKeys, newKeys, p)
      invariant forall p :: i <= p < |oldKeys| ==> exiting[p] == repeated[p]
    {
      var k := oldKeys[i];
      if k in unclaimed && unclaimed[k] == i {
        exiting := exiting[i := true];
      }
      assert exiting[i] == Exits(oldKeys, newKeys, i) by {
        if IsFirst(oldKeys, i) {
          FirstIndexOfFirst(oldKeys, i);
        }
      }
      i := i + 1;
    }
  }

  predicate Distinct(keys: seq<string>) {
    forall p, q :: 0 <= p < q < |keys| ==> keys[p] != keys[q]
  }

  /** Whatever the keys, each new datum either enters or updates, each old element
      either exits or is updated by exactly one new datum with the same key. */
  lemma JoinMatchesOneToOne(oldKeys: seq<string>, newKeys: seq<string>)
    ensures var j := JoinOf(oldKeys, newKeys);
      |j.matched| == |newKeys| && |j.exiting| == |oldKeys| &&
      (forall i :: 0 <= i < |newKeys| && j.matched[i].Some? ==>
         j.matched[i].value < |oldKeys| && oldKeys[j.matched[i].value] == newKeys[i] &&
         !j.exiting[j.matched[i].value]) &&
      (forall i1, i2 :: 0 <= i1 < i2 < |newKeys| && j.matched[i1].Some? && j.matched[i2].Some? ==>
         j.matched[i1] != j.matched[i2]) &&
      (forall p :: 0 <= p < |oldKeys| && !j.exiting[p] ==>
         exists i :: 0 <= i < |newKeys| && j.matched[i] == Some(p))
  {
    var j := JoinOf(oldKeys, newKeys);
    forall p | 0 <= p < |oldKeys| && !j.exiting[p]
      ensures exists i :: 0 <= i < |newKeys| && j.matched[i] == Some(p)
    {
      var i := FirstIndex(newKeys, oldKeys[p]);
      assert j.matched[i] == Some(p);
    }
  }

  /** With distinct keys on both sides, every key lands in exactly one of enter
      (new only), update (old and new) or exit (old only). */
  lemma {:induction false} JoinPartitionsKeys(oldKeys: seq<string>, newKeys: seq<string>)
    requires Distinct(oldKeys) && Distinct(newKeys)
    ensures var j := JoinOf(oldKeys, newKeys);
      (forall i :: 0 <= i < |newKeys| ==> (j.matched[i].None? <==> newKeys[i] !in oldKeys)) &&
      (forall p :: 0 <= p < |oldKeys| ==> (j.exiting[p] <==> oldKeys[p] !in newKeys))
  {
    assert forall i :: 0 <= i < |newKeys| ==> IsFirst(newKeys, i);
    assert forall p :: 0 <= p < |oldKeys| ==> IsFirst(oldKeys, p);
  }
}
