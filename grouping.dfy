/** Grouping a sequence by an optional key, as the source does whenever it
    walks a list and files each element under `map.get(key)`: the members of a
    group, the distinct keys in first-seen order, and sums over a group. */
module Grouping {
  import opened Basics

  /** The elements of `xs` whose key is `Some(k)`, in their original order. */
  function WithKey<T>(xs: seq<T>, key: T -> Option<string>, k: string): (r: seq<T>)
    ensures |r| <= |xs|
    ensures forall i :: 0 <= i < |r| ==> key(r[i]) == Some(k)
  {
    if xs == [] then []
    else
      var rest := WithKey(xs[..|xs| - 1], key, k);
      if key(xs[|xs| - 1]) == Some(k) then rest + [xs[|xs| - 1]] else rest
  }

  /** The distinct keys of `xs` in the order in which they are first seen. */
  function KeysOf<T>(xs: seq<T>, key: T -> Option<string>): (r: seq<string>)
    ensures forall i, j :: 0 <= i < j < |r| ==> r[i] != r[j]
    ensures forall k :: k in r <==> exists i :: 0 <= i < |xs| && key(xs[i]) == Some(k)
  {
    if xs == [] then []
    else
      var ks := KeysOf(xs[..|xs| - 1], key);
      match key(xs[|xs| - 1])
      case None => ks
      case Some(k) => if k in ks then ks else ks + [k]
  }

  /** The sum of `f` over `xs`. */
  function SumOf<T>(xs: seq<T>, f: T -> int): int
  {
    if xs == [] then 0 else SumOf(xs[..|xs| - 1], f) + f(xs[|xs| - 1])
  }

  /** The groups of `ks`, one after another. */
  function GroupsConcat<T>(xs: seq<T>, key: T -> Option<string>, ks: seq<string>): seq<T>
  {
    if ks == [] then [] else GroupsConcat(xs, key, ks[..|ks| - 1]) + WithKey(xs, key, ks[|ks| - 1])
  }

  /** Distinct keys of a sequence. */
  predicate Distinct(ks: seq<string>)
  {
    forall i, j :: 0 <= i < j < |ks| ==> ks[i] != ks[j]
  }

  /** Dropping the last of distinct keys leaves distinct keys without it. */
  lemma {:induction false} DistinctSplit(ks: seq<string>)
    requires Distinct(ks) && ks != []
    ensures Distinct(ks[..|ks| - 1])
    ensures ks[|ks| - 1] !in ks[..|ks| - 1]
  {
    var init := ks[..|ks| - 1];
    forall i | 0 <= i < |init| ensures init[i] != ks[|ks| - 1] {
      assert init[i] == ks[i];
    }
  }

  /** Membership in a group: an element of `xs` carrying the key. */
  lemma {:induction false} WithKeyMember<T>(xs: seq<T>, key: T -> Option<string>, k: string, x: T)
    requires x in WithKey(xs, key, k)
    ensures x in xs && key(x) == Some(k)
  {
    WithKeyCounts(xs, key, k, x);
  }

  /** A key has a group exactly when some element carries it. */
  lemma {:induction false} KeyHasMembers<T>(xs: seq<T>, key: T -> Option<string>, k: string)
    ensures k in KeysOf(xs, key) <==> |WithKey(xs, key, k)| > 0
  {
    if xs != [] {
      var init := xs[..|xs| - 1];
      KeyHasMembers(init, key, k);
    }
  }

  /** Filtering distributes over concatenation. */
  lemma {:induction false} WithKeyAppend<T>(a: seq<T>, b: seq<T>, key: T -> Option<string>, k: string)
    ensures WithKey(a + b, key, k) == WithKey(a, key, k) + WithKey(b, key, k)
    decreases |b|
  {
    if b == [] {
      assert a + b == a;
    } else {
      var b' := b[..|b| - 1];
      assert (a + b)[..|a + b| - 1] == a + b';
      assert (a + b)[|a + b| - 1] == b[|b| - 1];
      WithKeyAppend(a, b', key, k);
    }
  }

  /** A group holds every element with its key, as often as it occurs, and nothing else. */
  lemma {:induction false} WithKeyCounts<T>(xs: seq<T>, key: T -> Option<string>, k: string, x: T)
    ensures multiset(WithKey(xs, key, k))[x] == if key(x) == Some(k) then multiset(xs)[x] else 0
  {
    if xs != [] {
      var init := xs[..|xs| - 1];
      assert xs == init + [xs[|xs| - 1]];
      WithKeyCounts(init, key, k, x);
    }
  }

  /** Concatenating the groups of distinct keys yields, up to order, exactly the
      elements whose key is among them. */
  lemma {:induction false} GroupsConcatCounts<T>(xs: seq<T>, key: T -> Option<string>, ks: seq<string>, x: T)
    requires Distinct(ks)
    ensures multiset(GroupsConcat(xs, key, ks))[x]
            == if key(x).Some? && key(x).value in ks then multiset(xs)[x] else 0
  {
    if ks != [] {
      var init := ks[..|ks| - 1];
      var k := ks[|ks| - 1];
      assert ks == init + [k];
      GroupsConcatCounts(xs, key, init, x);
      WithKeyCounts(xs, key, k, x);
      assert k !in init by {
        forall i | 0 <= i < |init| ensures init[i] != k {
          assert ks[i] == init[i];
        }
      }
    }
  }

  lemma {:induction false} SumOfAppend<T>(a: seq<T>, b: seq<T>, f: T -> int)
    ensures SumOf(a + b, f) == SumOf(a, f) + SumOf(b, f)
    decreases |b|
  {
    if b == [] {
      assert a + b == a;
    } else {
      var b' := b[..|b| - 1];
      assert (a + b)[..|a + b| - 1] == a + b';
      assert (a + b)[|a + b| - 1] == b[|b| - 1];
      SumOfAppend(a, b', f);
    }
  }

  /** A sum does not depend on the order of its terms. */
  lemma {:induction false} SumOfPermutation<T>(a: seq<T>, b: seq<T>, f: T -> int)
    requires multiset(a) == multiset(b)
    ensures SumOf(a, f) == SumOf(b, f)
    decreases |a|
  {
    if a != [] {
      var a' := a[..|a| - 1];
      var x := a[|a| - 1];
      assert a == a' + [x];
      assert x in multiset(b);
      var j :| 0 <= j < |b| && b[j] == x;
      var b' := b[..j] + b[j + 1..];
      assert b == b[..j] + [x] + b[j + 1..];
      calc {
        multiset(b') + multiset([x]);
        multiset(b[..j]) + multiset(b[j + 1..]) + multiset([x]);
        multiset(b[..j] + [x] + b[j + 1..]);
        multiset(a' + [x]);
        multiset(a') + multiset([x]);
      }
      assert multiset(b') == multiset(b') + multiset([x]) - multiset([x]);
      assert multiset(a') == multiset(a') + multiset([x]) - multiset([x]);
      SumOfPermutation(a', b', f);
      SumOfAppend(b[..j] + [x], b[j + 1..], f);
      SumOfAppend(b[..j], [x], f);
      SumOfAppend(b[..j], b[j + 1..], f);
      assert SumOf([x], f) == f(x) by {
        assert [x][..0] == [];
      }
    }
  }

  /** The position of the first element carrying key `k`. */
  function FirstIndex<T>(xs: seq<T>, key: T -> Option<string>, k: string): (j: nat)
    requires k in KeysOf(xs, key)
    ensures j < |xs| && key(xs[j]) == Some(k)
    ensures forall i :: 0 <= i < j ==> key(xs[i]) != Some(k)
  {
    var init := xs[..|xs| - 1];
    if k in KeysOf(init, key) then FirstIndex(init, key, k)
    else
      assert forall i :: 0 <= i < |init| ==> key(init[i]) != Some(k);
      |xs| - 1
  }

  /** `KeysOf` lists the keys in the order of their first occurrence. */
  lemma {:induction false} KeysOfOrder<T>(xs: seq<T>, key: T -> Option<string>, i: nat, j: nat)
    requires i < j < |KeysOf(xs, key)|
    ensures FirstIndex(xs, key, KeysOf(xs, key)[i]) < FirstIndex(xs, key, KeysOf(xs, key)[j])
  {
    var init, x := xs[..|xs| - 1], xs[|xs| - 1];
    assert xs == init + [x];
    KeysStep(init, x, key);
    var ks, all := KeysOf(init, key), KeysOf(xs, key);
    if j < |ks| {
      assert all[i] == ks[i] && all[j] == ks[j];
      KeysOfOrder(init, key, i, j);
    } else {
      assert all[i] == ks[i];
    }
  }

  /** When the elements carry distinct keys, every group is a single element. */
  lemma {:induction false} DistinctKeysSingletons<T>(xs: seq<T>, key: T -> Option<string>, ks: seq<string>)
    requires |xs| == |ks| && Distinct(ks)
    requires forall i :: 0 <= i < |xs| ==> key(xs[i]) == Some(ks[i])
    ensures forall i :: 0 <= i < |xs| ==> WithKey(xs, key, ks[i]) == [xs[i]]
    ensures forall k :: k !in ks ==> WithKey(xs, key, k) == []
  {
    if xs != [] {
      var n := |xs| - 1;
      var xs', ks' := xs[..n], ks[..n];
      DistinctKeysSingletons(xs', key, ks');
      forall i | 0 <= i < |xs| ensures WithKey(xs, key, ks[i]) == [xs[i]] {
        if i < n {
          assert ks'[i] == ks[i];
          assert ks[n] != ks[i];
        } else {
          assert ks[n] !in ks' by {
            forall m | 0 <= m < n ensures ks'[m] != ks[n] { assert ks'[m] == ks[m]; }
          }
        }
      }
      forall k | k !in ks ensures WithKey(xs, key, k) == [] {
        assert k !in ks' by {
          forall m | 0 <= m < n ensures ks'[m] != k { assert ks'[m] == ks[m]; }
        }
      }
    }
  }

  /** When the elements carry distinct keys, the keys are listed in element order. */
  lemma {:induction false} KeysOfDistinct<T>(xs: seq<T>, key: T -> Option<string>, ks: seq<string>)
    requires |xs| == |ks| && Distinct(ks)
    requires forall i :: 0 <= i < |xs| ==> key(xs[i]) == Some(ks[i])
    ensures KeysOf(xs, key) == ks
  {
    if xs != [] {
      var n := |xs| - 1;
      KeysOfDistinct(xs[..n], key, ks[..n]);
      assert ks[n] !in ks[..n] by {
        forall m | 0 <= m < n ensures ks[..n][m] != ks[n] { assert ks[..n][m] == ks[m]; }
      }
      assert ks == ks[..n] + [ks[n]];
    }
  }

  /** How one more element changes the keys. */
  lemma {:induction false} KeysStep<T>(a: seq<T>, x: T, key: T -> Option<string>)
    ensures KeysOf(a + [x], key) == if key(x).Some? && key(x).value !in KeysOf(a, key)
                                     then KeysOf(a, key) + [key(x).value] else KeysOf(a, key)
  {
    assert (a + [x])[..|a|] == a;
  }

  /** How one more element changes a group and its sum. */
  lemma {:induction false} GroupStep<T>(a: seq<T>, x: T, key: T -> Option<string>, f: T -> int, k: string)
    ensures WithKey(a + [x], key, k) == WithKey(a, key, k) + if key(x) == Some(k) then [x] else []
    ensures SumOf(WithKey(a + [x], key, k), f) == SumOf(WithKey(a, key, k), f) + if key(x) == Some(k) then f(x) else 0
  {
    assert (a + [x])[..|a|] == a;
    var w := WithKey(a, key, k);
    if key(x) == Some(k) {
      assert (w + [x])[..|w|] == w;
    }
  }

  /** A sequence whose elements all carry `k` is its own group. */
  lemma {:induction false} WithKeyAll<T>(xs: seq<T>, key: T -> Option<string>, k: string)
    requires forall i :: 0 <= i < |xs| ==> key(xs[i]) == Some(k)
    ensures WithKey(xs, key, k) == xs
  {
    if xs != [] {
      WithKeyAll(xs[..|xs| - 1], key, k);
    }
  }

  /** A sequence none of whose elements carries `k` has an empty group. */
  lemma {:induction false} WithKeyNone<T>(xs: seq<T>, key: T -> Option<string>, k: string)
    requires forall i :: 0 <= i < |xs| ==> key(xs[i]) != Some(k)
    ensures WithKey(xs, key, k) == []
  {
    if xs != [] {
      WithKeyNone(xs[..|xs| - 1], key, k);
    }
  }
}
