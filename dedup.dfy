/**
 * First-seen de-duplication, the "is it already listed?" linear scan that the client
 * (gateways, keyed by address) and the monitoring generator (platforms and sites) use.
 */
module Dedup {

  /** Some element of `ys` has key `k`. */
  predicate HasKey<T, K(==)>(ys: seq<T>, key: T -> K, k: K) {
    exists j :: 0 <= j < |ys| && key(ys[j]) == k
  }

  /** The elements of `xs` whose key was not seen earlier in `xs`, in order. */
  function FirstSeen<T, K(==)>(xs: seq<T>, key: T -> K): seq<T>
    decreases |xs|
  {
    if xs == [] then []
    else
      var prev := FirstSeen(xs[..|xs| - 1], key);
      if HasKey(prev, key, key(xs[|xs| - 1])) then prev else prev + [xs[|xs| - 1]]
  }

  /** Index `i` holds the first occurrence of its key in `xs`. */
  ghost predicate IsFirstOccurrence<T, K>(xs: seq<T>, key: T -> K, i: int)
    requires 0 <= i < |xs|
  {
    forall j :: 0 <= j < i ==> key(xs[j]) != key(xs[i])
  }

  /** `y` occurs in `xs` at the first occurrence of its key. */
  ghost predicate FirstOccurs<T, K>(xs: seq<T>, key: T -> K, y: T) {
    exists i :: 0 <= i < |xs| && xs[i] == y && IsFirstOccurrence(xs, key, i)
  }

  ghost predicate DistinctKeys<T, K>(ys: seq<T>, key: T -> K) {
    forall i, j :: 0 <= i < j < |ys| ==> key(ys[i]) != key(ys[j])
  }

  function Self<T>(x: T): T { x }

  /** The "is_listed" scan: looks at every element and raises a flag on a match. */
  method IsListed<T, K(==)>(ys: seq<T>, key: T -> K, k: K) returns (listed: bool)
    ensures listed == HasKey(ys, key, k)
  {
    listed := false;
    for i := 0 to |ys|
      invariant listed == HasKey(ys[..i], key, k)
    {
      if key(ys[i]) == k {
        listed := true;
      }
      assert ys[..i + 1][i] == ys[i];
      assert forall j :: 0 <= j < i ==> ys[..i + 1][j] == ys[..i][j];
    }
    assert ys[..|ys|] == ys;
  }

  /** No two kept elements share a key. */
  lemma {:induction false} FirstSeenDistinct<T, K>(xs: seq<T>, key: T -> K)
    ensures DistinctKeys(FirstSeen(xs, key), key)
    decreases |xs|
  {
    if xs != [] {
      FirstSeenDistinct(xs[..|xs| - 1], key);
    }
  }

  /** Every key that occurs in `xs` is kept. */
  lemma {:induction false} FirstSeenCovers<T, K>(xs: seq<T>, key: T -> K)
    ensures forall i :: 0 <= i < |xs| ==> HasKey(FirstSeen(xs, key), key, key(xs[i]))
    decreases |xs|
  {
    if xs != [] {
      var n := |xs| - 1;
      var init := xs[..n];
      FirstSeenCovers(init, key);
      var prev := FirstSeen(init, key);
      var r := FirstSeen(xs, key);
      forall i | 0 <= i < |xs| ensures HasKey(r, key, key(xs[i])) {
        if i < n {
          assert xs[i] == init[i];
          assert HasKey(prev, key, key(init[i]));
          var j :| 0 <= j < |prev| && key(prev[j]) == key(init[i]);
          assert r[j] == prev[j];
        } else if HasKey(prev, key, key(xs[n])) {
          var j :| 0 <= j < |prev| && key(prev[j]) == key(xs[n]);
          assert r[j] == prev[j];
        } else {
          assert r[|r| - 1] == xs[n];
        }
      }
    }
  }

  /** Every kept element is the first occurrence of its key in `xs`. */
  lemma {:induction false} FirstSeenKeepsFirst<T, K>(xs: seq<T>, key: T -> K)
    ensures forall k :: 0 <= k < |FirstSeen(xs, key)| ==> FirstOccurs(xs, key, FirstSeen(xs, key)[k])
    decreases |xs|
  {
    if xs == [] {
      assert FirstSeen(xs, key) == [];
    } else {
      var n := |xs| - 1;
      var init := xs[..n];
      FirstSeenKeepsFirst(init, key);
      FirstSeenCovers(init, key);
      var prev := FirstSeen(init, key);
      var r := FirstSeen(xs, key);
      assert r == prev || r == prev + [xs[n]];
      forall k | 0 <= k < |r| ensures FirstOccurs(xs, key, r[k]) {
        if k < |prev| {
          assert r[k] == prev[k];
          assert FirstOccurs(init, key, prev[k]);
          var i :| 0 <= i < n && init[i] == prev[k] && IsFirstOccurrence(init, key, i);
          forall j | 0 <= j < i ensures key(xs[j]) != key(xs[i]) {
            assert xs[j] == init[j] && xs[i] == init[i];
          }
          assert 0 <= i < |xs| && xs[i] == r[k] && IsFirstOccurrence(xs, key, i);
        } else {
          assert r[k] == xs[n] && !HasKey(prev, key, key(xs[n]));
          forall j | 0 <= j < n ensures key(xs[j]) != key(xs[n]) {
            assert xs[j] == init[j];
            assert HasKey(prev, key, key(init[j]));
          }
          assert 0 <= n < |xs| && xs[n] == r[k] && IsFirstOccurrence(xs, key, n);
        }
      }
    }
  }

  /** Every first occurrence in `xs` is kept. */
  lemma {:induction false} FirstSeenKeepsAllFirsts<T, K>(xs: seq<T>, key: T -> K)
    ensures forall i :: 0 <= i < |xs| && IsFirstOccurrence(xs, key, i) ==> xs[i] in FirstSeen(xs, key)
    decreases |xs|
  {
    if xs != [] {
      var n := |xs| - 1;
      var init := xs[..n];
      FirstSeenKeepsAllFirsts(init, key);
      FirstSeenKeepsFirst(init, key);
      var prev := FirstSeen(init, key);
      var r := FirstSeen(xs, key);
      forall i | 0 <= i < |xs| && IsFirstOccurrence(xs, key, i) ensures xs[i] in r {
        if i < n {
          assert forall j :: 0 <= j <= i ==> xs[j] == init[j];
          assert IsFirstOccurrence(init, key, i);
          assert init[i] in prev;
        } else {
          forall j | 0 <= j < |prev| ensures key(prev[j]) != key(xs[n]) {
            assert FirstOccurs(init, key, prev[j]);
            var m :| 0 <= m < n && init[m] == prev[j] && IsFirstOccurrence(init, key, m);
            assert xs[m] == init[m];
          }
          assert r == prev + [xs[n]];
        }
      }
    }
  }

  /** Earlier elements are kept first: de-duplicating a prefix gives a prefix of the result. */
  lemma {:induction false} FirstSeenPrefix<T, K>(xs: seq<T>, ys: seq<T>, key: T -> K)
    ensures FirstSeen(xs, key) <= FirstSeen(xs + ys, key)
    decreases |ys|
  {
    if ys == [] {
      assert xs + ys == xs;
    } else {
      var zs := xs + ys;
      assert zs[..|zs| - 1] == xs + ys[..|ys| - 1];
      FirstSeenPrefix(xs, ys[..|ys| - 1], key);
    }
  }

  /**
   * De-duplicating plain values: no value twice, exactly the values of `xs`, each kept
   * at its first occurrence.
   */
  lemma FirstSeenValues<T>(xs: seq<T>)
    ensures forall i, j :: 0 <= i < j < |FirstSeen(xs, Self)| ==> FirstSeen(xs, Self)[i] != FirstSeen(xs, Self)[j]
    ensures forall x :: x in FirstSeen(xs, Self) <==> x in xs
    ensures forall k :: 0 <= k < |FirstSeen(xs, Self)| ==>
              exists i :: 0 <= i < |xs| && xs[i] == FirstSeen(xs, Self)[k] && xs[i] !in xs[..i]
  {
    var r := FirstSeen(xs, Self);
    FirstSeenDistinct(xs, Self);
    FirstSeenCovers(xs, Self);
    FirstSeenKeepsFirst(xs, Self);
    forall x | x in xs ensures x in r {
      var i :| 0 <= i < |xs| && xs[i] == x;
      assert HasKey(r, Self, Self(xs[i]));
    }
    forall x | x in r ensures x in xs {
      var k :| 0 <= k < |r| && r[k] == x;
      assert FirstOccurs(xs, Self, r[k]);
      var i :| 0 <= i < |xs| && xs[i] == r[k] && IsFirstOccurrence(xs, Self, i);
    }
    forall k | 0 <= k < |r|
      ensures exists i :: 0 <= i < |xs| && xs[i] == r[k] && xs[i] !in xs[..i]
    {
      assert FirstOccurs(xs, Self, r[k]);
      var i :| 0 <= i < |xs| && xs[i] == r[k] && IsFirstOccurrence(xs, Self, i);
      assert forall j :: 0 <= j < i ==> xs[..i][j] == xs[j];
    }
  }

  /** A non-empty list of one repeated value de-duplicates to that value alone. */
  lemma {:induction false} FirstSeenConstant<T>(xs: seq<T>, v: T)
    requires xs != [] && forall i :: 0 <= i < |xs| ==> xs[i] == v
    ensures FirstSeen(xs, Self) == [v]
    decreases |xs|
  {
    var init := xs[..|xs| - 1];
    if init == [] {
      assert FirstSeen(init, Self) == [];
    } else {
      FirstSeenConstant(init, v);
      assert Self(FirstSeen(init, Self)[0]) == Self(xs[|xs| - 1]);
    }
  }
}
