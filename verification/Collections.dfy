/** Sizes, counts and sums over finite collections, and least elements. */
module Collections {

  predicate NoRepeats<T(==)>(s: seq<T>) {
    forall i, j :: 0 <= i < j < |s| ==> s[i] != s[j]
  }

  lemma {:induction false} DistinctSize<T>(s: seq<T>)
    requires NoRepeats(s)
    ensures |set k | k in s| == |s|
  {
    if s != [] {
      var front := s[..|s| - 1];
      DistinctSize(front);
      assert (set k | k in s) == (set k | k in front) + {s[|s| - 1]};
    }
  }

  lemma SubsetSize<T>(small: set<T>, large: set<T>)
    requires small <= large
    ensures |small| <= |large|
  {
    assert large == small + (large - small);
  }

  lemma {:induction false} BoundedSet(s: set<nat>, m: nat)
    requires forall k <- s :: 1 <= k <= m
    ensures |s| <= m
  {
    if m == 0 {
      assert s == {};
    } else {
      BoundedSet(s - {m}, m - 1);
      assert s <= (s - {m}) + {m};
    }
  }

  lemma {:induction false} BoundedMultiset(s: multiset<nat>, m: nat)
    requires forall k <- s :: 1 <= k <= m && s[k] == 1
    ensures |s| <= m
  {
    if m == 0 {
      assert s == multiset{};
    } else {
      BoundedMultiset(s[m := 0], m - 1);
      assert s == s[m := 0] + (if m in s then multiset{m} else multiset{});
    }
  }

  lemma {:induction false} SmallestExists<K>(candidates: map<K, int>)
    requires candidates != map[]
    ensures exists k :: k in candidates && forall o <- candidates :: candidates[k] <= candidates[o]
  {
    var any :| any in candidates;
    var others := candidates - {any};
    if others == map[] {
      assert forall o <- candidates :: o == any by {
        forall o <- candidates ensures o == any { assert o != any ==> o in others; }
      }
    } else {
      SmallestExists(others);
      var k :| k in others && forall o <- others :: others[k] <= others[o];
      var best := if candidates[any] <= candidates[k] then any else k;
      assert forall o <- candidates :: candidates[best] <= candidates[o] by {
        forall o <- candidates ensures candidates[best] <= candidates[o] {
          assert o != any ==> o in others;
        }
      }
    }
  }

  // ---- counting elements ------------------------------------------------------------

  function CountIf<T>(s: seq<T>, p: T -> bool): nat {
    if s == [] then 0 else CountIf(s[..|s| - 1], p) + if p(s[|s| - 1]) then 1 else 0
  }

  lemma {:induction false} CountIfUpdate<T>(s: seq<T>, i: nat, x: T, p: T -> bool)
    requires i < |s|
    ensures CountIf(s[i := x], p) + (if p(s[i]) then 1 else 0) == CountIf(s, p) + (if p(x) then 1 else 0)
  {
    var front := s[..|s| - 1];
    if i == |s| - 1 {
      assert s[i := x][..i] == front;
    } else {
      assert s[i := x][..|s| - 1] == front[i := x];
      CountIfUpdate(front, i, x, p);
    }
  }

  lemma CountIfAppend<T>(s: seq<T>, x: T, p: T -> bool)
    ensures CountIf(s + [x], p) == CountIf(s, p) + if p(x) then 1 else 0
  {
    assert (s + [x])[..|s|] == s;
  }

  lemma {:induction false} CountIfCons<T>(x: T, s: seq<T>, p: T -> bool)
    ensures CountIf([x] + s, p) == (if p(x) then 1 else 0) + CountIf(s, p)
  {
    if s == [] {
      assert [x] + s == [] + [x];
      CountIfAppend([], x, p);
    } else {
      CountIfCons(x, s[..|s| - 1], p);
      assert ([x] + s)[..|s|] == [x] + s[..|s| - 1];
    }
  }

  lemma {:induction false} CountIfZero<T>(s: seq<T>, p: T -> bool)
    ensures CountIf(s, p) == 0 <==> forall i :: 0 <= i < |s| ==> !p(s[i])
  {
    if s != [] {
      CountIfZero(s[..|s| - 1], p);
      assert forall i :: 0 <= i < |s| - 1 ==> s[..|s| - 1][i] == s[i];
    }
  }

  // ---- sums -----------------------------------------------------------------------------

  function Sum<K>(keys: seq<K>, values: map<K, nat>): nat
    requires forall k <- keys :: k in values
  {
    if keys == [] then 0 else Sum(keys[..|keys| - 1], values) + values[keys[|keys| - 1]]
  }

  lemma {:induction false} SumSame<K>(keys: seq<K>, values: map<K, nat>, others: map<K, nat>)
    requires forall k <- keys :: k in values && k in others && values[k] == others[k]
    ensures Sum(keys, values) == Sum(keys, others)
  {
    if keys != [] {
      SumSame(keys[..|keys| - 1], values, others);
    }
  }

  lemma {:induction false} SumUpdate<K>(keys: seq<K>, values: map<K, nat>, key: K, value: nat)
    requires NoRepeats(keys) && (forall k <- keys :: k in values) && key in keys
    ensures Sum(keys, values[key := value]) == Sum(keys, values) - values[key] + value
  {
    var front, last := keys[..|keys| - 1], keys[|keys| - 1];
    if last == key {
      SumSame(front, values[key := value], values);
    } else {
      assert key in front;
      SumUpdate(front, values, key, value);
    }
  }

  lemma SumAppend<K>(keys: seq<K>, values: map<K, nat>, key: K)
    requires (forall k <- keys :: k in values) && key in values
    ensures Sum(keys + [key], values) == Sum(keys, values) + values[key]
  {
    assert (keys + [key])[..|keys|] == keys;
  }

  lemma {:induction false} SumPlus<K>(keys: seq<K>, a: map<K, nat>, b: map<K, nat>, sum: map<K, nat>)
    requires forall k <- keys :: k in a && k in b && k in sum && sum[k] == a[k] + b[k]
    ensures Sum(keys, sum) == Sum(keys, a) + Sum(keys, b)
  {
    if keys != [] {
      SumPlus(keys[..|keys| - 1], a, b, sum);
    }
  }

  lemma {:induction false} SumBound<K>(keys: seq<K>, values: map<K, nat>, bound: nat)
    requires forall k <- keys :: k in values && values[k] <= bound
    ensures Sum(keys, values) <= bound * |keys|
  {
    if keys != [] {
      SumBound(keys[..|keys| - 1], values, bound);
      assert bound * |keys| == bound * (|keys| - 1) + bound;
    }
  }

  lemma {:induction false} SumZero<K>(keys: seq<K>, values: map<K, nat>)
    requires forall k <- keys :: k in values
    ensures Sum(keys, values) == 0 <==> forall k <- keys :: values[k] == 0
  {
    if keys != [] {
      var front := keys[..|keys| - 1];
      SumZero(front, values);
      assert keys == front + [keys[|keys| - 1]];
    }
  }
}
