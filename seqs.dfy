/** Sequence vocabulary shared by the scanner and the query handlers: subsequences,
    order-preserving filters (a boolean row mask) and keep-first de-duplication
    (a `drop_duplicates` that keeps the first row of every key). */
module Seqs {

  /** xs is obtained from ys by deleting zero or more elements, keeping the order. */
  ghost predicate Subseq<T>(xs: seq<T>, ys: seq<T>)
    decreases |ys|
  {
    if xs == [] then true
    else if ys == [] then false
    else (xs[0] == ys[0] && Subseq(xs[1..], ys[1..])) || Subseq(xs, ys[1..])
  }

  /** The rows of xs that satisfy p, in their original order. */
  function Filter<T>(p: T -> bool, xs: seq<T>): (r: seq<T>)
    ensures |r| <= |xs|
    ensures forall i :: 0 <= i < |r| ==> r[i] in xs && p(r[i])
    ensures forall i :: 0 <= i < |xs| && p(xs[i]) ==> xs[i] in r
  {
    if xs == [] then []
    else if p(xs[0]) then [xs[0]] + Filter(p, xs[1..])
    else Filter(p, xs[1..])
  }

  /** A filter keeps the order of what it keeps. */
  lemma {:induction false} FilterIsSubseq<T>(p: T -> bool, xs: seq<T>)
    ensures Subseq(Filter(p, xs), xs)
  {
    if xs != [] {
      FilterIsSubseq(p, xs[1..]);
      if p(xs[0]) {
        assert Filter(p, xs)[0] == xs[0] && Filter(p, xs)[1..] == Filter(p, xs[1..]);
      }
    }
  }

  /** A filter keeps every occurrence of what it keeps and none of the rest. */
  lemma {:induction false} FilterCount<T>(p: T -> bool, xs: seq<T>, x: T)
    ensures multiset(Filter(p, xs))[x] == if p(x) then multiset(xs)[x] else 0
  {
    if xs != [] {
      FilterCount(p, xs[1..], x);
      assert xs == [xs[0]] + xs[1..];
      assert multiset(xs) == multiset([xs[0]]) + multiset(xs[1..]);
    }
  }

  /** A column projection: f applied to every row, in order. */
  function Map<T, U>(f: T -> U, xs: seq<T>): (r: seq<U>)
    ensures |r| == |xs|
    ensures forall i :: 0 <= i < |xs| ==> r[i] == f(xs[i])
  {
    seq(|xs|, i requires 0 <= i < |xs| => f(xs[i]))
  }

  /** The set of keys that occur in xs. */
  ghost function KeysOf<T, K>(key: T -> K, xs: seq<T>): set<K>
  {
    set x | x in xs :: key(x)
  }

  /** No two elements of xs share a key. */
  ghost predicate DistinctKeys<T, K>(key: T -> K, xs: seq<T>)
  {
    forall i, j :: 0 <= i < j < |xs| ==> key(xs[i]) != key(xs[j])
  }

  lemma KeysOfCons<T, K>(key: T -> K, xs: seq<T>)
    requires xs != []
    ensures KeysOf(key, xs) == {key(xs[0])} + KeysOf(key, xs[1..])
  {
    assert xs == [xs[0]] + xs[1..];
  }

  lemma KeysOfConcat<T, K>(key: T -> K, xs: seq<T>, ys: seq<T>)
    ensures KeysOf(key, xs + ys) == KeysOf(key, xs) + KeysOf(key, ys)
  {
  }

  /** Keep-first de-duplication: walking left to right, a row is kept when its key
      is neither in `seen` nor the key of a row kept before it. */
  function KeepFirst<T, K(==)>(key: T -> K, xs: seq<T>, seen: set<K>): (r: seq<T>)
    ensures forall i :: 0 <= i < |r| ==> r[i] in xs && key(r[i]) !in seen
    ensures DistinctKeys(key, r)
    decreases |xs|
  {
    if xs == [] then []
    else if key(xs[0]) in seen then KeepFirst(key, xs[1..], seen)
    else [xs[0]] + KeepFirst(key, xs[1..], seen + {key(xs[0])})
  }

  /** De-duplication loses no key: every key not already seen is represented. */
  lemma {:induction false} KeepFirstKeys<T, K>(key: T -> K, xs: seq<T>, seen: set<K>)
    ensures KeysOf(key, KeepFirst(key, xs, seen)) == KeysOf(key, xs) - seen
    decreases |xs|
  {
    if xs != [] {
      var k := key(xs[0]);
      KeysOfCons(key, xs);
      if k in seen {
        KeepFirstKeys(key, xs[1..], seen);
      } else {
        var r := KeepFirst(key, xs, seen);
        KeepFirstKeys(key, xs[1..], seen + {k});
        assert r[0] == xs[0] && r[1..] == KeepFirst(key, xs[1..], seen + {k});
        KeysOfCons(key, r);
      }
    }
  }

  /** De-duplication keeps the order of what it keeps. */
  lemma {:induction false} KeepFirstIsSubseq<T, K>(key: T -> K, xs: seq<T>, seen: set<K>)
    ensures Subseq(KeepFirst(key, xs, seen), xs)
    decreases |xs|
  {
    if xs != [] {
      var k := key(xs[0]);
      if k in seen {
        KeepFirstIsSubseq(key, xs[1..], seen);
      } else {
        var r := KeepFirst(key, xs, seen);
        KeepFirstIsSubseq(key, xs[1..], seen + {k});
        assert r[0] == xs[0] && r[1..] == KeepFirst(key, xs[1..], seen + {k});
      }
    }
  }

  /** The first row of every key (not already seen) survives de-duplication. */
  lemma {:induction false} KeepFirstRetainsFirst<T, K>(key: T -> K, xs: seq<T>, seen: set<K>, i: nat)
    requires i < |xs| && key(xs[i]) !in seen
    requires forall j :: 0 <= j < i ==> key(xs[j]) != key(xs[i])
    ensures xs[i] in KeepFirst(key, xs, seen)
    decreases i
  {
    if i > 0 {
      var k := key(xs[0]);
      var seen' := if k in seen then seen else seen + {k};
      assert key(xs[1..][i - 1]) == key(xs[i]) && key(xs[i]) !in seen';
      KeepFirstRetainsFirst(key, xs[1..], seen', i - 1);
    }
  }

  /** Among rows whose key occurs in the leading part xs, only rows of xs survive:
      an earlier row always beats a later one with the same key. */
  lemma {:induction false} KeepFirstPrefersEarlier<T, K>(key: T -> K, xs: seq<T>, ys: seq<T>, seen: set<K>, x: T)
    requires x in KeepFirst(key, xs + ys, seen)
    requires key(x) in KeysOf(key, xs)
    ensures x in xs
    decreases |xs|
  {
    if xs != [] && x != xs[0] {
      var k := key(xs[0]);
      var seen' := if k in seen then seen else seen + {k};
      assert (xs + ys)[0] == xs[0] && (xs + ys)[1..] == xs[1..] + ys;
      assert x in KeepFirst(key, xs[1..] + ys, seen');
      KeysOfCons(key, xs);
      KeepFirstPrefersEarlier(key, xs[1..], ys, seen', x);
    }
  }

  /** A sequence whose keys are already distinct (and unseen) is left as it is. */
  lemma {:induction false} KeepFirstOfDistinct<T, K>(key: T -> K, xs: seq<T>, seen: set<K>)
    requires DistinctKeys(key, xs)
    requires forall i :: 0 <= i < |xs| ==> key(xs[i]) !in seen
    ensures KeepFirst(key, xs, seen) == xs
    decreases |xs|
  {
    if xs != [] {
      var k := key(xs[0]);
      assert forall i :: 0 <= i < |xs[1..]| ==> key(xs[1..][i]) != k by {
        forall i | 0 <= i < |xs[1..]| ensures key(xs[1..][i]) != k {
          assert xs[1..][i] == xs[i + 1];
        }
      }
      KeepFirstOfDistinct(key, xs[1..], seen + {k});
    }
  }

  /** Rows whose keys have all been seen are all dropped. */
  lemma {:induction false} KeepFirstOfSeen<T, K>(key: T -> K, ys: seq<T>, seen: set<K>)
    requires forall y :: y in ys ==> key(y) in seen
    ensures KeepFirst(key, ys, seen) == []
    decreases |ys|
  {
    if ys != [] {
      assert ys[0] in ys;
      KeepFirstOfSeen(key, ys[1..], seen);
    }
  }

  /** Appending rows whose keys are all known already changes nothing. */
  lemma {:induction false} KeepFirstAbsorbs<T, K>(key: T -> K, xs: seq<T>, ys: seq<T>, seen: set<K>)
    requires forall y :: y in ys ==> key(y) in KeysOf(key, xs) || key(y) in seen
    ensures KeepFirst(key, xs + ys, seen) == KeepFirst(key, xs, seen)
    decreases |xs|
  {
    if xs == [] {
      assert xs + ys == ys;
      KeepFirstOfSeen(key, ys, seen);
    } else {
      var k := key(xs[0]);
      var seen' := if k in seen then seen else seen + {k};
      assert (xs + ys)[0] == xs[0] && (xs + ys)[1..] == xs[1..] + ys;
      KeysOfCons(key, xs);
      KeepFirstAbsorbs(key, xs[1..], ys, seen');
    }
  }

  /** A leading part whose keys are distinct and unseen is kept whole, and what
      follows it is de-duplicated against its keys. */
  lemma {:induction false} KeepFirstDistinctPrefix<T, K>(key: T -> K, xs: seq<T>, ys: seq<T>, seen: set<K>)
    requires DistinctKeys(key, xs)
    requires forall i :: 0 <= i < |xs| ==> key(xs[i]) !in seen
    ensures KeepFirst(key, xs + ys, seen) == xs + KeepFirst(key, ys, seen + KeysOf(key, xs))
    decreases |xs|
  {
    if xs == [] {
      assert xs + ys == ys;
      assert KeysOf(key, xs) == {};
      assert seen + KeysOf(key, xs) == seen;
    } else {
      var k := key(xs[0]);
      assert forall i :: 0 <= i < |xs[1..]| ==> key(xs[1..][i]) !in seen + {k} by {
        forall i | 0 <= i < |xs[1..]| ensures key(xs[1..][i]) !in seen + {k} {
          assert xs[1..][i] == xs[i + 1];
        }
      }
      assert (xs + ys)[0] == xs[0] && (xs + ys)[1..] == xs[1..] + ys;
      KeepFirstDistinctPrefix(key, xs[1..], ys, seen + {k});
      KeysOfCons(key, xs);
      assert seen + {k} + KeysOf(key, xs[1..]) == seen + KeysOf(key, xs);
      assert xs == [xs[0]] + xs[1..];
    }
  }

  function Id<T>(x: T): T { x }

  /** The position of the first occurrence of x in xs. */
  ghost function FirstIndex<T>(xs: seq<T>, x: T): (i: nat)
    requires x in xs
    ensures i < |xs| && xs[i] == x
    ensures forall j :: 0 <= j < i ==> xs[j] != x
  {
    if xs[0] == x then 0 else 1 + FirstIndex(xs[1..], x)
  }

  /** Every element of r occurs in xs, and r lists them by strictly increasing
      position of their first occurrence in xs. */
  ghost predicate InFirstOccurrenceOrder<T>(r: seq<T>, xs: seq<T>)
  {
    forall i, j :: 0 <= i < j < |r| ==>
      r[i] in xs && r[j] in xs && FirstIndex(xs, r[i]) < FirstIndex(xs, r[j])
  }

  /** Full-row keep-first de-duplication lists what it keeps by first occurrence. */
  lemma {:induction false} KeepFirstOrder<T>(xs: seq<T>, seen: set<T>)
    ensures InFirstOccurrenceOrder(KeepFirst(Id, xs, seen), xs)
    decreases |xs|
  {
    if xs != [] {
      var x := xs[0];
      var seen' := if x in seen then seen else seen + {x};
      var r' := KeepFirst(Id, xs[1..], seen');
      KeepFirstOrder(xs[1..], seen');
      forall k | 0 <= k < |r'|
        ensures r'[k] != x && r'[k] in xs && FirstIndex(xs, r'[k]) == 1 + FirstIndex(xs[1..], r'[k])
      {
        assert Id(r'[k]) !in seen';
      }
      var r := KeepFirst(Id, xs, seen);
      if x !in seen {
        assert r == [x] + r';
        forall i, j | 0 <= i < j < |r|
          ensures r[i] in xs && r[j] in xs && FirstIndex(xs, r[i]) < FirstIndex(xs, r[j])
        {
          assert r[j] == r'[j - 1];
          if i > 0 {
            assert r[i] == r'[i - 1];
          }
        }
      }
    }
  }

  /** Full-row de-duplication keeping the first copy. */
  function Distinct<T(==)>(xs: seq<T>): (r: seq<T>)
    ensures forall i :: 0 <= i < |r| ==> r[i] in xs
    ensures forall i :: 0 <= i < |xs| ==> xs[i] in r
    ensures forall i, j :: 0 <= i < j < |r| ==> r[i] != r[j]
    ensures InFirstOccurrenceOrder(r, xs)
  {
    var r := KeepFirst(Id, xs, {});
    KeepFirstOrder(xs, {});
    KeepFirstKeys(Id, xs, {});
    assert forall i :: 0 <= i < |xs| ==> Id(xs[i]) in KeysOf(Id, r);
    assert DistinctKeys(Id, r);
    r
  }

  lemma DistinctIsSubseq<T>(xs: seq<T>)
    ensures Subseq(Distinct(xs), xs)
  {
    KeepFirstIsSubseq(Id, xs, {});
  }
}
