// Python's `sorted` and `list.sort` as the source uses them: a stable sort by a key.
// The key is a real so that one definition serves whole seconds and fractional ones.
module Sorting {

  // Puts x after every element whose key is not greater: what keeps the sort stable.
  function Insert<T>(x: T, s: seq<T>, key: T -> real): seq<T> {
    if s == [] || key(s[|s| - 1]) <= key(x) then s + [x]
    else Insert(x, s[..|s| - 1], key) + [s[|s| - 1]]
  }

  function Sort<T>(s: seq<T>, key: T -> real): seq<T> {
    if s == [] then [] else Insert(s[|s| - 1], Sort(s[..|s| - 1], key), key)
  }

  ghost predicate Sorted<T>(s: seq<T>, key: T -> real) {
    forall i, j :: 0 <= i < j < |s| ==> key(s[i]) <= key(s[j])
  }

  function Filter<T>(s: seq<T>, p: T -> bool): seq<T> {
    if s == [] then []
    else Filter(s[..|s| - 1], p) + (if p(s[|s| - 1]) then [s[|s| - 1]] else [])
  }

  function Map<T, U>(s: seq<T>, f: T -> U): (r: seq<U>)
    ensures |r| == |s|
    ensures forall i :: 0 <= i < |s| ==> r[i] == f(s[i])
  {
    seq(|s|, i requires 0 <= i < |s| => f(s[i]))
  }

  lemma {:induction false} InsertAdds<T>(x: T, s: seq<T>, key: T -> real)
    ensures multiset(Insert(x, s, key)) == multiset(s) + multiset{x}
  {
    if s == [] || key(s[|s| - 1]) <= key(x) {
    } else {
      InsertAdds(x, s[..|s| - 1], key);
      assert s == s[..|s| - 1] + [s[|s| - 1]];
    }
  }

  lemma {:induction false} InsertSorted<T>(x: T, s: seq<T>, key: T -> real)
    requires Sorted(s, key)
    ensures Sorted(Insert(x, s, key), key)
    ensures forall i :: 0 <= i < |Insert(x, s, key)| ==> Insert(x, s, key)[i] == x || Insert(x, s, key)[i] in s
  {
    if s == [] || key(s[|s| - 1]) <= key(x) {
    } else {
      InsertSorted(x, s[..|s| - 1], key);
      var r := Insert(x, s[..|s| - 1], key);
      forall i | 0 <= i < |r| ensures key(r[i]) <= key(s[|s| - 1]) {
        if r[i] != x {
          assert r[i] in s[..|s| - 1];
        }
      }
    }
  }

  lemma {:induction false} SortSorts<T>(s: seq<T>, key: T -> real)
    ensures Sorted(Sort(s, key), key)
    ensures multiset(Sort(s, key)) == multiset(s)
    ensures |Sort(s, key)| == |s|
  {
    if s != [] {
      SortSorts(s[..|s| - 1], key);
      InsertSorted(s[|s| - 1], Sort(s[..|s| - 1], key), key);
      InsertAdds(s[|s| - 1], Sort(s[..|s| - 1], key), key);
      assert s == s[..|s| - 1] + [s[|s| - 1]];
    }
    assert |multiset(Sort(s, key))| == |multiset(s)|;
  }

  // What a sort leaves is what came in, whoever is asked by membership.
  lemma {:induction false} SortKeeps<T>(s: seq<T>, key: T -> real)
    ensures forall x :: x in Sort(s, key) <==> x in s
  {
    SortSorts(s, key);
    forall x ensures x in Sort(s, key) <==> x in s {
      assert x in multiset(s) <==> x in s;
      assert x in multiset(Sort(s, key)) <==> x in Sort(s, key);
    }
  }

  lemma {:induction false} FilterAppend<T>(s: seq<T>, t: seq<T>, p: T -> bool)
    ensures Filter(s + t, p) == Filter(s, p) + Filter(t, p)
  {
    if t == [] {
      assert s + t == s;
    } else {
      assert (s + t)[..|s + t| - 1] == s + t[..|t| - 1];
      FilterAppend(s, t[..|t| - 1], p);
    }
  }

  lemma {:induction false} FilterSnoc<T>(s: seq<T>, x: T, p: T -> bool)
    ensures Filter(s + [x], p) == Filter(s, p) + if p(x) then [x] else []
  {
    assert (s + [x])[..|s + [x]| - 1] == s;
  }

  lemma {:induction false} FilterIn<T>(s: seq<T>, p: T -> bool)
    ensures |Filter(s, p)| <= |s|
    ensures forall i :: 0 <= i < |Filter(s, p)| ==> Filter(s, p)[i] in s && p(Filter(s, p)[i])
  {
    if s != [] {
      FilterIn(s[..|s| - 1], p);
      var f := Filter(s[..|s| - 1], p);
      forall i | 0 <= i < |f| ensures f[i] in s {
        assert f[i] in s[..|s| - 1];
      }
    }
  }

  lemma {:induction false} FilterHolds<T>(s: seq<T>, p: T -> bool, x: T)
    ensures x in Filter(s, p) <==> x in s && p(x)
  {
    if s != [] {
      FilterHolds(s[..|s| - 1], p, x);
      assert s == s[..|s| - 1] + [s[|s| - 1]];
    }
  }

  lemma {:induction false} FilterAround<T>(a: seq<T>, x: T, b: seq<T>, p: T -> bool)
    ensures multiset(Filter(a + [x] + b, p))
         == multiset(Filter(a + b, p)) + if p(x) then multiset{x} else multiset{}
  {
    FilterAppend(a + [x], b, p);
    FilterSnoc(a, x, p);
    FilterAppend(a, b, p);
    CountOut(Filter(a, p), x, Filter(b, p), p(x));
  }

  lemma {:induction false} Rejoined<T>(t: seq<T>, i: nat)
    requires i < |t|
    ensures t[..i] + [t[i]] + t[i + 1..] == t
  {
  }

  lemma {:induction false} FilterTakeOut<T>(t: seq<T>, p: T -> bool, i: nat)
    requires i < |t|
    ensures multiset(Filter(t, p))
         == multiset(Filter(t[..i] + t[i + 1..], p)) + (if p(t[i]) then multiset{t[i]} else multiset{})
  {
    Rejoined(t, i);
    FilterAround(t[..i], t[i], t[i + 1..], p);
  }

  lemma {:induction false} CountOut<T>(a: seq<T>, x: T, b: seq<T>, counted: bool)
    ensures multiset(a + (if counted then [x] else []) + b)
         == multiset(a + b) + if counted then multiset{x} else multiset{}
  {
    assert a + [] == a;
  }

  lemma {:induction false} FilterPermutes<T>(s: seq<T>, t: seq<T>, p: T -> bool)
    requires multiset(s) == multiset(t)
    ensures multiset(Filter(s, p)) == multiset(Filter(t, p))
    decreases |s|
  {
    if s == [] {
      PermutedEmpty(t);
    } else {
      var i := PermutedLast(s, t);
      FilterPermutes(s[..|s| - 1], t[..i] + t[i + 1..], p);
      FilterTakeOut(t, p, i);
    }
  }

  lemma {:induction false} FilterSorted<T>(s: seq<T>, key: T -> real, p: T -> bool)
    requires Sorted(s, key)
    ensures Sorted(Filter(s, p), key)
  {
    if s != [] {
      FilterSorted(s[..|s| - 1], key, p);
      FilterIn(s[..|s| - 1], p);
      var f := Filter(s[..|s| - 1], p);
      forall i | 0 <= i < |f| ensures key(f[i]) <= key(s[|s| - 1]) {
        assert f[i] in s[..|s| - 1];
      }
    }
  }

  lemma {:induction false} InsertBefore<T>(x: T, s: seq<T>, last: T, key: T -> real)
    requires key(x) < key(last)
    ensures Insert(x, s + [last], key) == Insert(x, s, key) + [last]
  {
    assert (s + [last])[..|s|] == s;
  }

  lemma {:induction false} LastIsHighest<T>(s: seq<T>, y: T, key: T -> real)
    requires Sorted(s, key) && y in s
    ensures key(y) <= key(s[|s| - 1])
  {
    var i :| 0 <= i < |s| && s[i] == y;
  }

  lemma {:induction false} InsertAfterAll<T>(x: T, s: seq<T>, key: T -> real, p: T -> bool)
    requires Sorted(s, key) && s != [] && key(s[|s| - 1]) <= key(x)
    ensures Insert(x, Filter(s, p), key) == Filter(s, p) + [x]
  {
    var f := Filter(s, p);
    if f != [] {
      FilterIn(s, p);
      LastIsHighest(s, f[|f| - 1], key);
    }
  }

  lemma {:induction false} InsertFilter<T>(x: T, s: seq<T>, key: T -> real, p: T -> bool)
    requires Sorted(s, key)
    ensures Filter(Insert(x, s, key), p)
         == if p(x) then Insert(x, Filter(s, p), key) else Filter(s, p)
  {
    if s == [] {
      FilterSnoc([], x, p);
    } else if key(s[|s| - 1]) <= key(x) {
      FilterSnoc(s, x, p);
      InsertAfterAll(x, s, key, p);
    } else {
      var init, last := s[..|s| - 1], s[|s| - 1];
      InsertFilter(x, init, key, p);
      FilterSnoc(Insert(x, init, key), last, p);
      if p(last) {
        InsertBefore(x, Filter(init, p), last, key);
      } else {
        assert Filter(s, p) == Filter(init, p);
      }
    }
  }

  // Stability in its strongest form: sorting and picking out a kind of element commute.
  lemma {:induction false} SortFilter<T>(s: seq<T>, key: T -> real, p: T -> bool)
    ensures Filter(Sort(s, key), p) == Sort(Filter(s, p), key)
  {
    if s != [] {
      var init, last := s[..|s| - 1], s[|s| - 1];
      SortFilter(init, key, p);
      SortSorts(init, key);
      InsertFilter(last, Sort(init, key), key, p);
      if p(last) {
        SortSnoc(Filter(init, p), last, key);
        assert Filter(s, p) == Filter(init, p) + [last];
      } else {
        assert Filter(s, p) == Filter(init, p);
      }
    }
  }

  lemma {:induction false} SortSnoc<T>(s: seq<T>, x: T, key: T -> real)
    ensures Sort(s + [x], key) == Insert(x, Sort(s, key), key)
  {
    assert (s + [x])[..|s + [x]| - 1] == s;
  }

  lemma {:induction false} SortOfSorted<T>(s: seq<T>, key: T -> real)
    requires Sorted(s, key)
    ensures Sort(s, key) == s
  {
    if s != [] {
      SortOfSorted(s[..|s| - 1], key);
      assert s == s[..|s| - 1] + [s[|s| - 1]];
    }
  }

  // Where an element is put: behind all that are not greater, before all that are.
  lemma {:induction false} InsertAt<T>(x: T, s: seq<T>, key: T -> real) returns (m: nat)
    requires Sorted(s, key)
    ensures m <= |s| && Insert(x, s, key) == s[..m] + [x] + s[m..]
    ensures forall k :: 0 <= k < |s| && key(s[k]) <= key(x) ==> k < m
  {
    if s == [] || key(s[|s| - 1]) <= key(x) {
      m := |s|;
    } else {
      m := InsertAt(x, s[..|s| - 1], key);
    }
  }

  lemma {:induction false} InsertKeepsOrder<T>(x: T, s: seq<T>, key: T -> real, p: nat, q: nat) returns (i: nat, j: nat)
    requires Sorted(s, key) && p < q < |s|
    ensures i < j < |Insert(x, s, key)| && Insert(x, s, key)[i] == s[p] && Insert(x, s, key)[j] == s[q]
  {
    var m := InsertAt(x, s, key);
    i, j := if p < m then p else p + 1, if q < m then q else q + 1;
  }

  lemma {:induction false} InsertGoesBehind<T>(x: T, s: seq<T>, key: T -> real, p: nat) returns (q: nat)
    requires Sorted(s, key) && p < |s| && key(s[p]) <= key(x)
    ensures p < q < |Insert(x, s, key)| && Insert(x, s, key)[p] == s[p] && Insert(x, s, key)[q] == x
  {
    q := InsertAt(x, s, key);
  }

  // Two elements of one key stay in the order they came in.
  lemma {:induction false} SortIsStable<T>(s: seq<T>, key: T -> real, i: nat, j: nat) returns (p: nat, q: nat)
    requires i < j < |s| && key(s[i]) == key(s[j])
    ensures p < q < |Sort(s, key)| && Sort(s, key)[p] == s[i] && Sort(s, key)[q] == s[j]
  {
    var init, last := s[..|s| - 1], s[|s| - 1];
    SortSorts(init, key);
    if j < |init| {
      p, q := SortIsStable(init, key, i, j);
      p, q := InsertKeepsOrder(last, Sort(init, key), key, p, q);
    } else {
      p := SortedHas(init, key, i);
      q := InsertGoesBehind(last, Sort(init, key), key, p);
    }
  }

  lemma {:induction false} SortedHas<T>(s: seq<T>, key: T -> real, i: nat) returns (p: nat)
    requires i < |s|
    ensures p < |Sort(s, key)| && Sort(s, key)[p] == s[i]
  {
    SortKeeps(s, key);
    assert s[i] in Sort(s, key);
    p :| 0 <= p < |Sort(s, key)| && Sort(s, key)[p] == s[i];
  }

  // Two elements picked out stay in the order they came in.
  lemma {:induction false} FilterInOrder<T>(s: seq<T>, p: T -> bool, i: nat, j: nat) returns (a: nat, b: nat)
    requires i < j < |s| && p(s[i]) && p(s[j])
    ensures a < b < |Filter(s, p)| && Filter(s, p)[a] == s[i] && Filter(s, p)[b] == s[j]
  {
    var init := s[..|s| - 1];
    if j < |init| {
      a, b := FilterInOrder(init, p, i, j);
    } else {
      FilterHolds(init, p, init[i]);
      a :| 0 <= a < |Filter(init, p)| && Filter(init, p)[a] == init[i];
      b := |Filter(init, p)|;
    }
  }

  // The position of an element, and the list with that position taken out.
  lemma {:induction false} Remove<T>(s: seq<T>, x: T) returns (i: nat)
    requires x in s
    ensures i < |s| && s[i] == x
    ensures multiset(s[..i] + s[i + 1..]) == multiset(s) - multiset{x}
  {
    i :| 0 <= i < |s| && s[i] == x;
    assert s == s[..i] + [x] + s[i + 1..];
  }

  lemma {:induction false} PermutedLast<T>(s: seq<T>, t: seq<T>) returns (i: nat)
    requires multiset(s) == multiset(t) && s != []
    ensures i < |t| && t[i] == s[|s| - 1]
    ensures multiset(s[..|s| - 1]) == multiset(t[..i] + t[i + 1..])
  {
    assert s == s[..|s| - 1] + [s[|s| - 1]];
    assert s[|s| - 1] in multiset(t);
    i := Remove(t, s[|s| - 1]);
  }

  lemma {:induction false} PermutedEmpty<T>(t: seq<T>)
    requires multiset(t) == multiset{}
    ensures t == []
  {
    assert |multiset(t)| == |t|;
  }

  lemma {:induction false} MapTakeOut<T, U>(t: seq<T>, f: T -> U, i: nat)
    requires i < |t|
    ensures multiset(Map(t, f)) == multiset(Map(t[..i] + t[i + 1..], f)) + multiset{f(t[i])}
  {
    assert Map(t, f) == Map(t[..i], f) + [f(t[i])] + Map(t[i + 1..], f);
    assert Map(t[..i] + t[i + 1..], f) == Map(t[..i], f) + Map(t[i + 1..], f);
  }

  lemma {:induction false} MapPermutes<T, U>(s: seq<T>, t: seq<T>, f: T -> U)
    requires multiset(s) == multiset(t)
    ensures multiset(Map(s, f)) == multiset(Map(t, f))
    decreases |s|
  {
    if s == [] {
      PermutedEmpty(t);
    } else {
      var i := PermutedLast(s, t);
      MapPermutes(s[..|s| - 1], t[..i] + t[i + 1..], f);
      MapTakeOut(t, f, i);
      assert Map(s, f) == Map(s[..|s| - 1], f) + [f(s[|s| - 1])];
    }
  }

  ghost predicate Ascending(s: seq<real>) {
    forall i, j :: 0 <= i < j < |s| ==> s[i] <= s[j]
  }

  // Two ordered lists holding the same numbers are the same list.
  lemma {:induction false} SortedUnique(s: seq<real>, t: seq<real>)
    requires Ascending(s) && Ascending(t)
    requires multiset(s) == multiset(t)
    ensures s == t
  {
    if s == [] {
      PermutedEmpty(t);
    } else {
      LastIsGreatest(s, t);
      LastCounted(s);
      LastCounted(t);
      SortedUnique(s[..|s| - 1], t[..|t| - 1]);
      assert s == s[..|s| - 1] + [s[|s| - 1]];
    }
  }

  lemma {:induction false} LastCounted(s: seq<real>)
    requires s != []
    ensures multiset(s[..|s| - 1]) == multiset(s) - multiset{s[|s| - 1]}
  {
    assert s == s[..|s| - 1] + [s[|s| - 1]];
  }

  lemma {:induction false} LastIsGreatest(s: seq<real>, t: seq<real>)
    requires Ascending(s) && Ascending(t) && s != []
    requires multiset(s) == multiset(t)
    ensures t != [] && s[|s| - 1] == t[|t| - 1]
  {
    var i := PermutedLast(s, t);
    var j := PermutedLast(t, s);
  }

  // The keys of a sorted list do not depend on the order its elements came in.
  lemma {:induction false} SortKeysUnique<T>(s: seq<T>, t: seq<T>, key: T -> real)
    requires multiset(s) == multiset(t)
    ensures Map(Sort(s, key), key) == Map(Sort(t, key), key)
  {
    SortSorts(s, key);
    SortSorts(t, key);
    MapPermutes(Sort(s, key), Sort(t, key), key);
    SortedUnique(Map(Sort(s, key), key), Map(Sort(t, key), key));
  }
}
