/** Sequence vocabulary shared by the analytics: filtering, counting,
    summing, the keys of a dictionary filled in order, and the stable sort
    that JavaScript's `Array.prototype.sort` performs. */
module Sequences {

  /** The elements of `s` that satisfy `p`, in their original order
      (`Array.prototype.filter`, SQL `WHERE`). */
  function Filter<T(==)>(s: seq<T>, p: T -> bool): (r: seq<T>)
    ensures |r| <= |s|
    ensures forall i :: 0 <= i < |r| ==> p(r[i])
    decreases |s|
  {
    if s == [] then []
    else
      var init := s[..|s| - 1];
      assert s == init + [s[|s| - 1]];
      Filter(init, p) + (if p(s[|s| - 1]) then [s[|s| - 1]] else [])
  }

  /** An element is kept exactly when it occurs and satisfies `p`. */
  lemma {:induction false} FilterMember<T>(s: seq<T>, p: T -> bool)
    ensures forall x :: x in Filter(s, p) <==> x in s && p(x)
    decreases |s|
  {
    if s != [] {
      var init := s[..|s| - 1];
      FilterMember(init, p);
      assert s == init + [s[|s| - 1]];
    }
  }

  /** The first element kept is the first element of `s` that satisfies `p`. */
  lemma {:induction false} FilterHead<T>(s: seq<T>, p: T -> bool)
    requires Filter(s, p) != []
    ensures exists i :: 0 <= i < |s| && s[i] == Filter(s, p)[0] && forall j :: 0 <= j < i ==> !p(s[j])
    decreases |s|
  {
    var init := s[..|s| - 1];
    var x := s[|s| - 1];
    assert s == init + [x];
    FilterAppend(init, x, p);
    if Filter(init, p) != [] {
      FilterHead(init, p);
      var i :| 0 <= i < |init| && init[i] == Filter(init, p)[0] && forall j :: 0 <= j < i ==> !p(init[j]);
      assert s[i] == init[i];
    } else {
      FilterMember(init, p);
      assert forall j :: 0 <= j < |init| ==> init[j] in init && !p(s[j]);
      assert s[|s| - 1] == Filter(s, p)[0];
    }
  }

  /** Sequences that are reorderings of each other hold the same elements. */
  lemma SameElements<T>(a: seq<T>, b: seq<T>)
    requires multiset(a) == multiset(b)
    ensures forall x :: x in a <==> x in b
  {
    forall x
      ensures x in a <==> x in b
    {
      assert x in a <==> x in multiset(a);
      assert x in b <==> x in multiset(b);
    }
  }

  lemma FilterAppend<T>(s: seq<T>, x: T, p: T -> bool)
    ensures Filter(s + [x], p) == Filter(s, p) + (if p(x) then [x] else [])
  {
    assert (s + [x])[..|s|] == s;
  }

  lemma {:induction false} FilterConcat<T>(s: seq<T>, t: seq<T>, p: T -> bool)
    ensures Filter(s + t, p) == Filter(s, p) + Filter(t, p)
    decreases |t|
  {
    if t == [] {
      assert s + t == s;
    } else {
      var t' := t[..|t| - 1];
      var x := t[|t| - 1];
      FilterConcat(s, t', p);
      calc {
        Filter(s + t, p);
        { assert s + t == (s + t') + [x]; }
        Filter((s + t') + [x], p);
        { FilterAppend(s + t', x, p); }
        Filter(s, p) + Filter(t', p) + (if p(x) then [x] else []);
        { FilterAppend(t', x, p); assert t == t' + [x]; }
        Filter(s, p) + Filter(t, p);
      }
    }
  }

  /** Nothing is kept when no element satisfies `p`. */
  lemma {:induction false} FilterNone<T>(s: seq<T>, p: T -> bool)
    requires forall i :: 0 <= i < |s| ==> !p(s[i])
    ensures Filter(s, p) == []
    decreases |s|
  {
    if s != [] {
      FilterNone(s[..|s| - 1], p);
    }
  }

  /** Predicates that agree on every element of `s` keep the same elements. */
  lemma {:induction false} FilterAgree<T>(s: seq<T>, p: T -> bool, q: T -> bool)
    requires forall x :: x in s ==> p(x) == q(x)
    ensures Filter(s, p) == Filter(s, q)
    decreases |s|
  {
    if s != [] {
      var init := s[..|s| - 1];
      assert forall x :: x in init ==> x in s;
      FilterAgree(init, p, q);
    }
  }

  /** Cutting off ends whose elements all fail `p` keeps the same elements. */
  lemma FilterInfix<T>(s: seq<T>, i: int, j: int, p: T -> bool)
    requires 0 <= i <= j <= |s|
    requires forall k :: 0 <= k < i ==> !p(s[k])
    requires forall k :: j <= k < |s| ==> !p(s[k])
    ensures Filter(s[i..j], p) == Filter(s, p)
  {
    FilterDropFront(s, i, p);
    var t := s[i..];
    FilterDropBack(t, j - i, p);
    assert t[..j - i] == s[i..j];
  }

  lemma FilterDropFront<T>(s: seq<T>, i: int, p: T -> bool)
    requires 0 <= i <= |s|
    requires forall k :: 0 <= k < i ==> !p(s[k])
    ensures Filter(s[i..], p) == Filter(s, p)
  {
    var a := s[..i];
    FilterNone(a, p);
    assert s == a + s[i..];
    FilterConcat(a, s[i..], p);
  }

  lemma FilterDropBack<T>(s: seq<T>, j: int, p: T -> bool)
    requires 0 <= j <= |s|
    requires forall k :: j <= k < |s| ==> !p(s[k])
    ensures Filter(s[..j], p) == Filter(s, p)
  {
    var c := s[j..];
    FilterNone(c, p);
    assert s == s[..j] + c;
    FilterConcat(s[..j], c, p);
    assert Filter(s[..j], p) + [] == Filter(s[..j], p);
  }

  /** Filtering by two conditions keeps the same elements in whichever
      order the conditions are applied. */
  lemma {:induction false} FilterCommute<T>(s: seq<T>, p: T -> bool, q: T -> bool)
    ensures Filter(Filter(s, p), q) == Filter(Filter(s, q), p)
    decreases |s|
  {
    if s != [] {
      var init := s[..|s| - 1];
      var x := s[|s| - 1];
      FilterCommute(init, p, q);
      var both := if p(x) && q(x) then [x] else [];
      assert Filter(if p(x) then [x] else [], q) == both by {
        assert ([] + [x])[..0] == [];
      }
      assert Filter(if q(x) then [x] else [], p) == both by {
        assert ([] + [x])[..0] == [];
      }
      FilterConcat(Filter(init, p), if p(x) then [x] else [], q);
      FilterConcat(Filter(init, q), if q(x) then [x] else [], p);
    }
  }

  /** The number of elements of `s` that satisfy `p`. */
  function Count<T(==)>(s: seq<T>, p: T -> bool): nat
  {
    |Filter(s, p)|
  }

  /** The sum of a sequence of numbers, added left to right (`reduce((a, b) => a + b, 0)`). */
  function Sum(s: seq<real>): real
    decreases |s|
  {
    if s == [] then 0.0 else Sum(s[..|s| - 1]) + s[|s| - 1]
  }

  lemma SumAppend(s: seq<real>, x: real)
    ensures Sum(s + [x]) == Sum(s) + x
  {
    assert (s + [x])[..|s|] == s;
  }

  predicate Distinct<K(==)>(ks: seq<K>)
  {
    forall i, j :: 0 <= i < j < |ks| ==> ks[i] != ks[j]
  }

  /** The distinct keys `f(x)` of the elements of `s`, in the order in which
      they are first met: the key order of a JavaScript object (or `Map`)
      filled by iterating over `s`. */
  function Keys<T(==), K(==)>(s: seq<T>, f: T -> K): (r: seq<K>)
    ensures Distinct(r)
    ensures forall i :: 0 <= i < |s| ==> f(s[i]) in r
    decreases |s|
  {
    if s == [] then []
    else
      var init := s[..|s| - 1];
      var x := s[|s| - 1];
      assert s == init + [x];
      var ks := Keys(init, f);
      if f(x) in ks then ks else ks + [f(x)]
  }

  lemma KeysAppend<T, K>(s: seq<T>, x: T, f: T -> K)
    ensures Keys(s + [x], f) == if f(x) in Keys(s, f) then Keys(s, f) else Keys(s, f) + [f(x)]
  {
    assert (s + [x])[..|s|] == s;
  }

  /** Every key is the key of some element. */
  lemma {:induction false} KeysFrom<T, K>(s: seq<T>, f: T -> K, j: int)
    requires 0 <= j < |Keys(s, f)|
    ensures exists i :: 0 <= i < |s| && f(s[i]) == Keys(s, f)[j]
    decreases |s|
  {
    var init := s[..|s| - 1];
    var x := s[|s| - 1];
    assert s == init + [x];
    KeysAppend(init, x, f);
    if j < |Keys(init, f)| {
      KeysFrom(init, f, j);
      var i :| 0 <= i < |init| && f(init[i]) == Keys(init, f)[j];
      assert s[i] == init[i];
    } else {
      assert f(s[|s| - 1]) == Keys(s, f)[j];
    }
  }

  /** How many elements of `s` have key `k`. */
  function Occurrences<T(==), K(==)>(s: seq<T>, f: T -> K, k: K): nat
  {
    Count(s, x => f(x) == k)
  }

  lemma OccurrencesAppend<T, K>(s: seq<T>, x: T, f: T -> K, k: K)
    ensures Occurrences(s + [x], f, k) == Occurrences(s, f, k) + (if f(x) == k then 1 else 0)
  {
    FilterAppend(s, x, y => f(y) == k);
  }

  lemma OccurrencesAbsent<T, K>(s: seq<T>, f: T -> K, k: K)
    requires k !in Keys(s, f)
    ensures Occurrences(s, f, k) == 0
  {
    var p := (x: T) => f(x) == k;
    assert forall i :: 0 <= i < |s| ==> !p(s[i]);
    assert forall x :: x in s ==> !p(x);
  }

  lemma OccurrencesPositive<T, K>(s: seq<T>, f: T -> K, i: int)
    requires 0 <= i < |s|
    ensures Occurrences(s, f, f(s[i])) >= 1
  {
    var p := (x: T) => f(x) == f(s[i]);
    assert p(s[i]);
    FilterMember(s, p);
    assert s[i] in Filter(s, p);
  }

  /** The total of the occurrence counts of the keys `ks`. */
  function TotalOccurrences<T(==), K(==)>(s: seq<T>, f: T -> K, ks: seq<K>): nat
    decreases |ks|
  {
    if ks == [] then 0
    else TotalOccurrences(s, f, ks[..|ks| - 1]) + Occurrences(s, f, ks[|ks| - 1])
  }

  lemma {:induction false} TotalOccurrencesAppend<T, K>(s: seq<T>, x: T, f: T -> K, ks: seq<K>)
    requires Distinct(ks)
    ensures TotalOccurrences(s + [x], f, ks) == TotalOccurrences(s, f, ks) + (if f(x) in ks then 1 else 0)
    decreases |ks|
  {
    if ks != [] {
      var init := ks[..|ks| - 1];
      assert ks == init + [ks[|ks| - 1]];
      TotalOccurrencesAppend(s, x, f, init);
      OccurrencesAppend(s, x, f, ks[|ks| - 1]);
    }
  }

  lemma TotalOccurrencesExtend<T, K>(s: seq<T>, f: T -> K, ks: seq<K>, k: K)
    ensures TotalOccurrences(s, f, ks + [k]) == TotalOccurrences(s, f, ks) + Occurrences(s, f, k)
  {
    assert (ks + [k])[..|ks|] == ks;
  }

  /** Counting every element once per key: the counts of a dictionary of
      tallies add up to the number of elements tallied. */
  lemma {:induction false} TallyTotal<T, K>(s: seq<T>, f: T -> K)
    ensures TotalOccurrences(s, f, Keys(s, f)) == |s|
    decreases |s|
  {
    if s != [] {
      var init := s[..|s| - 1];
      var x := s[|s| - 1];
      assert s == init + [x];
      TallyTotal(init, f);
      KeysAppend(init, x, f);
      var ks := Keys(init, f);
      TotalOccurrencesAppend(init, x, f, ks);
      if f(x) !in ks {
        TotalOccurrencesExtend(s, f, ks, f(x));
        OccurrencesAbsent(init, f, f(x));
        OccurrencesAppend(init, x, f, f(x));
      }
    }
  }

  /** The least value of `f` over the non-empty `s` (`Math.min(...)`). */
  function MinOf<T>(s: seq<T>, f: T -> int): (m: int)
    requires s != []
    ensures forall k :: 0 <= k < |s| ==> m <= f(s[k])
    ensures exists k :: 0 <= k < |s| && f(s[k]) == m
    decreases |s|
  {
    if |s| == 1 then f(s[0])
    else
      var init := s[..|s| - 1];
      var m := MinOf(init, f);
      assert forall k :: 0 <= k < |init| ==> s[k] == init[k];
      if f(s[|s| - 1]) < m then f(s[|s| - 1]) else m
  }

  /** The greatest value of `f` over the non-empty `s` (`Math.max(...)`). */
  function MaxOf<T>(s: seq<T>, f: T -> int): (m: int)
    requires s != []
    ensures forall k :: 0 <= k < |s| ==> f(s[k]) <= m
    ensures exists k :: 0 <= k < |s| && f(s[k]) == m
    decreases |s|
  {
    if |s| == 1 then f(s[0])
    else
      var init := s[..|s| - 1];
      var m := MaxOf(init, f);
      assert forall k :: 0 <= k < |init| ==> s[k] == init[k];
      if f(s[|s| - 1]) > m then f(s[|s| - 1]) else m
  }

  /** 1 for the elements that satisfy `p`, 0 for the others. */
  function Indicator<T>(p: T -> bool): T -> int
  {
    x => if p(x) then 1 else 0
  }

  /** Counting is adding up the indicator. */
  lemma {:induction false} CountAsSum<T>(s: seq<T>, p: T -> bool)
    ensures Count(s, p) == SumOf(s, Indicator(p))
    decreases |s|
  {
    if s != [] {
      var init := s[..|s| - 1];
      assert s == init + [s[|s| - 1]];
      CountAsSum(init, p);
      FilterAppend(init, s[|s| - 1], p);
    }
  }

  /** Reordering does not change a count. */
  lemma CountPermutation<T>(a: seq<T>, b: seq<T>, p: T -> bool)
    requires multiset(a) == multiset(b)
    ensures Count(a, p) == Count(b, p)
  {
    CountAsSum(a, p);
    CountAsSum(b, p);
    SumOfPermutation(a, b, Indicator(p));
  }

  /** The total of `f` over the elements of `s`. */
  function SumOf<T>(s: seq<T>, f: T -> int): int
    decreases |s|
  {
    if s == [] then 0 else SumOf(s[..|s| - 1], f) + f(s[|s| - 1])
  }

  lemma SumOfAppend<T>(s: seq<T>, x: T, f: T -> int)
    ensures SumOf(s + [x], f) == SumOf(s, f) + f(x)
  {
    assert (s + [x])[..|s|] == s;
  }

  lemma {:induction false} SumOfConcat<T>(s: seq<T>, t: seq<T>, f: T -> int)
    ensures SumOf(s + t, f) == SumOf(s, f) + SumOf(t, f)
    decreases |t|
  {
    if t == [] {
      assert s + t == s;
    } else {
      var t' := t[..|t| - 1];
      var x := t[|t| - 1];
      assert t == t' + [x];
      assert s + t == (s + t') + [x];
      SumOfAppend(s + t', x, f);
      SumOfConcat(s, t', f);
      SumOfAppend(t', x, f);
    }
  }

  /** Reordering does not change a total. */
  lemma {:induction false} SumOfPermutation<T>(a: seq<T>, b: seq<T>, f: T -> int)
    requires multiset(a) == multiset(b)
    ensures SumOf(a, f) == SumOf(b, f)
    decreases |a|
  {
    if a == [] {
      assert |b| == |multiset(b)| == 0;
    } else {
      var a' := a[..|a| - 1];
      var x := a[|a| - 1];
      assert a == a' + [x];
      assert x in multiset(b);
      var i :| 0 <= i < |b| && b[i] == x;
      var b' := b[..i] + b[i + 1..];
      assert b == b[..i] + [x] + b[i + 1..];
      assert multiset(b) == multiset(b[..i]) + multiset{x} + multiset(b[i + 1..]);
      assert multiset(b') == multiset(b) - multiset{x};
      assert multiset(a) == multiset(a') + multiset{x};
      assert multiset(b') == multiset(a');
      SumOfPermutation(a', b', f);
      SumOfConcat(b[..i] + [x], b[i + 1..], f);
      SumOfAppend(b[..i], x, f);
      SumOfConcat(b[..i], b[i + 1..], f);
    }
  }

  /** An element occurs at most once in a sequence without repetitions. */
  lemma {:induction false} DistinctOnce<T>(s: seq<T>, x: T)
    requires Distinct(s)
    ensures multiset(s)[x] <= 1
    decreases |s|
  {
    if s != [] {
      var s' := s[..|s| - 1];
      assert s == s' + [s[|s| - 1]];
      DistinctOnce(s', x);
      if s[|s| - 1] == x {
        assert x !in s';
      }
    }
  }

  /** A reordering of a sequence without repetitions has none either. */
  lemma DistinctPermutation<T>(a: seq<T>, b: seq<T>)
    requires Distinct(a) && multiset(a) == multiset(b)
    ensures Distinct(b)
  {
    forall i, j | 0 <= i < j < |b|
      ensures b[i] != b[j]
    {
      if b[i] == b[j] {
        assert b == b[..i] + [b[i]] + b[i + 1..j] + [b[j]] + b[j + 1..];
        assert multiset(b)[b[i]] >= 2;
        DistinctOnce(a, b[i]);
        assert false;
      }
    }
  }

  // ---------------------------------------------------------------------
  // Dictionaries of tallies

  /** The entries `(k, count)` for the keys `ks`. */
  function EntriesFor<T(==), K(==)>(s: seq<T>, f: T -> K, ks: seq<K>): (r: seq<(K, nat)>)
    ensures |r| == |ks|
    ensures forall j :: 0 <= j < |r| ==> r[j] == (ks[j], Occurrences(s, f, ks[j]))
  {
    seq(|ks|, j requires 0 <= j < |ks| => (ks[j], Occurrences(s, f, ks[j])))
  }

  /** The entries of a dictionary of tallies filled by iterating over `s`
      (`counts[key] = (counts[key] || 0) + 1`): each distinct key with its
      number of occurrences, in first-seen order. */
  function TallyOf<T(==), K(==)>(s: seq<T>, f: T -> K): seq<(K, nat)>
  {
    EntriesFor(s, f, Keys(s, f))
  }

  function EntryCount<K>(e: (K, nat)): int { e.1 }

  function EntryKey<K>(e: (K, nat)): K { e.0 }

  lemma {:induction false} EntriesForTotal<T, K>(s: seq<T>, f: T -> K, ks: seq<K>)
    ensures SumOf(EntriesFor(s, f, ks), EntryCount) == TotalOccurrences(s, f, ks)
    decreases |ks|
  {
    if ks != [] {
      var init := ks[..|ks| - 1];
      var k := ks[|ks| - 1];
      EntriesForTotal(s, f, init);
      assert EntriesFor(s, f, ks) == EntriesFor(s, f, init) + [(k, Occurrences(s, f, k))];
      SumOfAppend(EntriesFor(s, f, init), (k, Occurrences(s, f, k)), EntryCount);
    }
  }

  /** The counts of a dictionary of tallies add up to the number of elements tallied. */
  lemma TallyOfTotal<T, K>(s: seq<T>, f: T -> K)
    ensures SumOf(TallyOf(s, f), EntryCount) == |s|
  {
    EntriesForTotal(s, f, Keys(s, f));
    TallyTotal(s, f);
  }

  /** Tallying one more element with a key already present adds one to
      that key's entry. */
  lemma EntriesHit<T, K>(s: seq<T>, x: T, f: T -> K, ks: seq<K>, j: int)
    requires Distinct(ks) && 0 <= j < |ks| && ks[j] == f(x)
    ensures EntriesFor(s + [x], f, ks) == EntriesFor(s, f, ks)[j := (f(x), Occurrences(s, f, f(x)) + 1)]
  {
    var a := EntriesFor(s + [x], f, ks);
    var b := EntriesFor(s, f, ks)[j := (f(x), Occurrences(s, f, f(x)) + 1)];
    forall m | 0 <= m < |ks|
      ensures a[m] == b[m]
    {
      OccurrencesAppend(s, x, f, ks[m]);
      if m < j {
        assert ks[m] != ks[j];
      } else if m > j {
        assert ks[j] != ks[m];
      }
    }
  }

  /** Tallying one more element with a new key appends an entry counting one. */
  lemma EntriesNew<T, K>(s: seq<T>, x: T, f: T -> K, ks: seq<K>)
    requires Occurrences(s, f, f(x)) == 0
    requires f(x) !in ks
    ensures EntriesFor(s + [x], f, ks + [f(x)]) == EntriesFor(s, f, ks) + [(f(x), 1)]
  {
    var a := EntriesFor(s + [x], f, ks + [f(x)]);
    var b := EntriesFor(s, f, ks) + [(f(x), 1)];
    forall m | 0 <= m < |ks| + 1
      ensures a[m] == b[m]
    {
      OccurrencesAppend(s, x, f, (ks + [f(x)])[m]);
    }
  }

  /** The position of the entry for `key`, or `|groups|` when there is none. */
  method FindGroup<K(==), A>(groups: seq<(K, A)>, key: K) returns (j: nat)
    ensures j <= |groups|
    ensures j < |groups| ==> groups[j].0 == key
    ensures forall m :: 0 <= m < j ==> groups[m].0 != key
  {
    j := 0;
    while j < |groups| && groups[j].0 != key
      invariant 0 <= j <= |groups|
      invariant forall m :: 0 <= m < j ==> groups[m].0 != key
    {
      j := j + 1;
    }
  }

  /** `entries` is the dictionary of tallies filled by iterating over `p`. */
  ghost predicate Tallied<T, K>(entries: seq<(K, nat)>, p: seq<T>, f: T -> K)
  {
    entries == EntriesFor(p, f, Keys(p, f))
  }

  /** Counts one more element `x` in the dictionary of tallies filled from `p`. */
  method TallyOne<T(==), K(==)>(entries: seq<(K, nat)>, ghost p: seq<T>, x: T, f: T -> K) returns (next: seq<(K, nat)>)
    requires Tallied(entries, p, f)
    ensures Tallied(next, p + [x], f)
  {
    var key := f(x);
    var j := FindGroup(entries, key);
    ghost var ks := Keys(p, f);
    KeysAppend(p, x, f);
    if j < |entries| {
      EntriesHit(p, x, f, ks, j);
      next := entries[j := (key, entries[j].1 + 1)];
    } else {
      assert key !in ks;
      OccurrencesAbsent(p, f, key);
      EntriesNew(p, x, f, ks);
      next := entries + [(key, 1)];
    }
  }

  /** Fills a dictionary of tallies by iterating over `s`. */
  method Tally<T(==), K(==)>(s: seq<T>, f: T -> K) returns (entries: seq<(K, nat)>)
    ensures entries == TallyOf(s, f)
  {
    entries := [];
    for i := 0 to |s|
      invariant Tallied(entries, s[..i], f)
    {
      assert s[..i + 1] == s[..i] + [s[i]];
      entries := TallyOne(entries, s[..i], s[i], f);
    }
    assert s[..|s|] == s;
  }

  // ---------------------------------------------------------------------
  // Dictionaries of accumulators

  /** The elements of `s` whose key is `k`, in order. */
  function Members<T(==), K(==)>(s: seq<T>, f: T -> K, k: K): seq<T>
    decreases |s|
  {
    if s == [] then []
    else
      var x := s[|s| - 1];
      Members(s[..|s| - 1], f, k) + (if f(x) == k then [x] else [])
  }

  lemma MembersAppend<T, K>(s: seq<T>, x: T, f: T -> K, k: K)
    ensures Members(s + [x], f, k) == Members(s, f, k) + (if f(x) == k then [x] else [])
  {
    assert (s + [x])[..|s|] == s;
  }

  lemma {:induction false} MembersAbsent<T, K>(s: seq<T>, f: T -> K, k: K)
    requires k !in Keys(s, f)
    ensures Members(s, f, k) == []
    decreases |s|
  {
    if s != [] {
      var init := s[..|s| - 1];
      var x := s[|s| - 1];
      assert s == init + [x];
      KeysAppend(init, x, f);
      MembersAbsent(init, f, k);
    }
  }

  /** There are as many members of key `k` as occurrences of it. */
  lemma {:induction false} MembersOccurrences<T, K>(s: seq<T>, f: T -> K, k: K)
    ensures |Members(s, f, k)| == Occurrences(s, f, k)
    decreases |s|
  {
    if s != [] {
      var init := s[..|s| - 1];
      var x := s[|s| - 1];
      assert s == init + [x];
      MembersOccurrences(init, f, k);
      OccurrencesAppend(init, x, f, k);
    }
  }

  /** The members of key `k` are elements of `s` with that key. */
  lemma {:induction false} MembersIn<T, K>(s: seq<T>, f: T -> K, k: K)
    ensures forall x :: x in Members(s, f, k) ==> x in s && f(x) == k
    decreases |s|
  {
    if s != [] {
      MembersIn(s[..|s| - 1], f, k);
      assert forall x :: x in s[..|s| - 1] ==> x in s;
    }
  }

  /** Every key of `s` has at least one member. */
  lemma MembersNonEmpty<T, K>(s: seq<T>, f: T -> K, j: int)
    requires 0 <= j < |Keys(s, f)|
    ensures Members(s, f, Keys(s, f)[j]) != []
  {
    KeysFrom(s, f, j);
    var i :| 0 <= i < |s| && f(s[i]) == Keys(s, f)[j];
    OccurrencesPositive(s, f, i);
    MembersOccurrences(s, f, f(s[i]));
  }

  /** The accumulator after feeding it the elements of `ms` in order. */
  function FoldOf<T, A>(ms: seq<T>, seed: A, step: (A, T) -> A): A
    decreases |ms|
  {
    if ms == [] then seed else step(FoldOf(ms[..|ms| - 1], seed, step), ms[|ms| - 1])
  }

  lemma FoldOfAppend<T, A>(ms: seq<T>, x: T, seed: A, step: (A, T) -> A)
    ensures FoldOf(ms + [x], seed, step) == step(FoldOf(ms, seed, step), x)
  {
    assert (ms + [x])[..|ms|] == ms;
  }

  /** The accumulated entries for the keys `ks`. */
  function FoldsFor<T(==), K(==), A>(s: seq<T>, f: T -> K, seed: A, step: (A, T) -> A, ks: seq<K>): (r: seq<(K, A)>)
    ensures |r| == |ks|
    decreases |ks|
  {
    if ks == [] then []
    else
      var k := ks[|ks| - 1];
      FoldsFor(s, f, seed, step, ks[..|ks| - 1]) + [(k, FoldOf(Members(s, f, k), seed, step))]
  }

  lemma {:induction false} FoldsForAt<T, K, A>(s: seq<T>, f: T -> K, seed: A, step: (A, T) -> A, ks: seq<K>, j: int)
    requires 0 <= j < |ks|
    ensures FoldsFor(s, f, seed, step, ks)[j] == (ks[j], FoldOf(Members(s, f, ks[j]), seed, step))
    decreases |ks|
  {
    if j < |ks| - 1 {
      FoldsForAt(s, f, seed, step, ks[..|ks| - 1], j);
    }
  }

  /** The entries of a dictionary of accumulators filled by iterating over
      `s` (`groups[key] = groups[key] || seed; step(groups[key], x)`): each
      distinct key, in first-seen order, with the accumulator fed exactly
      the elements of that key. */
  function GroupedOf<T(==), K(==), A>(s: seq<T>, f: T -> K, seed: A, step: (A, T) -> A): seq<(K, A)>
  {
    FoldsFor(s, f, seed, step, Keys(s, f))
  }

  /** The entries for `init + [k]` are those for `init` and one more for `k`. */
  lemma FoldsSnoc<T, K, A>(s: seq<T>, f: T -> K, seed: A, step: (A, T) -> A, init: seq<K>, k: K)
    ensures FoldsFor(s, f, seed, step, init + [k]) ==
      FoldsFor(s, f, seed, step, init) + [(k, FoldOf(Members(s, f, k), seed, step))]
  {
    assert (init + [k])[..|init|] == init;
  }

  lemma UpdateSnoc<E>(a: seq<E>, e: E, j: int, v: E)
    requires 0 <= j < |a|
    ensures (a + [e])[j := v] == a[j := v] + [e]
  {
  }

  lemma UpdateLast<E>(a: seq<E>, e: E, v: E)
    ensures (a + [e])[|a| := v] == a + [v]
  {
  }

  /** One more element for the last key of `ks`, which no earlier key repeats. */
  lemma FoldsHitLast<T, K, A>(s: seq<T>, x: T, f: T -> K, seed: A, step: (A, T) -> A, init: seq<K>)
    requires f(x) !in init
    ensures FoldsFor(s + [x], f, seed, step, init + [f(x)]) ==
      FoldsFor(s, f, seed, step, init + [f(x)])[|init| := (f(x), step(FoldOf(Members(s, f, f(x)), seed, step), x))]
  {
    var a := FoldsFor(s, f, seed, step, init);
    var hit := (f(x), step(FoldOf(Members(s, f, f(x)), seed, step), x));
    FoldsSnoc(s, f, seed, step, init, f(x));
    FoldsSnoc(s + [x], f, seed, step, init, f(x));
    FoldsOther(s, x, f, seed, step, init);
    MembersAppend(s, x, f, f(x));
    FoldOfAppend(Members(s, f, f(x)), x, seed, step);
    UpdateLast(a, (f(x), FoldOf(Members(s, f, f(x)), seed, step)), hit);
  }

  /** One more element for an earlier key leaves the last key's entry alone. */
  lemma FoldsHitEarlier<T, K, A>(s: seq<T>, x: T, f: T -> K, seed: A, step: (A, T) -> A, init: seq<K>, k: K, j: int)
    requires 0 <= j < |init| && k != f(x)
    requires FoldsFor(s + [x], f, seed, step, init) ==
      FoldsFor(s, f, seed, step, init)[j := (f(x), step(FoldOf(Members(s, f, f(x)), seed, step), x))]
    ensures FoldsFor(s + [x], f, seed, step, init + [k]) ==
      FoldsFor(s, f, seed, step, init + [k])[j := (f(x), step(FoldOf(Members(s, f, f(x)), seed, step), x))]
  {
    var a := FoldsFor(s, f, seed, step, init);
    var hit := (f(x), step(FoldOf(Members(s, f, f(x)), seed, step), x));
    var last := (k, FoldOf(Members(s, f, k), seed, step));
    FoldsSnoc(s, f, seed, step, init, k);
    FoldsSnoc(s + [x], f, seed, step, init, k);
    MembersAppend(s, x, f, k);
    assert Members(s + [x], f, k) == Members(s, f, k);
    UpdateSnoc(a, last, j, hit);
  }

  lemma {:induction false} FoldsHit<T, K, A>(s: seq<T>, x: T, f: T -> K, seed: A, step: (A, T) -> A, ks: seq<K>, j: int)
    requires Distinct(ks) && 0 <= j < |ks| && ks[j] == f(x)
    ensures FoldsFor(s + [x], f, seed, step, ks) ==
      FoldsFor(s, f, seed, step, ks)[j := (f(x), step(FoldOf(Members(s, f, f(x)), seed, step), x))]
    decreases |ks|
  {
    var init := ks[..|ks| - 1];
    var k := ks[|ks| - 1];
    assert ks == init + [k];
    if j == |ks| - 1 {
      assert f(x) !in init by {
        forall m | 0 <= m < |init| ensures init[m] != f(x) {
          assert ks[m] != ks[j];
        }
      }
      FoldsHitLast(s, x, f, seed, step, init);
    } else {
      assert k != f(x) by {
        assert ks[j] != ks[|ks| - 1];
      }
      assert Distinct(init);
      FoldsHit(s, x, f, seed, step, init, j);
      FoldsHitEarlier(s, x, f, seed, step, init, k, j);
    }
  }

  lemma {:induction false} FoldsOther<T, K, A>(s: seq<T>, x: T, f: T -> K, seed: A, step: (A, T) -> A, ks: seq<K>)
    requires f(x) !in ks
    ensures FoldsFor(s + [x], f, seed, step, ks) == FoldsFor(s, f, seed, step, ks)
    decreases |ks|
  {
    if ks != [] {
      var init := ks[..|ks| - 1];
      var k := ks[|ks| - 1];
      assert ks == init + [k];
      FoldsOther(s, x, f, seed, step, init);
      MembersAppend(s, x, f, k);
      assert Members(s + [x], f, k) == Members(s, f, k);
    }
  }

  lemma FoldsNew<T, K, A>(s: seq<T>, x: T, f: T -> K, seed: A, step: (A, T) -> A, ks: seq<K>)
    requires f(x) !in ks && f(x) !in Keys(s, f)
    ensures FoldsFor(s + [x], f, seed, step, ks + [f(x)]) == FoldsFor(s, f, seed, step, ks) + [(f(x), step(seed, x))]
  {
    assert (ks + [f(x)])[..|ks|] == ks;
    FoldsOther(s, x, f, seed, step, ks);
    MembersAppend(s, x, f, f(x));
    MembersAbsent(s, f, f(x));
    assert FoldOf([x], seed, step) == step(FoldOf([], seed, step), x);
  }

  lemma AccumulateHit<T, K, A>(p: seq<T>, x: T, f: T -> K, seed: A, step: (A, T) -> A, groups: seq<(K, A)>, j: int)
    requires groups == FoldsFor(p, f, seed, step, Keys(p, f))
    requires 0 <= j < |groups| && groups[j].0 == f(x)
    ensures groups[j := (f(x), step(groups[j].1, x))] == FoldsFor(p + [x], f, seed, step, Keys(p + [x], f))
  {
    var ks := Keys(p, f);
    FoldsForAt(p, f, seed, step, ks, j);
    KeysAppend(p, x, f);
    assert f(x) in ks;
    FoldsHit(p, x, f, seed, step, ks, j);
  }

  lemma AccumulateNew<T, K, A>(p: seq<T>, x: T, f: T -> K, seed: A, step: (A, T) -> A, groups: seq<(K, A)>)
    requires groups == FoldsFor(p, f, seed, step, Keys(p, f))
    requires forall m :: 0 <= m < |groups| ==> groups[m].0 != f(x)
    ensures groups + [(f(x), step(seed, x))] == FoldsFor(p + [x], f, seed, step, Keys(p + [x], f))
  {
    var ks := Keys(p, f);
    assert f(x) !in ks by {
      forall m | 0 <= m < |ks| ensures ks[m] != f(x) {
        FoldsForAt(p, f, seed, step, ks, m);
      }
    }
    KeysAppend(p, x, f);
    FoldsNew(p, x, f, seed, step, ks);
  }

  /** `groups` is the dictionary filled by iterating over `p`. */
  ghost predicate Filled<T, K, A>(groups: seq<(K, A)>, p: seq<T>, f: T -> K, seed: A, step: (A, T) -> A)
  {
    groups == FoldsFor(p, f, seed, step, Keys(p, f))
  }

  /** Feeds one more element `x` to the dictionary filled from `p`. */
  method Accumulate<T(==), K(==), A>(groups: seq<(K, A)>, ghost p: seq<T>, x: T, f: T -> K, seed: A, step: (A, T) -> A)
    returns (next: seq<(K, A)>)
    requires Filled(groups, p, f, seed, step)
    ensures Filled(next, p + [x], f, seed, step)
  {
    var key := f(x);
    var j := FindGroup(groups, key);
    if j < |groups| {
      AccumulateHit(p, x, f, seed, step, groups, j);
      next := groups[j := (key, step(groups[j].1, x))];
    } else {
      AccumulateNew(p, x, f, seed, step, groups);
      next := groups + [(key, step(seed, x))];
    }
  }

  /** Feeds the elements of `xs` in order to the dictionary filled from `p`. */
  method AccumulateAll<T(==), K(==), A>(groups: seq<(K, A)>, ghost p: seq<T>, xs: seq<T>, f: T -> K, seed: A,
    step: (A, T) -> A) returns (next: seq<(K, A)>)
    requires Filled(groups, p, f, seed, step)
    ensures Filled(next, p + xs, f, seed, step)
  {
    next := groups;
    PrefixGrows(p, xs, 0);
    for i := 0 to |xs|
      invariant Filled(next, p + xs[..i], f, seed, step)
    {
      next := Accumulate(next, p + xs[..i], xs[i], f, seed, step);
      PrefixGrows(p, xs, i);
    }
    PrefixGrows(p, xs, |xs|);
  }

  lemma PrefixGrows<T>(p: seq<T>, xs: seq<T>, i: int)
    requires 0 <= i <= |xs|
    ensures i == 0 ==> p + xs[..i] == p
    ensures i < |xs| ==> p + xs[..i + 1] == (p + xs[..i]) + [xs[i]]
    ensures i == |xs| ==> p + xs[..i] == p + xs
  {
    if i < |xs| {
      assert p + xs[..i + 1] == (p + xs[..i]) + [xs[i]];
    }
    if i == 0 {
      assert p + xs[..i] == p;
    }
    if i == |xs| {
      assert xs[..i] == xs;
    }
  }

  /** Fills a dictionary of accumulators by iterating over `s`. */
  method GroupFold<T(==), K(==), A>(s: seq<T>, f: T -> K, seed: A, step: (A, T) -> A) returns (groups: seq<(K, A)>)
    ensures groups == GroupedOf(s, f, seed, step)
  {
    groups := AccumulateAll([], [], s, f, seed, step);
    assert [] + s == s;
  }

  // ---------------------------------------------------------------------
  // Stable sorting

  ghost predicate Ascending<T>(s: seq<T>, key: T -> real)
  {
    forall i, j :: 0 <= i < j < |s| ==> key(s[i]) <= key(s[j])
  }

  ghost predicate Descending<T>(s: seq<T>, key: T -> real)
  {
    forall i, j :: 0 <= i < j < |s| ==> key(s[i]) >= key(s[j])
  }

  /** Inserts `x` into the ascending `s` after every element whose key is not
      greater than `x`'s, so that equal keys keep their order. */
  function InsertLast<T(==)>(x: T, s: seq<T>, key: T -> real): (r: seq<T>)
    requires Ascending(s, key)
    ensures Ascending(r, key)
    ensures multiset(r) == multiset(s) + multiset{x}
    ensures |r| == |s| + 1
    decreases |s|
  {
    if s == [] || key(s[|s| - 1]) <= key(x) then s + [x]
    else
      var init := s[..|s| - 1];
      var y := s[|s| - 1];
      assert s == init + [y];
      var rec := InsertLast(x, init, key);
      KeysBounded(rec, init, x, key, key(y));
      AscendingAppend(rec, y, key);
      rec + [y]
  }

  /** A reordering of `s` plus `x` has its keys below any bound of theirs. */
  lemma KeysBounded<T>(r: seq<T>, s: seq<T>, x: T, key: T -> real, b: real)
    requires multiset(r) == multiset(s) + multiset{x}
    requires key(x) <= b && forall i :: 0 <= i < |s| ==> key(s[i]) <= b
    ensures forall i :: 0 <= i < |r| ==> key(r[i]) <= b
  {
    forall i | 0 <= i < |r|
      ensures key(r[i]) <= b
    {
      assert r[i] in multiset(r);
      if r[i] != x {
        assert r[i] in multiset(s);
        var k :| 0 <= k < |s| && s[k] == r[i];
      }
    }
  }

  lemma AscendingAppend<T>(r: seq<T>, y: T, key: T -> real)
    requires Ascending(r, key)
    requires forall i :: 0 <= i < |r| ==> key(r[i]) <= key(y)
    ensures Ascending(r + [y], key)
  {
    var t := r + [y];
    forall i, j | 0 <= i < j < |t|
      ensures key(t[i]) <= key(t[j])
    {
      assert t[i] == r[i];
    }
  }

  /** A stable sort by ascending key: the model of `array.sort((a, b) => key(a) - key(b))`. */
  function SortBy<T(==)>(s: seq<T>, key: T -> real): (r: seq<T>)
    ensures Ascending(r, key)
    ensures multiset(r) == multiset(s)
    ensures |r| == |s|
    decreases |s|
  {
    if s == [] then []
    else
      var init := s[..|s| - 1];
      assert s == init + [s[|s| - 1]];
      InsertLast(s[|s| - 1], SortBy(init, key), key)
  }

  /** A stable sort by descending key: `array.sort((a, b) => key(b) - key(a))`. */
  function SortDesc<T(==)>(s: seq<T>, key: T -> real): (r: seq<T>)
    ensures Descending(r, key)
    ensures multiset(r) == multiset(s)
    ensures |r| == |s|
  {
    var neg := (x: T) => -key(x);
    var r := SortBy(s, neg);
    assert forall i, j :: 0 <= i < j < |r| ==> neg(r[i]) <= neg(r[j]);
    r
  }

  /** `p` picks out elements that all share one key. */
  ghost predicate OneKey<T(!new)>(p: T -> bool, key: T -> real)
  {
    forall x, y :: p(x) && p(y) ==> key(x) == key(y)
  }

  lemma {:induction false} InsertLastStable<T(!new)>(x: T, s: seq<T>, key: T -> real, p: T -> bool)
    requires Ascending(s, key) && OneKey(p, key)
    ensures Filter(InsertLast(x, s, key), p) == Filter(s, p) + (if p(x) then [x] else [])
    decreases |s|
  {
    if s == [] || key(s[|s| - 1]) <= key(x) {
      FilterAppend(s, x, p);
    } else {
      var init := s[..|s| - 1];
      var y := s[|s| - 1];
      assert s == init + [y];
      var rec := InsertLast(x, init, key);
      assert InsertLast(x, s, key) == rec + [y];
      InsertLastStable(x, init, key, p);
      FilterAppend(rec, y, p);
      FilterAppend(init, y, p);
      var fx := if p(x) then [x] else [];
      var fy := if p(y) then [y] else [];
      assert fx == [] || fy == [];
      ConcatSwap(Filter(init, p), fx, fy);
    }
  }

  /** Cutting `a + b` inside `a`. */
  lemma CutInside<T>(a: seq<T>, b: seq<T>, k: nat)
    requires k <= |a|
    ensures (a + b)[..k] == a[..k] && (a + b)[k..] == a[k..] + b
  {
  }

  lemma ConcatAssoc<T>(a: seq<T>, b: seq<T>, c: seq<T>)
    ensures (a + b) + c == a + (b + c)
  {
  }

  lemma ConcatSwap<T>(a: seq<T>, b: seq<T>, c: seq<T>)
    requires b == [] || c == []
    ensures a + b + c == a + c + b
  {
    if b == [] {
      assert a + b == a;
    } else {
      assert a + c == a;
    }
  }

  /** The sort is stable: elements that share a key come out in the order in
      which they went in. */
  lemma {:induction false} SortByStable<T(!new)>(s: seq<T>, key: T -> real, p: T -> bool)
    requires OneKey(p, key)
    ensures Filter(SortBy(s, key), p) == Filter(s, p)
    decreases |s|
  {
    if s != [] {
      var init := s[..|s| - 1];
      var x := s[|s| - 1];
      assert s == init + [x];
      SortByStable(init, key, p);
      InsertLastStable(x, SortBy(init, key), key, p);
      FilterAppend(init, x, p);
    }
  }

  /** The descending sort is stable too. */
  lemma SortDescStable<T(!new)>(s: seq<T>, key: T -> real, p: T -> bool)
    requires OneKey(p, key)
    ensures Filter(SortDesc(s, key), p) == Filter(s, p)
  {
    SortByStable(s, (x: T) => -key(x), p);
  }

  /** The elements whose key is `v`. */
  function KeyIs<T>(key: T -> real, v: real): T -> bool
  {
    (x: T) => key(x) == v
  }

  /** Elements of `r` that share a key come in the order they have in `s`. */
  ghost predicate TiesInOrder<T>(r: seq<T>, s: seq<T>, key: T -> real)
  {
    forall v :: Filter(r, KeyIs(key, v)) == Filter(s, KeyIs(key, v))
  }

  /** The descending sort keeps every group of equal keys in input order. */
  lemma SortDescTies<T(!new)>(s: seq<T>, key: T -> real)
    ensures TiesInOrder(SortDesc(s, key), s, key)
  {
    forall v
      ensures Filter(SortDesc(s, key), KeyIs(key, v)) == Filter(s, KeyIs(key, v))
    {
      SortDescStable(s, key, KeyIs(key, v));
    }
  }

  /** After a descending sort, the first `n` elements are at least as large
      as every element left out. */
  lemma TakeDescDominates<T>(s: seq<T>, key: T -> real, n: nat, t: T, e: T)
    requires t in Take(SortDesc(s, key), n)
    requires e in s && e !in Take(SortDesc(s, key), n)
    ensures key(t) >= key(e)
  {
    var sorted := SortDesc(s, key);
    var top := Take(sorted, n);
    assert e in multiset(sorted);
    var j :| 0 <= j < |sorted| && sorted[j] == e;
    var i :| 0 <= i < |top| && top[i] == t;
    assert forall k :: 0 <= k < |top| ==> top[k] == sorted[k] && top[k] in top;
    assert j >= |top|;
    assert sorted[i] == t;
  }

  /** The first `n` elements (`slice(0, n)`). */
  function Take<T(==)>(s: seq<T>, n: nat): (r: seq<T>)
    ensures |r| == if n < |s| then n else |s|
    ensures r <= s
  {
    if n < |s| then s[..n] else s
  }
}
