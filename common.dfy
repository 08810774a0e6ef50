/** Shared vocabulary: optional values, results, ledger cells, sums over
    sequences, the stable sort used for every "sort by time", and substring
    search. */
module Common {

  datatype Option<T> = None | Some(value: T)

  datatype Result<T, E> = Ok(value: T) | Err(error: E)

  /** A numeric ledger cell as read from a file: the column may be absent,
      the text may not be a number, or it is a decimal value. */
  datatype Num = Missing | Junk | Value(v: real)

  /** Numeric coercion: anything that is not a number counts as zero. */
  function Coerce(n: Num): (x: real)
    ensures n.Value? ==> x == n.v
    ensures !n.Value? ==> x == 0.0
  {
    match n
    case Value(v) => v
    case _ => 0.0
  }

  function Min(a: real, b: real): (m: real)
    ensures m <= a && m <= b
    ensures m == a || m == b
  {
    if a <= b then a else b
  }

  function Abs(x: real): (y: real)
    ensures y >= 0.0
    ensures y == x || y == -x
  {
    if x < 0.0 then -x else x
  }

  // ---------------------------------------------------------------------
  // Sums

  /** Sum of f over s, adding the elements left to right. */
  function SumBy<T>(s: seq<T>, f: T -> real): real
    decreases |s|
  {
    if s == [] then 0.0 else SumBy(s[..|s| - 1], f) + f(s[|s| - 1])
  }

  /** A running sum grows by one element at a time. */
  lemma SumByPrefix<T>(s: seq<T>, i: nat, f: T -> real)
    requires i < |s|
    ensures SumBy(s[..i + 1], f) == SumBy(s[..i], f) + f(s[i])
  {
    assert s[..i + 1][..i] == s[..i];
  }

  lemma {:induction false} SumByConcat<T>(a: seq<T>, b: seq<T>, f: T -> real)
    ensures SumBy(a + b, f) == SumBy(a, f) + SumBy(b, f)
    decreases |b|
  {
    if b == [] {
      assert a + b == a;
    } else {
      assert (a + b)[..|a + b| - 1] == a + b[..|b| - 1];
      SumByConcat(a, b[..|b| - 1], f);
    }
  }

  /** The elements of s satisfying p, in their original order. */
  function Filter<T>(s: seq<T>, p: T -> bool): (r: seq<T>)
    ensures |r| <= |s|
    ensures forall x :: x in r ==> x in s && p(x)
    decreases |s|
  {
    if s == [] then []
    else Filter(s[..|s| - 1], p) + (if p(s[|s| - 1]) then [s[|s| - 1]] else [])
  }

  lemma {:induction false} FilterKeeps<T>(s: seq<T>, p: T -> bool, i: nat)
    requires i < |s| && p(s[i])
    ensures s[i] in Filter(s, p)
    decreases |s|
  {
    if i < |s| - 1 {
      FilterKeeps(s[..|s| - 1], p, i);
    }
  }

  /** No element satisfying p is dropped. */
  lemma {:induction false} FilterComplete<T>(s: seq<T>, p: T -> bool)
    ensures forall x :: x in s && p(x) ==> x in Filter(s, p)
    decreases |s|
  {
    if s != [] {
      var init := s[..|s| - 1];
      FilterComplete(init, p);
      assert s == init + [s[|s| - 1]];
    }
  }

  /** A filter keeps every element satisfying p exactly as often as the
      input holds it, and no other element. */
  lemma {:induction false} FilterCounts<T>(s: seq<T>, p: T -> bool)
    ensures forall x :: multiset(Filter(s, p))[x] == if p(x) then multiset(s)[x] else 0
    decreases |s|
  {
    if s != [] {
      var init, last := s[..|s| - 1], s[|s| - 1];
      FilterCounts(init, p);
      assert s == init + [last];
      assert multiset(s) == multiset(init) + multiset{last};
    }
  }

  /** A filter every element passes returns its input. */
  lemma {:induction false} FilterAll<T>(s: seq<T>, p: T -> bool)
    requires forall i :: 0 <= i < |s| ==> p(s[i])
    ensures Filter(s, p) == s
    decreases |s|
  {
    if s != [] {
      var init, last := s[..|s| - 1], s[|s| - 1];
      assert forall i :: 0 <= i < |init| ==> init[i] == s[i];
      FilterAll(init, p);
      assert p(last);
      calc {
        Filter(s, p);
        Filter(init, p) + [last];
        init + [last];
        s;
      }
    }
  }

  /** A filter no element passes returns nothing. */
  lemma {:induction false} FilterNone<T>(s: seq<T>, p: T -> bool)
    requires forall i :: 0 <= i < |s| ==> !p(s[i])
    ensures Filter(s, p) == []
    decreases |s|
  {
    if s != [] {
      var init := s[..|s| - 1];
      assert forall i :: 0 <= i < |init| ==> init[i] == s[i];
      FilterNone(init, p);
    }
  }

  /** The elements of s whose key is k, in their original order. */
  function Having<T, K(==)>(s: seq<T>, key: T -> K, k: K): (r: seq<T>)
    ensures |r| <= |s|
    ensures forall x :: x in r ==> x in s && key(x) == k
    decreases |s|
  {
    if s == [] then []
    else Having(s[..|s| - 1], key, k) + (if key(s[|s| - 1]) == k then [s[|s| - 1]] else [])
  }

  lemma {:induction false} HavingNonEmpty<T, K>(s: seq<T>, key: T -> K, i: nat)
    requires i < |s|
    ensures |Having(s, key, key(s[i]))| > 0
    decreases |s|
  {
    if i < |s| - 1 {
      HavingNonEmpty(s[..|s| - 1], key, i);
    }
  }

  /** No element with key k is dropped. */
  lemma {:induction false} HavingKeeps<T, K>(s: seq<T>, key: T -> K, k: K)
    ensures forall x :: x in s && key(x) == k ==> x in Having(s, key, k)
    decreases |s|
  {
    if s != [] {
      var init := s[..|s| - 1];
      HavingKeeps(init, key, k);
      assert s == init + [s[|s| - 1]];
    }
  }

  /** A group holds every row carrying its key exactly as often as the input
      does, and no other row. */
  lemma {:induction false} HavingCounts<T, K>(s: seq<T>, key: T -> K, k: K)
    ensures forall x :: multiset(Having(s, key, k))[x] == if key(x) == k then multiset(s)[x] else 0
    decreases |s|
  {
    if s != [] {
      var init, last := s[..|s| - 1], s[|s| - 1];
      HavingCounts(init, key, k);
      assert s == init + [last];
      assert multiset(s) == multiset(init) + multiset{last};
    }
  }

  predicate Distinct<K(==)>(keys: seq<K>)
  {
    forall i, j :: 0 <= i < j < |keys| ==> keys[i] != keys[j]
  }

  /** Sum over the key list of the sum of f over the elements having that key. */
  function SumOverKeys<T, K(==)>(s: seq<T>, keys: seq<K>, key: T -> K, f: T -> real): real
    decreases |keys|
  {
    if keys == [] then 0.0
    else SumOverKeys(s, keys[..|keys| - 1], key, f) + SumBy(Having(s, key, keys[|keys| - 1]), f)
  }

  lemma {:induction false} SumByHavingSnoc<T, K>(s: seq<T>, x: T, key: T -> K, k: K, f: T -> real)
    ensures SumBy(Having(s + [x], key, k), f)
         == SumBy(Having(s, key, k), f) + (if key(x) == k then f(x) else 0.0)
  {
    assert (s + [x])[..|s + [x]| - 1] == s;
    var h := Having(s, key, k);
    if key(x) == k {
      assert Having(s + [x], key, k) == h + [x];
      assert (h + [x])[..|h + [x]| - 1] == h;
    } else {
      assert Having(s + [x], key, k) == h + [];
      assert h + [] == h;
    }
  }

  lemma {:induction false} SumOverKeysSnoc<T, K>(s: seq<T>, x: T, keys: seq<K>, key: T -> K, f: T -> real)
    requires Distinct(keys)
    ensures SumOverKeys(s + [x], keys, key, f)
         == SumOverKeys(s, keys, key, f) + (if key(x) in keys then f(x) else 0.0)
    decreases |keys|
  {
    if keys != [] {
      var init, last := keys[..|keys| - 1], keys[|keys| - 1];
      assert keys == init + [last];
      assert Distinct(init);
      assert key(x) in keys <==> key(x) in init || key(x) == last;
      assert key(x) == last ==> key(x) !in init;
      SumOverKeysSnoc(s, x, init, key, f);
      SumByHavingSnoc(s, x, key, last, f);
    }
  }

  /** Splitting a sequence by key and summing each part loses and duplicates
      nothing: the parts' sums add up to the whole sum. */
  lemma {:induction false} PartitionSum<T, K>(s: seq<T>, keys: seq<K>, key: T -> K, f: T -> real)
    requires Distinct(keys)
    requires forall i :: 0 <= i < |s| ==> key(s[i]) in keys
    ensures SumOverKeys(s, keys, key, f) == SumBy(s, f)
    decreases |s|
  {
    if s == [] {
      EmptyOverKeys(keys, key, f);
    } else {
      var init, x := s[..|s| - 1], s[|s| - 1];
      assert s == init + [x];
      PartitionSum(init, keys, key, f);
      SumOverKeysSnoc(init, x, keys, key, f);
    }
  }

  lemma {:induction false} EmptyOverKeys<T, K>(keys: seq<K>, key: T -> K, f: T -> real)
    ensures SumOverKeys([], keys, key, f) == 0.0
    decreases |keys|
  {
    if keys != [] {
      EmptyOverKeys(keys[..|keys| - 1], key, f);
    }
  }

  // ---------------------------------------------------------------------
  // Stable sort by an integer key (timestamps)

  predicate SortedBy<T>(s: seq<T>, key: T -> int)
  {
    forall i, j :: 0 <= i < j < |s| ==> key(s[i]) <= key(s[j])
  }

  /** Inserts x before the first element whose key is not smaller, so equal
      keys keep their relative order. */
  function InsertBy<T>(x: T, s: seq<T>, key: T -> int): (r: seq<T>)
    ensures |r| == |s| + 1
    decreases |s|
  {
    if s == [] || key(x) <= key(s[0]) then [x] + s
    else [s[0]] + InsertBy(x, s[1..], key)
  }

  lemma {:induction false} InsertByPermutes<T>(x: T, s: seq<T>, key: T -> int)
    ensures multiset(InsertBy(x, s, key)) == multiset(s) + multiset{x}
    decreases |s|
  {
    if s != [] && key(x) > key(s[0]) {
      InsertByPermutes(x, s[1..], key);
      assert s == [s[0]] + s[1..];
    }
  }

  lemma {:induction false} InsertBySorted<T>(x: T, s: seq<T>, key: T -> int)
    requires SortedBy(s, key)
    ensures SortedBy(InsertBy(x, s, key), key)
    ensures |s| > 0 ==> key(InsertBy(x, s, key)[0]) == if key(x) <= key(s[0]) then key(x) else key(s[0])
    decreases |s|
  {
    if s != [] && key(x) > key(s[0]) {
      var tail := InsertBy(x, s[1..], key);
      InsertBySorted(x, s[1..], key);
      assert key(s[0]) <= key(tail[0]) by {
        if |s| > 1 {
          assert s[1..][0] == s[1];
        }
      }
      var r := [s[0]] + tail;
      forall i, j | 0 <= i < j < |r| ensures key(r[i]) <= key(r[j]) {
        if i == 0 {
          assert key(tail[0]) <= key(tail[j - 1]);
        } else {
          assert r[i] == tail[i - 1] && r[j] == tail[j - 1];
        }
      }
    }
  }

  function SortBy<T>(s: seq<T>, key: T -> int): (r: seq<T>)
    ensures |r| == |s|
    decreases |s|
  {
    if s == [] then [] else InsertBy(s[0], SortBy(s[1..], key), key)
  }

  /** Sorting is a permutation. */
  lemma {:induction false} SortByPermutes<T>(s: seq<T>, key: T -> int)
    ensures multiset(SortBy(s, key)) == multiset(s)
    decreases |s|
  {
    if s != [] {
      SortByPermutes(s[1..], key);
      InsertByPermutes(s[0], SortBy(s[1..], key), key);
      assert s == [s[0]] + s[1..];
    }
  }

  lemma {:induction false} SortBySorted<T>(s: seq<T>, key: T -> int)
    ensures SortedBy(SortBy(s, key), key)
    decreases |s|
  {
    if s != [] {
      SortBySorted(s[1..], key);
      InsertBySorted(s[0], SortBy(s[1..], key), key);
    }
  }

  /** Selecting elements keeps them in order. */
  lemma {:induction false} FilterSorted<T>(s: seq<T>, p: T -> bool, key: T -> int)
    requires SortedBy(s, key)
    ensures SortedBy(Filter(s, p), key)
    decreases |s|
  {
    if s != [] {
      var init := s[..|s| - 1];
      FilterSorted(init, p, key);
      TailBound(init, key, key(s[|s| - 1]));
      SnocSorted(Filter(init, p), s[|s| - 1], key);
    }
  }

  lemma {:induction false} HavingSorted<T, K>(s: seq<T>, kf: T -> K, k: K, key: T -> int)
    requires SortedBy(s, key)
    ensures SortedBy(Having(s, kf, k), key)
    decreases |s|
  {
    if s != [] {
      var init := s[..|s| - 1];
      HavingSorted(init, kf, k, key);
      TailBound(init, key, key(s[|s| - 1]));
      SnocSorted(Having(init, kf, k), s[|s| - 1], key);
    }
  }

  lemma TailBound<T>(init: seq<T>, key: T -> int, b: int)
    requires forall i :: 0 <= i < |init| ==> key(init[i]) <= b
    ensures forall x :: x in init ==> key(x) <= b
  {
  }

  lemma SnocSorted<T>(s: seq<T>, x: T, key: T -> int)
    requires SortedBy(s, key)
    requires forall y :: y in s ==> key(y) <= key(x)
    ensures SortedBy(s + [x], key) && SortedBy(s + [], key)
  {
    assert s + [] == s;
    var r := s + [x];
    forall i, j | 0 <= i < j < |r| ensures key(r[i]) <= key(r[j]) {
      assert r[i] in s;
      if j < |s| {
        assert r[j] == s[j];
      }
    }
  }

  /** A sequence already in order is left as it is. */
  lemma {:induction false} SortByIdentity<T>(s: seq<T>, key: T -> int)
    requires SortedBy(s, key)
    ensures SortBy(s, key) == s
    decreases |s|
  {
    if s != [] {
      SortByIdentity(s[1..], key);
      assert s == [s[0]] + s[1..];
    }
  }

  /** Sorting keeps exactly the elements it was given. */
  lemma SortByMembers<T>(s: seq<T>, key: T -> int)
    ensures forall x :: x in SortBy(s, key) <==> x in s
  {
    var r := SortBy(s, key);
    SortByPermutes(s, key);
    forall x ensures x in r <==> x in s {
      assert x in r <==> x in multiset(r);
      assert x in s <==> x in multiset(s);
    }
  }

  // ---------------------------------------------------------------------
  // Substrings (Python's `sub in s` on strings)

  ghost predicate SubAt(s: string, sub: string, i: int)
  {
    0 <= i && i + |sub| <= |s| && s[i..i + |sub|] == sub
  }

  ghost predicate ContainsSub(s: string, sub: string)
  {
    exists i :: SubAt(s, sub, i)
  }

  function HasSub(s: string, sub: string): bool
    decreases |s|
  {
    if |sub| > |s| then false
    else if s[..|sub|] == sub then true
    else HasSub(s[1..], sub)
  }

  /** The executable search agrees with the definition of "occurs somewhere". */
  lemma {:induction false} HasSubIsContains(s: string, sub: string)
    ensures HasSub(s, sub) <==> ContainsSub(s, sub)
    decreases |s|
  {
    if |sub| > |s| {
    } else if s[..|sub|] == sub {
      assert SubAt(s, sub, 0);
    } else {
      HasSubIsContains(s[1..], sub);
      ContainsInTail(s, sub);
    }
  }

  /** Past a mismatch at the front, an occurrence lies in the tail. */
  lemma ContainsInTail(s: string, sub: string)
    requires |sub| <= |s| && s[..|sub|] != sub
    ensures ContainsSub(s, sub) <==> ContainsSub(s[1..], sub)
  {
    if ContainsSub(s[1..], sub) {
      var i :| SubAt(s[1..], sub, i);
      assert s[i + 1..i + 1 + |sub|] == s[1..][i..i + |sub|];
      assert SubAt(s, sub, i + 1);
    }
    if ContainsSub(s, sub) {
      var i :| SubAt(s, sub, i);
      assert i != 0;
      assert s[1..][i - 1..i - 1 + |sub|] == s[i..i + |sub|];
      assert SubAt(s[1..], sub, i - 1);
    }
  }
}
