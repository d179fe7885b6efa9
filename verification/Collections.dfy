/** Finite sums, ordered sequences and the byte order of Go strings: the vocabulary the other modules share. */
module Collections {

  datatype Option<+T> = None | Some(value: T)

  function Min(a: int, b: int): int { if a <= b then a else b }

  function Max(a: int, b: int): int { if a >= b then a else b }

  function Elements<T>(s: seq<T>): set<T> { set x | x in s }

  // A key scan returns every key once, in an order nobody chooses.
  ghost predicate IsScan<T>(scan: seq<T>, keys: set<T>) {
    Elements(scan) == keys && (forall i, j :: 0 <= i < j < |scan| ==> scan[i] != scan[j])
  }

  lemma ScanLength<T>(scan: seq<T>, keys: set<T>)
    requires IsScan(scan, keys)
    ensures |scan| == |keys|
    decreases |scan|
  {
    if |scan| > 0 {
      var last := |scan| - 1;
      assert keys - {scan[last]} == Elements(scan[..last]);
      ScanLength(scan[..last], keys - {scan[last]});
    }
  }

  lemma ScanExtend<T>(scan: seq<T>, keys: set<T>, x: T)
    requires IsScan(scan, keys) && x !in keys
    ensures IsScan(scan + [x], keys + {x})
  {
    assert forall i :: 0 <= i < |scan| ==> scan[i] in Elements(scan);
  }

  lemma {:induction false} ScanExists<T>(keys: set<T>)
    ensures exists scan: seq<T> :: IsScan(scan, keys)
    decreases |keys|
  {
    if keys == {} {
      assert IsScan([], keys);
    } else {
      var k :| k in keys;
      ScanExists(keys - {k});
      var rest: seq<T> :| IsScan(rest, keys - {k});
      ScanExtend(rest, keys - {k}, k);
      assert keys - {k} + {k} == keys;
    }
  }

  lemma ScanPrefix<T>(scan: seq<T>, keys: set<T>, i: nat)
    requires IsScan(scan, keys) && i < |scan|
    ensures Elements(scan[..i + 1]) == Elements(scan[..i]) + {scan[i]} && scan[i] !in Elements(scan[..i])
  {
    assert scan[..i + 1] == scan[..i] + [scan[i]];
  }

  lemma SubsetSize<T>(a: set<T>, b: set<T>)
    requires a <= b
    ensures |a| + |b - a| == |b|
    ensures |a| == |b| ==> a == b
  {
    assert b == a + (b - a);
  }

  // ----- finite sums -----

  ghost function Sum<K>(keys: set<K>, f: K -> int): int {
    if keys == {} then 0 else var k :| k in keys; f(k) + Sum(keys - {k}, f)
  }

  lemma {:induction false} SumSplit<K>(keys: set<K>, k: K, f: K -> int)
    requires k in keys
    ensures Sum(keys, f) == f(k) + Sum(keys - {k}, f)
    decreases |keys|
  {
    var j :| j in keys && Sum(keys, f) == f(j) + Sum(keys - {j}, f);
    if j != k {
      SumSplit(keys - {j}, k, f);
      assert keys - {j} - {k} == keys - {k} - {j};
      SumSplit(keys - {k}, j, f);
    }
  }

  lemma {:induction false} SumSame<K>(keys: set<K>, f: K -> int, g: K -> int)
    requires forall k :: k in keys ==> f(k) == g(k)
    ensures Sum(keys, f) == Sum(keys, g)
    decreases |keys|
  {
    if keys != {} {
      var k :| k in keys;
      SumSplit(keys, k, f);
      SumSplit(keys, k, g);
      SumSame(keys - {k}, f, g);
    }
  }

  lemma {:induction false} SumMonotone<K>(keys: set<K>, f: K -> int, g: K -> int)
    requires forall k :: k in keys ==> f(k) <= g(k)
    ensures Sum(keys, f) <= Sum(keys, g)
    decreases |keys|
  {
    if keys != {} {
      var k :| k in keys;
      SumSplit(keys, k, f);
      SumSplit(keys, k, g);
      SumMonotone(keys - {k}, f, g);
    }
  }

  // Changing the summand at one key changes the sum by exactly that difference.
  lemma SumChange<K>(keys: set<K>, k: K, f: K -> int, g: K -> int)
    requires k in keys
    requires forall j :: j in keys && j != k ==> f(j) == g(j)
    ensures Sum(keys, g) == Sum(keys, f) - f(k) + g(k)
  {
    SumSplit(keys, k, f);
    SumSplit(keys, k, g);
    SumSame(keys - {k}, f, g);
  }

  lemma {:induction false} SumNonNegative<K>(keys: set<K>, f: K -> int)
    requires forall k :: k in keys ==> f(k) >= 0
    ensures Sum(keys, f) >= 0
    ensures forall k :: k in keys ==> Sum(keys, f) >= f(k)
    decreases |keys|
  {
    forall k | k in keys
      ensures Sum(keys, f) >= f(k)
    {
      SumSplit(keys, k, f);
      SumNonNegative(keys - {k}, f);
    }
    if keys != {} {
      var k :| k in keys;
    }
  }

  lemma AppendThen<T>(a: seq<T>, x: T, b: seq<T>)
    ensures (a + [x]) + b == a + ([x] + b)
  {
  }

  // ----- sorting -----

  ghost predicate TotalOrderOn<T>(leq: (T, T) -> bool, elems: set<T>) {
    && (forall x, y :: x in elems && y in elems ==> leq(x, y) || leq(y, x))
    && (forall x, y :: x in elems && y in elems && leq(x, y) && leq(y, x) ==> x == y)
    && (forall x, y, z :: x in elems && y in elems && z in elems && leq(x, y) && leq(y, z) ==> leq(x, z))
  }

  ghost predicate SortedBy<T>(s: seq<T>, leq: (T, T) -> bool) {
    forall i, j :: 0 <= i < j < |s| ==> leq(s[i], s[j])
  }

  function Insert<T>(x: T, s: seq<T>, leq: (T, T) -> bool): seq<T> {
    if s == [] || leq(x, s[0]) then [x] + s else [s[0]] + Insert(x, s[1..], leq)
  }

  // Stands for the library sorts the repository calls.
  function SortBy<T>(s: seq<T>, leq: (T, T) -> bool): seq<T> {
    if s == [] then [] else Insert(s[0], SortBy(s[1..], leq), leq)
  }

  lemma {:induction false} InsertPermutes<T>(x: T, s: seq<T>, leq: (T, T) -> bool)
    ensures multiset(Insert(x, s, leq)) == multiset{x} + multiset(s)
  {
    if !(s == [] || leq(x, s[0])) {
      InsertPermutes(x, s[1..], leq);
      assert s == [s[0]] + s[1..];
    }
  }

  lemma {:induction false} InsertSorts<T>(x: T, s: seq<T>, leq: (T, T) -> bool)
    requires TotalOrderOn(leq, Elements(s) + {x}) && SortedBy(s, leq)
    ensures SortedBy(Insert(x, s, leq), leq)
  {
    if s == [] {
    } else if leq(x, s[0]) {
      assert forall i :: 0 <= i < |s| ==> s[i] in Elements(s);
    } else {
      assert Elements(s[1..]) + {x} <= Elements(s) + {x};
      InsertSorts(x, s[1..], leq);
      InsertedAfterFirst(x, s, leq);
    }
  }

  lemma InsertedAfterFirst<T>(x: T, s: seq<T>, leq: (T, T) -> bool)
    requires TotalOrderOn(leq, Elements(s) + {x}) && SortedBy(s, leq) && s != [] && !leq(x, s[0])
    ensures forall j :: 0 <= j < |Insert(x, s[1..], leq)| ==> leq(s[0], Insert(x, s[1..], leq)[j])
  {
    hide Insert;
    InsertPermutes(x, s[1..], leq);
    var tail := Insert(x, s[1..], leq);
    assert s[0] in Elements(s);
    forall j | 0 <= j < |tail|
      ensures leq(s[0], tail[j])
    {
      assert tail[j] in multiset(tail);
    }
  }

  lemma {:induction false} SortByPermutes<T>(s: seq<T>, leq: (T, T) -> bool)
    ensures multiset(SortBy(s, leq)) == multiset(s)
    ensures Elements(SortBy(s, leq)) == Elements(s)
    ensures |SortBy(s, leq)| == |s|
  {
    if s != [] {
      SortByPermutes(s[1..], leq);
      InsertPermutes(s[0], SortBy(s[1..], leq), leq);
      assert s == [s[0]] + s[1..];
    }
    SameElements(SortBy(s, leq), s);
  }

  lemma SameElements<T>(a: seq<T>, b: seq<T>)
    requires multiset(a) == multiset(b)
    ensures Elements(a) == Elements(b) && |a| == |b|
  {
    assert forall x :: x in a <==> x in multiset(a);
    assert forall x :: x in b <==> x in multiset(b);
    assert |multiset(a)| == |a| && |multiset(b)| == |b|;
  }

  lemma {:induction false} SortBySorts<T>(s: seq<T>, leq: (T, T) -> bool)
    requires TotalOrderOn(leq, Elements(s))
    ensures SortedBy(SortBy(s, leq), leq)
  {
    if s != [] {
      assert Elements(s) == Elements(s[1..]) + {s[0]} by { assert s == [s[0]] + s[1..]; }
      SortBySorts(s[1..], leq);
      SortByPermutes(s[1..], leq);
      InsertSorts(s[0], SortBy(s[1..], leq), leq);
    }
  }

  lemma LeastComesFirst<T>(a: seq<T>, x: T, leq: (T, T) -> bool)
    requires SortedBy(a, leq) && TotalOrderOn(leq, Elements(a)) && x in Elements(a)
    ensures a != [] && leq(a[0], x)
  {
    var i :| 0 <= i < |a| && a[i] == x;
  }

  lemma TailOf<T>(a: seq<T>, leq: (T, T) -> bool)
    requires a != [] && SortedBy(a, leq) && TotalOrderOn(leq, Elements(a))
    ensures multiset(a[1..]) == multiset(a) - multiset{a[0]}
    ensures SortedBy(a[1..], leq) && TotalOrderOn(leq, Elements(a[1..])) && a == [a[0]] + a[1..]
  {
    assert a == [a[0]] + a[1..];
    assert forall x :: x in Elements(a[1..]) ==> x in Elements(a);
  }

  // A collection has only one sorted arrangement, whatever order it was read in.
  lemma {:induction false} SortedUnique<T>(a: seq<T>, b: seq<T>, leq: (T, T) -> bool)
    requires multiset(a) == multiset(b)
    requires SortedBy(a, leq) && SortedBy(b, leq) && TotalOrderOn(leq, Elements(a))
    ensures a == b
  {
    SameElements(a, b);
    if a != [] {
      assert a[0] in Elements(a) && b[0] in Elements(b);
      LeastComesFirst(a, b[0], leq);
      LeastComesFirst(b, a[0], leq);
      TailOf(a, leq);
      TailOf(b, leq);
      SortedUnique(a[1..], b[1..], leq);
    }
  }

  // A multiset of distinct elements is determined by its set.
  lemma DistinctMultisets<T>(a: seq<T>, b: seq<T>, keys: set<T>)
    requires IsScan(a, keys) && IsScan(b, keys)
    ensures multiset(a) == multiset(b)
  {
    DistinctMultiset(a, keys);
    DistinctMultiset(b, keys);
  }

  lemma {:induction false} DistinctMultiset<T>(a: seq<T>, keys: set<T>)
    requires IsScan(a, keys)
    ensures multiset(a) == multiset(keys)
    decreases |a|
  {
    if a != [] {
      var last := |a| - 1;
      assert a == a[..last] + [a[last]];
      assert keys - {a[last]} == Elements(a[..last]);
      DistinctMultiset(a[..last], keys - {a[last]});
    } else {
      assert keys == {};
    }
  }

  lemma RepeatCounts<T>(a: seq<T>, i: nat, j: nat)
    requires i < j < |a| && a[i] == a[j]
    ensures multiset(a)[a[i]] >= 2
  {
    assert a == a[..i] + [a[i]] + a[i + 1..j] + [a[j]] + a[j + 1..];
  }

  lemma SortKeepsScan<T>(a: seq<T>, keys: set<T>, leq: (T, T) -> bool)
    requires IsScan(a, keys) && TotalOrderOn(leq, keys)
    ensures IsScan(SortBy(a, leq), keys) && SortedBy(SortBy(a, leq), leq)
  {
    var r := SortBy(a, leq);
    forall i, j | 0 <= i < j < |r|
      ensures r[i] == r[j] ==> multiset(r)[r[i]] >= 2
    {
      if r[i] == r[j] { RepeatCounts(r, i, j); }
    }
    SortBySorts(a, leq);
    SortByPermutes(a, leq);
    DistinctMultiset(a, keys);
  }

  // ----- the order Go compares strings in -----

  predicate StringLess(a: string, b: string) {
    b != "" && (a == "" || a[0] < b[0] || (a[0] == b[0] && StringLess(a[1..], b[1..])))
  }

  predicate StringLeq(a: string, b: string) { !StringLess(b, a) }

  lemma {:induction false} StringTrichotomy(a: string, b: string)
    ensures !StringLess(a, a)
    ensures !(StringLess(a, b) && StringLess(b, a))
    ensures StringLess(a, b) || StringLess(b, a) || a == b
  {
    if a != "" {
      StringTrichotomy(a[1..], if b == "" then "" else b[1..]);
      if b != "" && a[0] == b[0] && a[1..] == b[1..] {
        assert a == [a[0]] + a[1..] && b == [b[0]] + b[1..];
      }
    }
  }

  lemma {:induction false} StringTransitive(a: string, b: string, c: string)
    requires StringLess(a, b) && StringLess(b, c)
    ensures StringLess(a, c)
  {
    if a != "" && a[0] == b[0] == c[0] {
      StringTransitive(a[1..], b[1..], c[1..]);
    }
  }

  lemma StringLeqTransitive(a: string, b: string, c: string)
    requires StringLeq(a, b) && StringLeq(b, c)
    ensures StringLeq(a, c)
  {
    StringTrichotomy(b, c);
    if StringLess(c, a) && b != c {
      StringTransitive(b, c, a);
    }
  }

  lemma StringsTotallyOrdered(elems: set<string>)
    ensures TotalOrderOn(StringLeq, elems)
  {
    forall a: string, b: string {
      StringTrichotomy(a, b);
    }
    forall a: string, b: string, c: string | StringLeq(a, b) && StringLeq(b, c)
      ensures StringLeq(a, c)
    {
      StringLeqTransitive(a, b, c);
    }
  }
}
