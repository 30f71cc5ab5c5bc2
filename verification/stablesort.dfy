/**
 * Python's `sorted(xs, key=..., reverse=True)` and `list.sort(key=..., reverse=True)`:
 * a stable sort into descending key order. Keys are numbers (ordered by value)
 * or strings (ordered code point by code point); the callers raise TypeError
 * before a number is ever compared with a string.
 */
module StableSort {
  import opened Json

  datatype SortKey = Num(f: Float) | Text(s: string)

  /**
   * The order on floats the sort uses. Python's `<` is false whenever a NaN is
   * involved; the sort ranks NaN below every other float instead.
   */
  function Tier(f: Float): nat {
    match f
    case NaN => 0
    case NegInf => 1
    case Finite(_) => 2
    case PosInf => 3
  }

  predicate FloatLess(a: Float, b: Float) {
    Tier(a) < Tier(b) || (a.Finite? && b.Finite? && a.r < b.r)
  }

  /** Python's `<` on two strings: lexicographic by code point. */
  predicate TextLess(a: string, b: string)
    decreases |a|
  {
    if a == [] then b != []
    else if b == [] then false
    else if a[0] == b[0] then TextLess(a[1..], b[1..])
    else a[0] < b[0]
  }

  predicate Less(a: SortKey, b: SortKey) {
    match (a, b)
    case (Num(x), Num(y)) => FloatLess(x, y)
    case (Text(x), Text(y)) => TextLess(x, y)
    case (Num(_), Text(_)) => true
    case (Text(_), Num(_)) => false
  }

  lemma {:induction false} TextLessIrreflexive(a: string)
    ensures !TextLess(a, a)
    decreases |a|
  {
    if a != [] {
      TextLessIrreflexive(a[1..]);
    }
  }

  lemma {:induction false} TextLessTransitive(a: string, b: string, c: string)
    requires TextLess(a, b) && TextLess(b, c)
    ensures TextLess(a, c)
    decreases |a|
  {
    if a != [] && b != [] && c != [] && a[0] == b[0] && b[0] == c[0] {
      TextLessTransitive(a[1..], b[1..], c[1..]);
    }
  }

  lemma {:induction false} TextLessTotal(a: string, b: string)
    requires !TextLess(a, b) && !TextLess(b, a)
    ensures a == b
    decreases |a|
  {
    if a != [] && b != [] {
      TextLessTotal(a[1..], b[1..]);
      assert a == [a[0]] + a[1..];
      assert b == [b[0]] + b[1..];
    }
  }

  /** `Less` is a strict total order, which is what makes the sort's result well defined. */
  lemma LessIrreflexive(a: SortKey)
    ensures !Less(a, a)
  {
    if a.Text? {
      TextLessIrreflexive(a.s);
    }
  }

  lemma LessTransitive(a: SortKey, b: SortKey, c: SortKey)
    requires Less(a, b) && Less(b, c)
    ensures Less(a, c)
  {
    if a.Text? && b.Text? && c.Text? {
      TextLessTransitive(a.s, b.s, c.s);
    }
  }

  lemma LessTotal(a: SortKey, b: SortKey)
    requires !Less(a, b) && !Less(b, a)
    ensures a == b
  {
    if a.Text? && b.Text? {
      TextLessTotal(a.s, b.s);
    }
  }

  /** Descending: no element has a smaller key than a later one. */
  predicate SortedDesc<T>(s: seq<T>, key: T -> SortKey) {
    forall i, j :: 0 <= i < j < |s| ==> !Less(key(s[i]), key(s[j]))
  }

  /**
   * Inserts x into a descending list after every element whose key is not
   * smaller than x's.
   */
  function Insert<T>(x: T, s: seq<T>, key: T -> SortKey): seq<T> {
    if s == [] then [x]
    else if Less(key(s[0]), key(x)) then [x] + s
    else [s[0]] + Insert(x, s[1..], key)
  }

  /** The sorted list: each element is inserted after the ones that came before it. */
  function Sort<T>(s: seq<T>, key: T -> SortKey): (r: seq<T>)
    ensures SortedDesc(r, key)
    ensures multiset(r) == multiset(s)
  {
    if s == [] then []
    else
      var prefix, x := s[..|s| - 1], s[|s| - 1];
      InsertSorted(x, Sort(prefix, key), key);
      InsertMultiset(x, Sort(prefix, key), key);
      assert s == prefix + [x];
      Insert(x, Sort(prefix, key), key)
  }

  /** The elements whose key is k, in list order. */
  function WithKey<T>(s: seq<T>, key: T -> SortKey, k: SortKey): seq<T> {
    if s == [] then []
    else (if key(s[0]) == k then [s[0]] else []) + WithKey(s[1..], key, k)
  }

  lemma {:induction false} WithKeyAppend<T>(s: seq<T>, t: seq<T>, key: T -> SortKey, k: SortKey)
    ensures WithKey(s + t, key, k) == WithKey(s, key, k) + WithKey(t, key, k)
  {
    if s == [] {
      assert s + t == t;
    } else {
      var head := if key(s[0]) == k then [s[0]] else [];
      assert (s + t)[0] == s[0] && (s + t)[1..] == s[1..] + t;
      assert WithKey(s + t, key, k) == head + WithKey(s[1..] + t, key, k);
      WithKeyAppend(s[1..], t, key, k);
      assert WithKey(s, key, k) == head + WithKey(s[1..], key, k);
    }
  }

  /** In a descending list that starts below k, no element has key k. */
  lemma {:induction false} WithKeyBelow<T>(s: seq<T>, key: T -> SortKey, k: SortKey)
    requires SortedDesc(s, key)
    requires s != [] && Less(key(s[0]), k)
    ensures WithKey(s, key, k) == []
  {
    LessIrreflexive(k);
    if |s| > 1 {
      if Less(key(s[1]), key(s[0])) {
        LessTransitive(key(s[1]), key(s[0]), k);
      } else {
        LessTotal(key(s[0]), key(s[1]));
      }
      SortedTail(s, key);
      WithKeyBelow(s[1..], key, k);
    }
  }

  lemma SortedTail<T>(s: seq<T>, key: T -> SortKey)
    requires s != [] && SortedDesc(s, key)
    ensures SortedDesc(s[1..], key)
  {
    forall i, j | 0 <= i < j < |s[1..]| ensures !Less(key(s[1..][i]), key(s[1..][j])) {
      assert s[1..][i] == s[i + 1] && s[1..][j] == s[j + 1];
    }
  }

  lemma {:induction false} InsertMultiset<T>(x: T, s: seq<T>, key: T -> SortKey)
    ensures multiset(Insert(x, s, key)) == multiset(s) + multiset{x}
  {
    if s != [] && !Less(key(s[0]), key(x)) {
      InsertMultiset(x, s[1..], key);
      assert s == [s[0]] + s[1..];
    }
  }

  lemma {:induction false} InsertSorted<T>(x: T, s: seq<T>, key: T -> SortKey)
    requires SortedDesc(s, key)
    ensures SortedDesc(Insert(x, s, key), key)
  {
    if s == [] {
    } else if Less(key(s[0]), key(x)) {
      forall j | 0 <= j < |s| ensures !Less(key(x), key(s[j])) {
        if Less(key(x), key(s[j])) {
          LessTransitive(key(s[0]), key(x), key(s[j]));
          LessIrreflexive(key(s[0]));
        }
      }
      ConsSorted(x, s, key);
    } else {
      var tail := Insert(x, s[1..], key);
      SortedTail(s, key);
      InsertSorted(x, s[1..], key);
      InsertMultiset(x, s[1..], key);
      forall j | 0 <= j < |tail| ensures !Less(key(s[0]), key(tail[j])) {
        assert tail[j] in multiset(s[1..]) + multiset{x};
        if tail[j] != x {
          var m :| 0 <= m < |s[1..]| && s[1..][m] == tail[j];
          assert s[m + 1] == tail[j];
        }
      }
      ConsSorted(s[0], tail, key);
    }
  }

  /** An element no smaller than any of a descending list can go in front of it. */
  lemma ConsSorted<T>(h: T, t: seq<T>, key: T -> SortKey)
    requires SortedDesc(t, key)
    requires forall j :: 0 <= j < |t| ==> !Less(key(h), key(t[j]))
    ensures SortedDesc([h] + t, key)
  {
    var r := [h] + t;
    forall i, j | 0 <= i < j < |r| ensures !Less(key(r[i]), key(r[j])) {
      assert r[j] == t[j - 1];
      if i > 0 {
        assert r[i] == t[i - 1];
      }
    }
  }

  /** The elements of `[h] + t` with key k: h if it has that key, then those of t. */
  lemma WithKeyCons<T>(h: T, t: seq<T>, key: T -> SortKey, k: SortKey)
    ensures WithKey([h] + t, key, k) == (if key(h) == k then [h] else []) + WithKey(t, key, k)
  {
    assert ([h] + t)[0] == h && ([h] + t)[1..] == t;
  }

  lemma {:induction false} InsertWithKey<T>(x: T, s: seq<T>, key: T -> SortKey, k: SortKey)
    requires SortedDesc(s, key)
    ensures WithKey(Insert(x, s, key), key, k) == WithKey(s, key, k) + (if key(x) == k then [x] else [])
  {
    var added := if key(x) == k then [x] else [];
    if s == [] {
      WithKeyCons(x, s, key, k);
    } else if Less(key(s[0]), key(x)) {
      if key(x) == k {
        WithKeyBelow(s, key, k);
      }
      WithKeyCons(x, s, key, k);
    } else {
      var head := if key(s[0]) == k then [s[0]] else [];
      var tail := Insert(x, s[1..], key);
      SortedTail(s, key);
      InsertWithKey(x, s[1..], key, k);
      WithKeyCons(s[0], tail, key, k);
      assert WithKey(s, key, k) == head + WithKey(s[1..], key, k);
    }
  }

  /**
   * The sort's third promise, beside order and permutation: elements with
   * equal keys keep their input order (stability).
   */
  lemma {:induction false} SortStable<T>(s: seq<T>, key: T -> SortKey)
    ensures forall k :: WithKey(Sort(s, key), key, k) == WithKey(s, key, k)
  {
    if s != [] {
      var prefix, x := s[..|s| - 1], s[|s| - 1];
      SortStable(prefix, key);
      assert s == prefix + [x];
      forall k ensures WithKey(Sort(s, key), key, k) == WithKey(s, key, k) {
        InsertWithKey(x, Sort(prefix, key), key, k);
        WithKeyAppend(prefix, [x], key, k);
      }
    }
  }

  /** The sorted list has the same members as the input. */
  lemma SortMembers<T>(s: seq<T>, key: T -> SortKey)
    ensures forall x :: x in Sort(s, key) <==> x in s
  {
    SortStable(s, key);
    forall x ensures x in Sort(s, key) <==> x in s {
      assert x in Sort(s, key) <==> x in multiset(Sort(s, key));
      assert x in s <==> x in multiset(s);
    }
  }
}
