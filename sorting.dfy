/** Ordering by a numeric key, ascending or descending. The database's
    `ORDER BY <column> ASC|DESC` and the client's `Array.prototype.sort` with a
    numeric comparator both promise exactly this: the output is a rearrangement
    of the input whose keys run in the requested direction. Neither promises an
    order among equal keys, so nothing below is said about ties; `Sort` is one
    admissible order. */
module Sorting {

  datatype Direction = Ascending | Descending

  /** `x` may come before `y` in the given direction. */
  predicate InOrder(dir: Direction, x: real, y: real) {
    if dir == Ascending then x <= y else x >= y
  }

  predicate SortedBy<T>(s: seq<T>, key: T -> real, dir: Direction) {
    forall i, j :: 0 <= i < j < |s| ==> InOrder(dir, key(s[i]), key(s[j]))
  }

  /** Any two elements can be placed in one order or the other. */
  lemma InOrderTotal(dir: Direction, x: real, y: real)
    ensures InOrder(dir, x, y) || InOrder(dir, y, x)
  {
  }

  /** Places `x` in front of the first element it may precede. */
  function Insert<T>(x: T, s: seq<T>, key: T -> real, dir: Direction): (r: seq<T>)
    requires SortedBy(s, key, dir)
    ensures multiset(r) == multiset(s) + multiset{x}
    ensures |r| == |s| + 1
    ensures SortedBy(r, key, dir)
  {
    if s == [] then [x]
    else if InOrder(dir, key(x), key(s[0])) then [x] + s
    else
      var rest := Insert(x, s[1..], key, dir);
      assert s == [s[0]] + s[1..];
      InOrderTotal(dir, key(x), key(s[0]));
      forall y | y in rest ensures InOrder(dir, key(s[0]), key(y)) {
        assert y in multiset(rest);
        if y != x {
          assert y in multiset(s[1..]);
          var m :| 0 <= m < |s[1..]| && s[1..][m] == y;
          assert s[m + 1] == y;
        }
      }
      [s[0]] + rest
  }

  /** Insertion sort: a permutation of `s` whose keys run in direction `dir`. */
  function Sort<T>(s: seq<T>, key: T -> real, dir: Direction): (r: seq<T>)
    ensures multiset(r) == multiset(s)
    ensures |r| == |s|
    ensures SortedBy(r, key, dir)
  {
    if s == [] then []
    else
      assert s == [s[0]] + s[1..];
      Insert(s[0], Sort(s[1..], key, dir), key, dir)
  }

  /** A sorted permutation is unique up to the keys: every admissible order
      lists the same key values, position by position. */
  lemma {:induction false} SortedKeysUnique<T>(a: seq<T>, b: seq<T>, key: T -> real, dir: Direction, k: nat)
    requires multiset(a) == multiset(b)
    requires SortedBy(a, key, dir) && SortedBy(b, key, dir)
    requires k < |a|
    ensures |a| == |b| && key(a[k]) == key(b[k])
  {
    assert |a| == |multiset(a)| == |multiset(b)| == |b|;
    SortedKeysUniqueAt(a, b, key, dir, k);
  }

  /** Removing one element keeps a sequence sorted. */
  lemma RemoveSorted<T>(b: seq<T>, j: nat, key: T -> real, dir: Direction)
    requires j < |b| && SortedBy(b, key, dir)
    ensures SortedBy(b[..j] + b[j + 1..], key, dir)
  {
    var b' := b[..j] + b[j + 1..];
    forall p, q | 0 <= p < q < |b'| ensures InOrder(dir, key(b'[p]), key(b'[q])) {
      var p0 := if p < j then p else p + 1;
      var q0 := if q < j then q else q + 1;
      assert b'[p] == b[p0] && b'[q] == b[q0];
    }
  }

  /** In a sorted sequence, everything up to an element with the first
      element's key carries that same key. */
  lemma LeadingBlock<T>(b: seq<T>, j: nat, key: T -> real, dir: Direction)
    requires j < |b| && SortedBy(b, key, dir) && key(b[j]) == key(b[0])
    ensures forall m :: 0 <= m <= j ==> key(b[m]) == key(b[0])
  {
    forall m | 0 <= m <= j ensures key(b[m]) == key(b[0]) {
      assert m == 0 || InOrder(dir, key(b[0]), key(b[m]));
      assert m == j || InOrder(dir, key(b[m]), key(b[j]));
    }
  }

  /** Dropping the head of `a` and the same element from `b` keeps the two
      permutations of each other. */
  lemma RemoveMatching<T>(a: seq<T>, b: seq<T>, j: nat)
    requires multiset(a) == multiset(b) && |a| > 0 && j < |b| && b[j] == a[0]
    ensures multiset(a[1..]) == multiset(b[..j] + b[j + 1..])
  {
    assert a == [a[0]] + a[1..];
    assert b == b[..j] + [b[j]] + b[j + 1..];
    calc {
      multiset(a[1..]);
      multiset(a) - multiset{a[0]};
      multiset(b) - multiset{b[j]};
      multiset(b[..j]) + multiset{b[j]} + multiset(b[j + 1..]) - multiset{b[j]};
      multiset(b[..j]) + multiset(b[j + 1..]);
      multiset(b[..j] + b[j + 1..]);
    }
  }

  lemma {:induction false} SortedKeysUniqueAt<T>(a: seq<T>, b: seq<T>, key: T -> real, dir: Direction, k: nat)
    requires multiset(a) == multiset(b) && |a| == |b|
    requires SortedBy(a, key, dir) && SortedBy(b, key, dir)
    requires k < |a|
    ensures key(a[k]) == key(b[k])
    decreases |a|
  {
    // a[0] sits at some position j of b; b[0..j] all carry the key of a[0].
    assert a[0] in multiset(b);
    var j :| 0 <= j < |b| && b[j] == a[0];
    assert b[0] in multiset(a);
    var i :| 0 <= i < |a| && a[i] == b[0];
    assert i == 0 || InOrder(dir, key(a[0]), key(a[i]));
    assert j == 0 || InOrder(dir, key(b[0]), key(b[j]));
    assert key(b[0]) == key(a[0]);
    LeadingBlock(b, j, key, dir);
    if k > 0 {
      var a' := a[1..];
      var b' := b[..j] + b[j + 1..];
      RemoveMatching(a, b, j);
      RemoveSorted(b, j, key, dir);
      SortedKeysUniqueAt(a', b', key, dir, k - 1);
      assert a[k] == a'[k - 1];
      if k - 1 < j {
        assert b'[k - 1] == b[k - 1];
      } else {
        assert b'[k - 1] == b[k];
      }
    }
  }
}
