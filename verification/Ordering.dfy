/** Rows in the order of a key, as an ORDER BY over a key that no two rows share. */
module Ordering {
  import opened Common

  datatype Key = Key(major: nat, middle: seq<nat>, minor: nat)

  predicate SeqLess(a: seq<nat>, b: seq<nat>) {
    |b| > 0 && (|a| == 0 || a[0] < b[0] || (a[0] == b[0] && SeqLess(a[1..], b[1..])))
  }

  /** A text as the sequence of its scalar values. */
  function Scalars(text: string): seq<nat> {
    seq(|text|, i requires 0 <= i < |text| => text[i] as int)
  }

  /** Texts are compared at the first place they differ, and a prefix comes first. */
  lemma {:induction false} ScalarsCompare(a: string, b: string)
    ensures SeqLess(Scalars(a), Scalars(b)) <==> TextBefore(a, b)
    decreases |a|
  {
    BeforeByHead(a, b);
    hide TextBefore;
    if |a| > 0 && |b| > 0 {
      ScalarsCompare(a[1..], b[1..]);
      assert Scalars(a)[1..] == Scalars(a[1..]) && Scalars(b)[1..] == Scalars(b[1..]);
    }
  }

  lemma ScalarsDiffer(a: string, b: string)
    ensures Scalars(a) == Scalars(b) <==> a == b
  {
    if Scalars(a) == Scalars(b) {
      assert forall i | 0 <= i < |a| :: Scalars(a)[i] == a[i] as int && Scalars(b)[i] == b[i] as int;
      assert |a| == |Scalars(a)| == |b|;
      assert a == b;
    }
  }

  lemma OneLess(a: nat, b: nat)
    ensures SeqLess([a], [b]) <==> a < b
    ensures [a] == [b] <==> a == b
  {
    assert [a][0] == a && [b][0] == b;
    assert [a][1..] == [] && [b][1..] == [];
  }

  predicate Less(a: Key, b: Key) {
    a.major < b.major
    || (a.major == b.major && (SeqLess(a.middle, b.middle) || (a.middle == b.middle && a.minor < b.minor)))
  }

  lemma {:induction false} SeqTotal(a: seq<nat>, b: seq<nat>)
    ensures a == b || SeqLess(a, b) || SeqLess(b, a)
    ensures SeqLess(a, b) ==> a != b && !SeqLess(b, a)
    decreases |a|
  {
    if |a| > 0 && |b| > 0 {
      SeqTotal(a[1..], b[1..]);
      assert a == [a[0]] + a[1..] && b == [b[0]] + b[1..];
    }
  }

  lemma {:induction false} SeqTransitive(a: seq<nat>, b: seq<nat>, c: seq<nat>)
    requires SeqLess(a, b) && SeqLess(b, c)
    ensures SeqLess(a, c)
    decreases |a|
  {
    if |a| > 0 && a[0] == b[0] == c[0] {
      SeqTransitive(a[1..], b[1..], c[1..]);
    }
  }

  lemma Total(a: Key, b: Key)
    ensures a == b || Less(a, b) || Less(b, a)
    ensures Less(a, b) ==> a != b && !Less(b, a)
  {
    SeqTotal(a.middle, b.middle);
    SeqTotal(b.middle, a.middle);
  }

  lemma Transitive(a: Key, b: Key, c: Key)
    requires Less(a, b) && Less(b, c)
    ensures Less(a, c)
  {
    if SeqLess(a.middle, b.middle) && SeqLess(b.middle, c.middle) {
      SeqTransitive(a.middle, b.middle, c.middle);
    }
  }

  ghost predicate Keyed<T(!new)>(rows: set<T>, key: T -> Key) {
    forall a, b | a in rows && b in rows && key(a) == key(b) :: a == b
  }

  predicate IsLeast<T(==)>(rows: set<T>, key: T -> Key, x: T) {
    x in rows && forall y | y in rows && y != x :: Less(key(x), key(y))
  }

  lemma {:induction false} LeastExists<T(!new)>(rows: set<T>, key: T -> Key)
    requires rows != {} && Keyed(rows, key)
    ensures exists x :: IsLeast(rows, key, x)
    decreases |rows|
  {
    var x :| x in rows;
    if rows == {x} {
      assert IsLeast(rows, key, x);
    } else {
      LeastExists(rows - {x}, key);
      var y :| IsLeast(rows - {x}, key, y);
      Total(key(x), key(y));
      if Less(key(x), key(y)) {
        forall z | z in rows && z != x ensures Less(key(x), key(z)) {
          if z != y {
            Transitive(key(x), key(y), key(z));
          }
        }
        assert IsLeast(rows, key, x);
      } else {
        assert IsLeast(rows, key, y);
      }
    }
  }

  lemma OneLeast<T(!new)>(rows: set<T>, key: T -> Key)
    requires rows != {} && Keyed(rows, key)
    ensures exists x :: IsLeast(rows, key, x)
    ensures forall x, y :: IsLeast(rows, key, x) && IsLeast(rows, key, y) ==> x == y
  {
    LeastExists(rows, key);
    forall x, y | IsLeast(rows, key, x) && IsLeast(rows, key, y) ensures x == y {
      Total(key(x), key(y));
    }
  }

  predicate Sorted<T>(list: seq<T>, key: T -> Key) {
    forall i, j | 0 <= i < j < |list| :: Less(key(list[i]), key(list[j]))
  }

  /** The rows, in key order. */
  function Ordered<T(!new)>(rows: set<T>, key: T -> Key): (list: seq<T>)
    requires Keyed(rows, key)
    ensures |list| == |rows|
    ensures forall x :: x in list <==> x in rows
    ensures Sorted(list, key)
    decreases |rows|
  {
    if rows == {} then []
    else
      OneLeast(rows, key);
      var x :| IsLeast(rows, key, x);
      [x] + Ordered(rows - {x}, key)
  }

  lemma HeadIsThere<T>(list: seq<T>)
    ensures |list| > 0 ==> list[0] in list
  {
  }

  /** Two lists in key order with the same rows are the same list. */
  lemma {:induction false} SortedIsUnique<T(!new)>(a: seq<T>, b: seq<T>, key: T -> Key)
    requires Sorted(a, key) && Sorted(b, key)
    requires forall x :: x in a <==> x in b
    ensures a == b
    decreases |a|
  {
    if |a| == 0 {
      HeadIsThere(b);
    } else {
      assert a[0] in b && b[0] in a;
      Total(key(a[0]), key(b[0]));
      var i :| 0 <= i < |b| && b[i] == a[0];
      var j :| 0 <= j < |a| && a[j] == b[0];
      Total(key(a[0]), key(a[0]));
      assert a[0] == b[0];
      forall x ensures x in a[1..] <==> x in b[1..] {
        RestLacksHead(a, key);
        RestLacksHead(b, key);
        assert x in a <==> x == a[0] || x in a[1..];
        assert x in b <==> x == b[0] || x in b[1..];
      }
      SortedIsUnique(a[1..], b[1..], key);
    }
  }

  lemma RestLacksHead<T>(list: seq<T>, key: T -> Key)
    requires Sorted(list, key) && |list| > 0
    ensures list[0] !in list[1..]
  {
    Total(key(list[0]), key(list[0]));
  }

  predicate Follows<T>(key: T -> Key, cursor: Option<Key>, x: T) {
    cursor.None? || Less(cursor.value, key(x))
  }

  /** One page: the first rows after the cursor. */
  function Page<T(!new)>(rows: set<T>, key: T -> Key, cursor: Option<Key>, size: nat): seq<T>
    requires Keyed(rows, key)
  {
    var rest := Ordered((set x | x in rows && Follows(key, cursor, x)), key);
    if |rest| <= size then rest else rest[..size]
  }

  /** The rows after the k-th are the rest of the list. */
  lemma RestFollows<T(!new)>(rows: set<T>, key: T -> Key, k: nat, x: T)
    requires Keyed(rows, key) && 0 < k <= |rows|
    ensures var all := Ordered(rows, key);
            x in all[k..] <==> x in rows && Less(key(all[k - 1]), key(x))
  {
    hide Ordered, Less, SeqLess;
    var all := Ordered(rows, key);
    if x in all[k..] {
      var i :| 0 <= i < |all[k..]| && all[k..][i] == x;
      assert all[k + i] == x;
    }
    if x in rows && Less(key(all[k - 1]), key(x)) {
      var i :| 0 <= i < |all| && all[i] == x;
      Total(key(all[k - 1]), key(x));
      assert i >= k;
      assert all[k..][i - k] == x;
    }
  }

  /** A page after the first k rows is the next stretch of the list. */
  lemma PageContinues<T(!new)>(rows: set<T>, key: T -> Key, k: nat, size: nat)
    requires Keyed(rows, key) && k <= |rows|
    ensures var all := Ordered(rows, key);
            var cursor := if k == 0 then None else Some(key(all[k - 1]));
            Page(rows, key, cursor, size) == if k + size >= |all| then all[k..] else all[k..k + size]
  {
    hide Ordered, Less, SeqLess;
    var all := Ordered(rows, key);
    var cursor := if k == 0 then None else Some(key(all[k - 1]));
    var after := set x | x in rows && Follows(key, cursor, x);
    forall x ensures x in all[k..] <==> x in after {
      if k == 0 {
        assert all[k..] == all;
      } else {
        RestFollows(rows, key, k, x);
      }
    }
    SortedIsUnique(all[k..], Ordered(after, key), key);
    if k + size < |all| {
      assert all[k..][..size] == all[k..k + size];
    }
  }

  function Filter<T(!new)>(list: seq<T>, p: T -> bool): (kept: seq<T>)
    ensures forall x :: x in kept <==> x in list && p(x)
  {
    if |list| == 0 then []
    else
      var front := Filter(list[..|list| - 1], p);
      assert forall x :: x in list <==> x in list[..|list| - 1] || x == list[|list| - 1];
      if p(list[|list| - 1]) then front + [list[|list| - 1]] else front
  }

  lemma {:induction false} FilterSorted<T(!new)>(list: seq<T>, key: T -> Key, p: T -> bool)
    requires Sorted(list, key)
    ensures Sorted(Filter(list, p), key)
    decreases |list|
  {
    if |list| > 0 {
      var n := |list| - 1;
      FilterSorted(list[..n], key, p);
      forall x | x in Filter(list[..n], p) ensures Less(key(x), key(list[n])) {
        assert x in list[..n];
      }
    }
  }

  function Select<T>(rows: set<T>, p: T -> bool): set<T> {
    set x | x in rows && p(x)
  }

  /** Picking from the ordered rows is ordering the picked rows. */
  lemma FilterOfOrdered<T(!new)>(rows: set<T>, key: T -> Key, p: T -> bool)
    requires Keyed(rows, key)
    ensures Filter(Ordered(rows, key), p) == Ordered(Select(rows, p), key)
  {
    FilterSorted(Ordered(rows, key), key, p);
    SortedIsUnique(Filter(Ordered(rows, key), p), Ordered(Select(rows, p), key), key);
  }
}
