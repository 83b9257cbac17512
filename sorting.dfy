/**
 * `Array.prototype.sort` with a comparator `(a, b) => key(b) - key(a)`: a stable sort that
 * puts the largest key first. The program sorts the daily-record log newest date first and
 * the unachieved milestones highest progress first.
 */
module Sorting {

  predicate SortedDesc<T>(s: seq<T>, key: T -> int)
  {
    forall i, j :: 0 <= i < j < |s| ==> key(s[j]) <= key(s[i])
  }

  predicate StrictlyDesc<T>(s: seq<T>, key: T -> int)
  {
    forall i, j :: 0 <= i < j < |s| ==> key(s[j]) < key(s[i])
  }

  predicate DistinctKeys<T>(s: seq<T>, key: T -> int)
  {
    forall i, j :: 0 <= i < j < |s| ==> key(s[i]) != key(s[j])
  }

  /** Inserts `x` before the first element whose key is not larger, so equal keys keep their order. */
  function Insert<T>(x: T, s: seq<T>, key: T -> int): (r: seq<T>)
    ensures |r| == |s| + 1 && multiset(r) == multiset(s) + multiset{x}
  {
    if s == [] || key(x) >= key(s[0]) then [x] + s
    else
      assert s == [s[0]] + s[1..];
      [s[0]] + Insert(x, s[1..], key)
  }

  /** Stable sort, largest key first. */
  function SortDesc<T>(s: seq<T>, key: T -> int): (r: seq<T>)
    ensures |r| == |s| && multiset(r) == multiset(s)
  {
    if s == [] then []
    else
      assert s == [s[0]] + s[1..];
      Insert(s[0], SortDesc(s[1..], key), key)
  }

  lemma {:induction false} InsertSorted<T>(x: T, s: seq<T>, key: T -> int)
    requires SortedDesc(s, key)
    ensures SortedDesc(Insert(x, s, key), key)
  {
    if s != [] && key(x) < key(s[0]) {
      InsertSorted(x, s[1..], key);
      var r := Insert(x, s, key);
      var tail := Insert(x, s[1..], key);
      assert r == [s[0]] + tail;
      forall j | 0 < j < |r| ensures key(r[j]) <= key(r[0]) {
        InsertedComesFrom(x, s[1..], key, j - 1);
      }
    }
  }

  /** Each element of an insertion is the inserted one or an element of the list it went into. */
  lemma InsertedComesFrom<T>(x: T, s: seq<T>, key: T -> int, j: nat)
    requires j < |s| + 1
    ensures Insert(x, s, key)[j] == x || exists k :: 0 <= k < |s| && s[k] == Insert(x, s, key)[j]
  {
    var r := Insert(x, s, key);
    if r[j] != x {
      assert r[j] in multiset(r);
      assert r[j] in multiset(s);
    }
  }

  /** The result is ordered, largest key first. */
  lemma {:induction false} SortDescSorted<T>(s: seq<T>, key: T -> int)
    ensures SortedDesc(SortDesc(s, key), key)
  {
    if s != [] {
      SortDescSorted(s[1..], key);
      InsertSorted(s[0], SortDesc(s[1..], key), key);
    }
  }

  lemma {:induction false} InsertStrict<T>(x: T, s: seq<T>, key: T -> int)
    requires StrictlyDesc(s, key)
    requires forall i :: 0 <= i < |s| ==> key(s[i]) != key(x)
    ensures StrictlyDesc(Insert(x, s, key), key)
  {
    if s != [] && key(x) < key(s[0]) {
      InsertStrict(x, s[1..], key);
      var r := Insert(x, s, key);
      var tail := Insert(x, s[1..], key);
      assert r == [s[0]] + tail;
      forall j | 0 < j < |r| ensures key(r[j]) < key(r[0]) {
        InsertedComesFrom(x, s[1..], key, j - 1);
      }
    }
  }

  /** With distinct keys the order is strict: no two results share a key. */
  lemma {:induction false} SortDescStrict<T>(s: seq<T>, key: T -> int)
    requires DistinctKeys(s, key)
    ensures StrictlyDesc(SortDesc(s, key), key)
  {
    if s != [] {
      var t := s[1..];
      assert DistinctKeys(t, key) by {
        forall i, j | 0 <= i < j < |t| ensures key(t[i]) != key(t[j]) {
          assert t[i] == s[i + 1] && t[j] == s[j + 1];
        }
      }
      SortDescStrict(t, key);
      var st := SortDesc(t, key);
      forall i | 0 <= i < |st| ensures key(st[i]) != key(s[0]) {
        assert st[i] in multiset(t);
        var k :| 0 <= k < |t| && t[k] == st[i];
        assert s[k + 1] == st[i];
      }
      InsertStrict(s[0], st, key);
    }
  }

  /**
   * The first element after sorting is the earliest element of the input whose key is
   * maximal: every element has a key no larger, every earlier one a strictly smaller key.
   */
  lemma {:induction false} SortDescHead<T>(s: seq<T>, key: T -> int) returns (i: nat)
    requires |s| > 0
    ensures i < |s| && SortDesc(s, key)[0] == s[i]
    ensures forall j :: 0 <= j < |s| ==> key(s[j]) <= key(s[i])
    ensures forall j :: 0 <= j < i ==> key(s[j]) < key(s[i])
  {
    var t := s[1..];
    if t == [] {
      i := 0;
    } else {
      var i' := SortDescHead(t, key);
      var st := SortDesc(t, key);
      SortDescUnfold(s, key);
      if key(s[0]) >= key(st[0]) {
        i := 0;
        HeadIsMax(s, key, st[0]);
      } else {
        i := i' + 1;
        HeadFromTail(s, key, i');
      }
    }
  }

  lemma SortDescUnfold<T>(s: seq<T>, key: T -> int)
    requires |s| > 1
    ensures var st := SortDesc(s[1..], key);
      SortDesc(s, key)[0] == if key(s[0]) >= key(st[0]) then s[0] else st[0]
  {
  }

  lemma HeadIsMax<T>(s: seq<T>, key: T -> int, m: T)
    requires |s| > 1 && key(m) <= key(s[0])
    requires forall j :: 0 <= j < |s[1..]| ==> key(s[1..][j]) <= key(m)
    ensures forall j :: 0 <= j < |s| ==> key(s[j]) <= key(s[0])
  {
    forall j | 0 < j < |s| ensures key(s[j]) <= key(s[0]) {
      assert s[j] == s[1..][j - 1];
    }
  }

  lemma HeadFromTail<T>(s: seq<T>, key: T -> int, i': nat)
    requires |s| > 1 && i' < |s| - 1
    requires key(s[0]) < key(s[1..][i'])
    requires forall j :: 0 <= j < |s[1..]| ==> key(s[1..][j]) <= key(s[1..][i'])
    requires forall j :: 0 <= j < i' ==> key(s[1..][j]) < key(s[1..][i'])
    ensures forall j :: 0 <= j < |s| ==> key(s[j]) <= key(s[i' + 1])
    ensures forall j :: 0 <= j < i' + 1 ==> key(s[j]) < key(s[i' + 1])
  {
    forall j | 0 < j < |s| ensures s[j] == s[1..][j - 1] {
    }
  }

  /** An already sorted sequence is left in place by the sort (it is stable). */
  lemma {:induction false} SortKeepsSorted<T>(s: seq<T>, key: T -> int)
    requires SortedDesc(s, key)
    ensures SortDesc(s, key) == s
  {
    if s != [] {
      SortKeepsSorted(s[1..], key);
      assert s == [s[0]] + s[1..];
    }
  }

  lemma InsertPastFront<T>(x: T, y: T, t: seq<T>, key: T -> int)
    requires key(x) < key(y)
    ensures Insert(x, [y] + t, key) == [y] + Insert(x, t, key)
  {
    assert ([y] + t)[0] == y && ([y] + t)[1..] == t;
  }

  lemma SortUnfoldAppend<T>(s: seq<T>, x: T, key: T -> int)
    requires s != []
    ensures SortDesc(s + [x], key) == Insert(s[0], SortDesc(s[1..] + [x], key), key)
  {
    assert (s + [x])[0] == s[0] && (s + [x])[1..] == s[1..] + [x];
  }

  /** An element with a larger key than every element of a sorted sequence is sorted to the front. */
  lemma {:induction false} SortNewestToFront<T>(s: seq<T>, x: T, key: T -> int)
    requires SortedDesc(s, key)
    requires forall i :: 0 <= i < |s| ==> key(s[i]) < key(x)
    ensures SortDesc(s + [x], key) == [x] + s
  {
    if s == [] {
      assert [] + [x] == [x];
    } else {
      var t := s[1..];
      assert s == [s[0]] + t;
      assert forall i :: 0 <= i < |t| ==> key(t[i]) < key(x) by {
        forall i | 0 <= i < |t| ensures key(t[i]) < key(x) { assert t[i] == s[i + 1]; }
      }
      SortNewestToFront(t, x, key);
      SortUnfoldAppend(s, x, key);
      InsertPastFront(s[0], x, t, key);
      assert t == [] || key(t[0]) <= key(s[0]) by {
        if t != [] { assert t[0] == s[1]; }
      }
      calc {
        SortDesc(s + [x], key);
        Insert(s[0], [x] + t, key);
        [x] + Insert(s[0], t, key);
        [x] + ([s[0]] + t);
        [x] + s;
      }
    }
  }
}
