/**
 * The ranking behind the filler advice: the `details` entries in insertion
 * order are sorted by count, largest first, with a stable sort (ties keep
 * their insertion order), and the first three are kept.
 */
module Ranking {
  import opened Fillers

  /** Counts never increase from left to right. */
  predicate SortedByCount(s: seq<Entry>) {
    forall i, j :: 0 <= i < j < |s| ==> s[i].count >= s[j].count
  }

  /** The entries of `s` whose count is `c`, in their order in `s`. */
  function WithCount(s: seq<Entry>, c: nat): seq<Entry> {
    if s == [] then []
    else (if s[0].count == c then [s[0]] else []) + WithCount(s[1..], c)
  }

  /** `WithCount` keeps exactly the entries of count `c`. */
  lemma {:induction false} WithCountMembers(s: seq<Entry>, c: nat)
    ensures forall x :: x in WithCount(s, c) <==> x in s && x.count == c
  {
    if s != [] {
      WithCountMembers(s[1..], c);
      assert s == [s[0]] + s[1..];
    }
  }

  /** Inserts `x` after every entry whose count is at least `x.count`. */
  function Insert(s: seq<Entry>, x: Entry): seq<Entry> {
    if s == [] then [x]
    else if s[0].count < x.count then [x] + s
    else [s[0]] + Insert(s[1..], x)
  }

  /** `Insert` adds exactly `x`. */
  lemma {:induction false} InsertAdds(s: seq<Entry>, x: Entry)
    ensures multiset(Insert(s, x)) == multiset(s) + multiset{x}
    ensures |Insert(s, x)| == |s| + 1
  {
    if s != [] {
      InsertAdds(s[1..], x);
      assert s == [s[0]] + s[1..];
    }
  }

  /** An entry whose count bounds a sorted sequence's counts can go in front of it. */
  lemma PrependSorted(e: Entry, t: seq<Entry>)
    requires SortedByCount(t)
    requires forall j :: 0 <= j < |t| ==> e.count >= t[j].count
    ensures SortedByCount([e] + t)
  {
    forall i, j | 0 <= i < j < |[e] + t| ensures ([e] + t)[i].count >= ([e] + t)[j].count {
      assert ([e] + t)[j] == t[j - 1];
      if i > 0 {
        assert ([e] + t)[i] == t[i - 1];
      }
    }
  }

  /** `Insert` keeps a sorted sequence sorted. */
  lemma {:induction false} InsertSorted(s: seq<Entry>, x: Entry)
    requires SortedByCount(s)
    ensures SortedByCount(Insert(s, x))
  {
    if s == [] {
    } else if s[0].count < x.count {
      forall j | 0 <= j < |s| ensures x.count >= s[j].count {
      }
      PrependSorted(x, s);
    } else {
      var t := Insert(s[1..], x);
      InsertSorted(s[1..], x);
      InsertAdds(s[1..], x);
      forall j | 0 <= j < |t| ensures s[0].count >= t[j].count {
        assert t[j] in multiset(t);
        assert t[j] in multiset(s[1..]) || t[j] == x;
      }
      PrependSorted(s[0], t);
    }
  }

  /** `Insert` puts `x` behind every entry of the same count. */
  lemma {:induction false} InsertStable(s: seq<Entry>, x: Entry, c: nat)
    requires SortedByCount(s)
    ensures WithCount(Insert(s, x), c) == WithCount(s, c) + (if x.count == c then [x] else [])
  {
    if s == [] {
    } else if s[0].count < x.count {
      if x.count == c {
        NoneAbove(s, c);
      }
    } else {
      InsertStable(s[1..], x, c);
      assert WithCount(s, c) == (if s[0].count == c then [s[0]] else []) + WithCount(s[1..], c);
    }
  }

  /** A sorted sequence that starts below `c` holds no entry of count `c`. */
  lemma {:induction false} NoneAbove(s: seq<Entry>, c: nat)
    requires SortedByCount(s)
    requires s != [] && s[0].count < c
    ensures WithCount(s, c) == []
  {
    if |s| > 1 {
      NoneAbove(s[1..], c);
    }
  }

  /**
   * The stable sort `entries.sort(([, a], [, b]) => b - a)`: each entry in
   * turn is inserted behind the earlier ones of equal or larger count.
   */
  function SortByCount(s: seq<Entry>): seq<Entry>
    decreases |s|
  {
    if s == [] then [] else Insert(SortByCount(s[..|s| - 1]), s[|s| - 1])
  }

  /** The result is sorted. */
  lemma {:induction false} SortByCountSorted(s: seq<Entry>)
    ensures SortedByCount(SortByCount(s))
    decreases |s|
  {
    if s != [] {
      SortByCountSorted(s[..|s| - 1]);
      InsertSorted(SortByCount(s[..|s| - 1]), s[|s| - 1]);
    }
  }

  /** The result is a permutation of the input. */
  lemma {:induction false} SortByCountPermutes(s: seq<Entry>)
    ensures multiset(SortByCount(s)) == multiset(s)
    ensures |SortByCount(s)| == |s|
    decreases |s|
  {
    if s != [] {
      var init := s[..|s| - 1];
      SortByCountPermutes(init);
      InsertAdds(SortByCount(init), s[|s| - 1]);
      assert s == init + [s[|s| - 1]];
    }
  }

  /** The sort is stable: entries of equal count keep their relative order. */
  lemma {:induction false} SortByCountStable(s: seq<Entry>, c: nat)
    ensures WithCount(SortByCount(s), c) == WithCount(s, c)
    decreases |s|
  {
    if s != [] {
      var init := s[..|s| - 1];
      var x := s[|s| - 1];
      SortByCountStable(init, c);
      SortByCountSorted(init);
      InsertStable(SortByCount(init), x, c);
      WithCountLast(s, c);
    }
  }

  /** The last entry of `s` is kept last. */
  lemma WithCountLast(s: seq<Entry>, c: nat)
    requires s != []
    ensures WithCount(s, c) == WithCount(s[..|s| - 1], c) + (if s[|s| - 1].count == c then [s[|s| - 1]] else [])
  {
    var x := s[|s| - 1];
    assert s == s[..|s| - 1] + [x];
    WithCountAppend(s[..|s| - 1], [x], c);
    assert [x][1..] == [];
  }

  lemma {:induction false} WithCountAppend(a: seq<Entry>, b: seq<Entry>, c: nat)
    ensures WithCount(a + b, c) == WithCount(a, c) + WithCount(b, c)
  {
    if a != [] {
      WithCountAppend(a[1..], b, c);
      var head := if a[0].count == c then [a[0]] else [];
      assert (a + b)[0] == a[0];
      assert (a + b)[1..] == a[1..] + b;
      assert WithCount(a + b, c) == head + (WithCount(a[1..], c) + WithCount(b, c));
      assert head + (WithCount(a[1..], c) + WithCount(b, c)) == (head + WithCount(a[1..], c)) + WithCount(b, c);
    } else {
      assert a + b == b;
    }
  }

  /**
   * Sortedness and stability pin the result down: two sorted sequences that
   * agree on the entries of every count are equal, so `SortByCount` is the
   * only ordering a stable descending sort can produce.
   */
  lemma {:induction false} StableSortUnique(s: seq<Entry>, t: seq<Entry>)
    requires SortedByCount(s) && SortedByCount(t)
    requires forall c: nat :: WithCount(s, c) == WithCount(t, c)
    ensures s == t
  {
    if s == [] && t == [] {
    } else if s == [] {
      WithCountMembers(t, t[0].count);
    } else if t == [] {
      WithCountMembers(s, s[0].count);
    } else {
      HeadsAgree(s, t);
      TailsAgree(s, t);
      StableSortUnique(s[1..], t[1..]);
      assert s == [s[0]] + s[1..];
      assert t == [t[0]] + t[1..];
    }
  }

  /** Two such sequences start with the same entry: the first of the largest count. */
  lemma HeadsAgree(s: seq<Entry>, t: seq<Entry>)
    requires s != [] && t != []
    requires SortedByCount(s) && SortedByCount(t)
    requires forall c: nat :: WithCount(s, c) == WithCount(t, c)
    ensures s[0] == t[0]
  {
    var m := s[0].count;
    var n := t[0].count;
    WithCountMembers(s, m);
    WithCountMembers(t, m);
    WithCountMembers(s, n);
    WithCountMembers(t, n);
    assert s[0] in WithCount(t, m);
    assert t[0] in WithCount(s, n);
    assert m == n by {
      var i :| 0 <= i < |t| && t[i] == s[0];
      var j :| 0 <= j < |s| && s[j] == t[0];
      assert n >= m;
      assert m >= n;
    }
    assert s[0] == WithCount(s, m)[0];
    assert t[0] == WithCount(t, m)[0];
  }

  /** With equal heads, the tails also agree on the entries of every count. */
  lemma TailsAgree(s: seq<Entry>, t: seq<Entry>)
    requires s != [] && t != [] && s[0] == t[0]
    requires forall c: nat :: WithCount(s, c) == WithCount(t, c)
    ensures forall c: nat :: WithCount(s[1..], c) == WithCount(t[1..], c)
  {
    forall c: nat ensures WithCount(s[1..], c) == WithCount(t[1..], c) {
      var head := if s[0].count == c then [s[0]] else [];
      assert WithCount(s, c) == head + WithCount(s[1..], c);
      assert WithCount(t, c) == head + WithCount(t[1..], c);
      assert WithCount(s[1..], c) == WithCount(s, c)[|head|..];
      assert WithCount(t[1..], c) == WithCount(t, c)[|head|..];
    }
  }

  /**
   * Any ordering of `s` that is sorted by count and keeps ties in their order
   * in `s` is `SortByCount(s)`.
   */
  lemma SortByCountIsTheStableSort(s: seq<Entry>, t: seq<Entry>)
    requires SortedByCount(t)
    requires forall c: nat :: WithCount(t, c) == WithCount(s, c)
    ensures t == SortByCount(s)
  {
    SortByCountSorted(s);
    forall c: nat ensures WithCount(SortByCount(s), c) == WithCount(t, c) {
      SortByCountStable(s, c);
    }
    StableSortUnique(SortByCount(s), t);
  }

  /** `Math.min(3, n)`, the length `slice(0, 3)` keeps. */
  function TopLength(n: nat): nat {
    if n < 3 then n else 3
  }

  /** The three entries with the largest counts, ties in insertion order. */
  function TopThree(details: seq<Entry>): (r: seq<Entry>)
    ensures |r| == TopLength(|details|)
  {
    SortByCountPermutes(details);
    SortByCount(details)[..TopLength(|details|)]
  }

  /** The chosen entries are listed largest count first. */
  lemma TopThreeSorted(details: seq<Entry>)
    ensures SortedByCount(TopThree(details))
  {
    var s := SortByCount(details);
    var r := TopThree(details);
    SortByCountSorted(details);
    SortByCountPermutes(details);
    forall i, j | 0 <= i < j < |r| ensures r[i].count >= r[j].count {
      assert r[i] == s[i] && r[j] == s[j];
    }
  }

  /**
   * `TopThree` keeps the largest counts: the chosen entries come from
   * `details`, and no entry left out has a larger count than an entry chosen.
   */
  lemma TopThreeLargest(details: seq<Entry>)
    ensures multiset(TopThree(details)) <= multiset(details)
    ensures forall x, y :: x in multiset(details) - multiset(TopThree(details)) && y in TopThree(details) ==>
      x.count <= y.count
  {
    var s := SortByCount(details);
    SortByCountPermutes(details);
    SortByCountSorted(details);
    SortedSplit(s, TopLength(|details|));
    assert TopThree(details) == s[..TopLength(|details|)];
  }

  /**
   * In a sorted sequence, nothing behind position `k` outranks anything
   * before it.
   */
  lemma SortedSplit(s: seq<Entry>, k: nat)
    requires SortedByCount(s) && k <= |s|
    ensures multiset(s[..k]) <= multiset(s)
    ensures forall x, y :: x in multiset(s) - multiset(s[..k]) && y in s[..k] ==> x.count <= y.count
  {
    MultisetSplit(s, k);
    forall x, y | x in multiset(s[k..]) && y in s[..k] ensures x.count <= y.count {
      var i :| 0 <= i < |s[k..]| && s[k..][i] == x;
      var j :| 0 <= j < k && s[..k][j] == y;
      assert s[k + i] == x && s[j] == y;
    }
  }

  /** Removing a prefix's elements from a sequence leaves the rest's. */
  lemma MultisetSplit(s: seq<Entry>, k: nat)
    requires k <= |s|
    ensures multiset(s[..k]) <= multiset(s)
    ensures multiset(s) - multiset(s[..k]) == multiset(s[k..])
  {
    assert s == s[..k] + s[k..];
  }

  /** Among entries of equal count, `TopThree` keeps the earliest inserted ones. */
  lemma TopThreeTies(details: seq<Entry>, c: nat)
    ensures WithCount(TopThree(details), c) <= WithCount(details, c)
  {
    var s := SortByCount(details);
    var k := TopLength(|details|);
    SortByCountPermutes(details);
    SortByCountStable(details, c);
    assert s == s[..k] + s[k..];
    WithCountAppend(s[..k], s[k..], c);
  }
}
