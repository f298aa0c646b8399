/** The order `Array.prototype.sort` puts strings in when no comparator is
    given (lexicographic, character by character), with the list operations
    the normaliser chains after `map`: first-occurrence de-duplication and
    sorting. */
module Ordering {

  /** `a` sorts strictly before `b`: a proper prefix comes first, otherwise
      the first differing character decides. */
  predicate Less(a: string, b: string)
    ensures a < b ==> Less(a, b)
  {
    if |b| == 0 then false
    else if |a| == 0 then true
    else if a[0] != b[0] then a[0] < b[0]
    else Less(a[1..], b[1..])
  }

  lemma {:induction false} LessIrreflexive(a: string)
    ensures !Less(a, a)
  {
    if |a| > 0 {
      LessIrreflexive(a[1..]);
    }
  }

  lemma {:induction false} LessTransitive(a: string, b: string, c: string)
    requires Less(a, b) && Less(b, c)
    ensures Less(a, c)
  {
    if |a| > 0 && a[0] == b[0] && b[0] == c[0] {
      LessTransitive(a[1..], b[1..], c[1..]);
    }
  }

  /** Any two different strings are ordered one way or the other. */
  lemma {:induction false} LessTotal(a: string, b: string)
    requires a != b
    ensures Less(a, b) || Less(b, a)
  {
    if |a| > 0 && |b| > 0 && a[0] == b[0] {
      assert a == [a[0]] + a[1..] && b == [b[0]] + b[1..];
      LessTotal(a[1..], b[1..]);
    }
  }

  lemma LessAsymmetric(a: string, b: string)
    requires Less(a, b)
    ensures !Less(b, a)
  {
    if Less(b, a) {
      LessTransitive(a, b, a);
      LessIrreflexive(a);
    }
  }

  /** The set of elements of a list. */
  function Elements(s: seq<string>): set<string> {
    set x | x in s
  }

  lemma ElementsEmpty(s: seq<string>)
    ensures Elements(s) == {} <==> s == []
  {
    if s != [] {
      assert s[0] in Elements(s);
    }
  }

  /** Strictly increasing: sorted and free of duplicates. */
  predicate StrictlySorted(s: seq<string>) {
    forall i, j :: 0 <= i < j < |s| ==> Less(s[i], s[j])
  }

  /** Sorted, duplicates allowed. */
  predicate Sorted(s: seq<string>) {
    forall i, j :: 0 <= i < j < |s| ==> s[i] == s[j] || Less(s[i], s[j])
  }

  predicate Distinct(s: seq<string>) {
    forall i, j :: 0 <= i < j < |s| ==> s[i] != s[j]
  }

  lemma StrictlySortedIsDistinct(s: seq<string>)
    requires StrictlySorted(s)
    ensures Distinct(s) && Sorted(s)
  {
    forall i, j | 0 <= i < j < |s| ensures s[i] != s[j] {
      LessIrreflexive(s[i]);
    }
  }

  /** `xs.filter((v, i, arr) => arr.indexOf(v) === i)`: keeps each element
      at its first occurrence and drops every later copy. */
  function Dedupe(s: seq<string>): (r: seq<string>)
    ensures Distinct(r)
    ensures Elements(r) == Elements(s)
    ensures |r| <= |s|
  {
    if s == [] then []
    else
      var init, last := s[..|s| - 1], s[|s| - 1];
      var r := Dedupe(init);
      assert s == init + [last];
      assert Elements(s) == Elements(init) + {last};
      assert last in Elements(r) <==> last in init;
      if last in init then r else r + [last]
  }

  /** De-duplicating a list without duplicates changes nothing. */
  lemma {:induction false} DedupeDistinct(s: seq<string>)
    requires Distinct(s)
    ensures Dedupe(s) == s
  {
    if s != [] {
      var init := s[..|s| - 1];
      DedupeDistinct(init);
      assert s == init + [s[|s| - 1]];
    }
  }

  /** Places `x` before the first element it does not sort after. */
  function Insert(x: string, s: seq<string>): (r: seq<string>)
    ensures multiset(r) == multiset(s) + multiset{x}
    ensures |r| == |s| + 1
  {
    if s == [] then [x]
    else if x == s[0] || Less(x, s[0]) then [x] + s
    else
      assert s == [s[0]] + s[1..];
      [s[0]] + Insert(x, s[1..])
  }

  /** `xs.sort()` with the default comparison: insertion sort. */
  function Sort(s: seq<string>): (r: seq<string>)
    ensures multiset(r) == multiset(s)
    ensures |r| == |s|
  {
    if s == [] then []
    else
      assert s == [s[0]] + s[1..];
      Insert(s[0], Sort(s[1..]))
  }

  lemma SetOfMultiset(a: seq<string>, b: seq<string>)
    requires multiset(a) == multiset(b)
    ensures Elements(a) == Elements(b)
  {
    forall x ensures x in a <==> x in b {
      assert x in a <==> x in multiset(a);
      assert x in b <==> x in multiset(b);
    }
  }

  lemma {:induction false} InsertSorted(x: string, s: seq<string>)
    requires Sorted(s)
    ensures Sorted(Insert(x, s))
  {
    var r := Insert(x, s);
    if s == [] {
    } else if x == s[0] || Less(x, s[0]) {
      forall i, j | 0 <= i < j < |r| ensures r[i] == r[j] || Less(r[i], r[j]) {
        if i == 0 && j >= 2 && x != s[0] && s[0] != s[j - 1] {
          LessTransitive(x, s[0], s[j - 1]);
        }
      }
    } else {
      LessTotal(x, s[0]);
      var t := Insert(x, s[1..]);
      InsertSorted(x, s[1..]);
      InsertAbove(x, s);
      ConsSorted(s[0], t);
    }
  }

  /** The head of a sorted list that `x` goes after is at most every element
      of the insertion into the tail. */
  lemma InsertAbove(x: string, s: seq<string>)
    requires Sorted(s) && s != [] && Less(s[0], x)
    ensures forall j :: 0 <= j < |Insert(x, s[1..])| ==> s[0] == Insert(x, s[1..])[j] || Less(s[0], Insert(x, s[1..])[j])
  {
    var t := Insert(x, s[1..]);
    forall j | 0 <= j < |t| ensures s[0] == t[j] || Less(s[0], t[j]) {
      assert t[j] in multiset(t);
      if t[j] != x {
        assert t[j] in multiset(s[1..]);
        var m :| 0 <= m < |s[1..]| && s[1..][m] == t[j];
        assert s[m + 1] == t[j];
      }
    }
  }

  /** An element at most every element of a sorted list extends it. */
  lemma ConsSorted(a: string, t: seq<string>)
    requires Sorted(t)
    requires forall j :: 0 <= j < |t| ==> a == t[j] || Less(a, t[j])
    ensures Sorted([a] + t)
  {
    var r := [a] + t;
    forall i, j | 0 <= i < j < |r| ensures r[i] == r[j] || Less(r[i], r[j]) {
      if i > 0 {
        assert r[i] == t[i - 1] && r[j] == t[j - 1];
      } else {
        assert r[j] == t[j - 1];
      }
    }
  }

  /** Sorting yields a sorted permutation of its input. */
  lemma {:induction false} SortSorted(s: seq<string>)
    ensures Sorted(Sort(s))
  {
    if s != [] {
      SortSorted(s[1..]);
      InsertSorted(s[0], Sort(s[1..]));
    }
  }

  /** A sorted list without duplicates is strictly increasing. */
  lemma SortedDistinct(s: seq<string>)
    requires Sorted(s) && Distinct(s)
    ensures StrictlySorted(s)
  {
  }

  lemma {:induction false} DistinctPermutation(a: seq<string>, b: seq<string>)
    requires multiset(a) == multiset(b) && Distinct(a)
    ensures Distinct(b)
  {
    forall i, j | 0 <= i < j < |b| ensures b[i] != b[j] {
      if b[i] == b[j] {
        assert b == b[..i] + [b[i]] + b[i + 1..j] + [b[j]] + b[j + 1..];
        assert multiset(b)[b[i]] >= 2;
        DistinctCount(a, b[i]);
      }
    }
  }

  lemma {:induction false} DistinctCount(a: seq<string>, x: string)
    requires Distinct(a)
    ensures multiset(a)[x] <= 1
  {
    if a != [] {
      DistinctCount(a[1..], x);
      assert a == [a[0]] + a[1..];
      if x == a[0] {
        assert x !in a[1..];
      }
    }
  }

  /** Sorting a list without duplicates makes it strictly increasing. */
  lemma SortDistinctStrictly(s: seq<string>)
    requires Distinct(s)
    ensures StrictlySorted(Sort(s))
  {
    SortSorted(s);
    DistinctPermutation(s, Sort(s));
  }

  /** A strictly increasing list is determined by its set of elements. */
  lemma {:induction false} StrictlySortedUnique(a: seq<string>, b: seq<string>)
    requires StrictlySorted(a) && StrictlySorted(b)
    requires Elements(a) == Elements(b)
    ensures a == b
  {
    assert a != [] ==> a[0] in Elements(a);
    assert b != [] ==> b[0] in Elements(b);
    if a != [] && b != [] {
      assert a[0] in b && b[0] in a;
      if a[0] != b[0] {
        var i :| 0 <= i < |b| && b[i] == a[0];
        var j :| 0 <= j < |a| && a[j] == b[0];
        LessAsymmetric(b[0], a[0]);
        assert false;
      }
      StrictlySortedIsDistinct(a);
      StrictlySortedIsDistinct(b);
      assert Elements(a[1..]) == Elements(a) - {a[0]} by {
        assert a == [a[0]] + a[1..];
      }
      assert Elements(b[1..]) == Elements(b) - {b[0]} by {
        assert b == [b[0]] + b[1..];
      }
      StrictlySortedUnique(a[1..], b[1..]);
      assert a == [a[0]] + a[1..] && b == [b[0]] + b[1..];
    }
  }
}
