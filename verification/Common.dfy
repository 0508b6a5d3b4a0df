/** Small helpers shared by the modules: an optional value and a stable sort. */
module Common {

  datatype Option<+T> = None | Some(value: T)

  // --- Sequences ---------------------------------------------------------------------

  lemma ConcatTail<T>(a: seq<T>, b: seq<T>)
    requires a != []
    ensures (a + b)[0] == a[0] && (a + b)[1..] == a[1..] + b
  {
  }

  lemma FirstOfThree<T>(a: seq<T>, b: seq<T>, c: seq<T>)
    requires a != []
    ensures a + b + c != [] && (a + b + c)[0] == a[0]
  {
  }

  lemma Assoc<T>(a: seq<T>, b: seq<T>, c: seq<T>)
    ensures a + b + c == a + (b + c)
  {
  }

  lemma SplitLast<T>(xs: seq<T>)
    requires xs != []
    ensures xs == xs[..|xs| - 1] + [xs[|xs| - 1]]
  {
  }

  // --- Sorting -----------------------------------------------------------------------

  /** Inserts `x` after every element whose key is not larger. */
  function InsertBy<T>(key: T -> real, x: T, xs: seq<T>): (r: seq<T>)
    ensures multiset(r) == multiset(xs) + multiset{x}
  {
    if xs == [] || key(xs[|xs| - 1]) <= key(x) then
      xs + [x]
    else
      var front, last := xs[..|xs| - 1], xs[|xs| - 1];
      assert xs == front + [last];
      InsertBy(key, x, front) + [last]
  }

  /** A stable sort by `key`: Python's `sorted(xs, key=...)`. */
  function SortBy<T>(key: T -> real, xs: seq<T>): (r: seq<T>)
    ensures multiset(r) == multiset(xs)
  {
    if xs == [] then []
    else
      assert xs == xs[..|xs| - 1] + [xs[|xs| - 1]];
      InsertBy(key, xs[|xs| - 1], SortBy(key, xs[..|xs| - 1]))
  }

  ghost predicate Ascending<T>(key: T -> real, xs: seq<T>) {
    forall i, j :: 0 <= i < j < |xs| ==> key(xs[i]) <= key(xs[j])
  }

  lemma {:induction false} InsertKeepsAscending<T>(key: T -> real, x: T, xs: seq<T>)
    requires Ascending(key, xs)
    ensures Ascending(key, InsertBy(key, x, xs))
  {
    if xs != [] && key(xs[|xs| - 1]) > key(x) {
      var front, last := xs[..|xs| - 1], xs[|xs| - 1];
      InsertKeepsAscending(key, x, front);
      var r := InsertBy(key, x, front);
      forall i | 0 <= i < |r| ensures key(r[i]) <= key(last) {
        assert r[i] in multiset(r);
        assert r[i] in front || r[i] == x;
      }
    }
  }

  lemma {:induction false} SortByAscends<T>(key: T -> real, xs: seq<T>)
    ensures Ascending(key, SortBy(key, xs))
  {
    if xs != [] {
      SortByAscends(key, xs[..|xs| - 1]);
      InsertKeepsAscending(key, xs[|xs| - 1], SortBy(key, xs[..|xs| - 1]));
    }
  }

  lemma SortByMembers<T>(key: T -> real, xs: seq<T>, x: T)
    ensures x in SortBy(key, xs) <==> x in xs
  {
    assert x in SortBy(key, xs) <==> x in multiset(SortBy(key, xs));
    assert x in xs <==> x in multiset(xs);
  }
}
