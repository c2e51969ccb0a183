/** Sorted listings of finite sets. The indexer hands out every collection in
    sorted order; a strictly sorted listing of a set is unique, which is what
    makes its snapshots and answers independent of hash-map iteration order. */
module Ordering {

  /** `less` orders the elements of `s` strictly and totally. */
  ghost predicate StrictTotalOn<T>(less: (T, T) -> bool, s: set<T>) {
    && (forall x | x in s :: !less(x, x))
    && (forall x, y | x in s && y in s && x != y :: less(x, y) || less(y, x))
    && (forall x, y, z | x in s && y in s && z in s && less(x, y) && less(y, z) :: less(x, z))
  }

  ghost predicate StrictlySorted<T>(xs: seq<T>, less: (T, T) -> bool) {
    forall i, j | 0 <= i < j < |xs| :: less(xs[i], xs[j])
  }

  ghost function Elements<T>(xs: seq<T>): (s: set<T>) {
    set x | x in xs
  }

  lemma ElementsAppend<T>(xs: seq<T>, x: T)
    ensures Elements(xs + [x]) == Elements(xs) + {x}
  {
  }

  // ---- selections ----

  /** `at` lists, in order, the places of exactly the wanted elements; `kept` holds what is there. */
  ghost predicate Selects<T>(all: seq<T>, at: seq<nat>, kept: seq<T>, wanted: T -> bool) {
    && |at| == |kept|
    && (forall k | 0 <= k < |at| :: at[k] < |all| && kept[k] == all[at[k]])
    && (forall k, l | 0 <= k < l < |at| :: at[k] < at[l])
    && (forall i | 0 <= i < |all| :: wanted(all[i]) <==> i in at)
  }

  /** `kept` is exactly the wanted elements of `all`, each as often and in the same order. */
  ghost predicate IsSelection<T>(all: seq<T>, kept: seq<T>, wanted: T -> bool) {
    exists at :: Selects(all, at, kept, wanted)
  }

  lemma SelectionSnoc<T>(all: seq<T>, kept: seq<T>, wanted: T -> bool, x: T)
    requires IsSelection(all, kept, wanted)
    ensures IsSelection(all + [x], if wanted(x) then kept + [x] else kept, wanted)
  {
    var at :| Selects(all, at, kept, wanted);
    if wanted(x) {
      SelectsMore(all, at, kept, wanted, x);
    } else {
      assert Selects(all + [x], at, kept, wanted);
    }
  }

  lemma SelectsMore<T>(all: seq<T>, at: seq<nat>, kept: seq<T>, wanted: T -> bool, x: T)
    requires Selects(all, at, kept, wanted) && wanted(x)
    ensures IsSelection(all + [x], kept + [x], wanted)
  {
    var last: nat := |all|;
    var more: seq<nat> := at + [last];
    assert forall i :: i in more <==> i in at || i == last;
    assert Selects(all + [x], more, kept + [x], wanted);
  }

  lemma SelectionOfNone<T>(wanted: T -> bool)
    ensures IsSelection([], [], wanted)
  {
    assert Selects([], [], [], wanted);
  }

  /** A selection is determined by what is wanted. */
  lemma SelectedIffWanted<T>(all: seq<T>, kept: seq<T>, wanted: T -> bool)
    requires IsSelection(all, kept, wanted)
    ensures forall x :: x in kept <==> x in all && wanted(x)
  {
    var at :| Selects(all, at, kept, wanted);
    forall x | x in all && wanted(x) ensures x in kept {
      var i :| 0 <= i < |all| && all[i] == x;
      var k :| 0 <= k < |at| && at[k] == i;
    }
    forall x | x in kept ensures x in all && wanted(x) {
      var k :| 0 <= k < |kept| && kept[k] == x;
      assert at[k] in at;
    }
  }

  ghost predicate IsLeast<T>(m: T, s: set<T>, less: (T, T) -> bool) {
    m in s && forall x | x in s && x != m :: less(m, x)
  }

  lemma {:induction false} LeastExists<T>(s: set<T>, less: (T, T) -> bool)
    requires s != {} && StrictTotalOn(less, s)
    ensures exists m :: IsLeast(m, s, less)
  {
    var y :| y in s;
    if s == {y} {
      assert IsLeast(y, s, less);
    } else {
      var rest := s - {y};
      LeastExists(rest, less);
      var m :| IsLeast(m, rest, less);
      if less(m, y) {
        assert IsLeast(m, s, less);
      } else {
        assert less(y, m);
        forall x | x in s && x != y ensures less(y, x) {
          assert x in rest;
        }
        assert IsLeast(y, s, less);
      }
    }
  }

  lemma PrependLeast<T>(m: T, rest: seq<T>, s: set<T>, less: (T, T) -> bool)
    requires IsLeast(m, s, less)
    requires Elements(rest) == s - {m} && StrictlySorted(rest, less)
    ensures StrictlySorted([m] + rest, less)
    ensures Elements([m] + rest) == s
  {
    var xs := [m] + rest;
    assert xs[0] == m;
    forall i | 0 <= i < |rest| ensures less(m, rest[i]) {
      assert rest[i] in Elements(rest);
    }
    forall x | x in s ensures x in xs {
      if x != m {
        assert x in Elements(rest);
        var i :| 0 <= i < |rest| && rest[i] == x;
        assert xs[i + 1] == x;
      }
    }
    forall x | x in xs ensures x in s {
      if x != m {
        assert x in rest;
        assert x in Elements(rest);
      }
    }
  }

  /** The strictly sorted listing of a finite set. */
  ghost function Listing<T>(s: set<T>, less: (T, T) -> bool): (xs: seq<T>)
    requires StrictTotalOn(less, s)
    ensures StrictlySorted(xs, less)
    ensures Elements(xs) == s
    ensures |xs| == |s|
    decreases |s|
  {
    if s == {} then []
    else
      LeastExists(s, less);
      var m :| IsLeast(m, s, less);
      var rest := Listing(s - {m}, less);
      PrependLeast(m, rest, s, less);
      [m] + rest
  }

  /** Two strictly sorted listings of the same set are the same sequence. */
  lemma {:induction false} ListingIsUnique<T>(xs: seq<T>, ys: seq<T>, less: (T, T) -> bool)
    requires StrictTotalOn(less, Elements(xs))
    requires StrictlySorted(xs, less) && StrictlySorted(ys, less)
    requires Elements(xs) == Elements(ys)
    ensures xs == ys
    decreases |xs|
  {
    assert ys != [] ==> ys[0] in Elements(ys);
    if xs == [] {
    } else {
      assert xs[0] in Elements(ys);
      var y := ys[0];
      assert y in Elements(xs);
      SortedHead(xs, less);
      SortedHead(ys, less);
      assert xs[0] == y;
      SortedTail(xs, less);
      SortedTail(ys, less);
      ListingIsUnique(xs[1..], ys[1..], less);
      assert xs == [xs[0]] + xs[1..];
      assert ys == [ys[0]] + ys[1..];
    }
  }

  lemma SortedHead<T>(xs: seq<T>, less: (T, T) -> bool)
    requires xs != [] && StrictlySorted(xs, less)
    ensures forall x | x in Elements(xs) :: x == xs[0] || less(xs[0], x)
  {
  }

  lemma SortedTail<T>(xs: seq<T>, less: (T, T) -> bool)
    requires xs != [] && StrictTotalOn(less, Elements(xs)) && StrictlySorted(xs, less)
    ensures StrictlySorted(xs[1..], less)
    ensures Elements(xs[1..]) == Elements(xs) - {xs[0]}
    ensures StrictTotalOn(less, Elements(xs[1..]))
  {
    var tail := xs[1..];
    forall x | x in Elements(xs) && x != xs[0] ensures x in Elements(tail) {
      var i :| 0 <= i < |xs| && xs[i] == x;
      assert tail[i - 1] == x;
    }
    assert xs[0] in Elements(xs);
    forall i | 0 <= i < |tail| ensures tail[i] in Elements(xs) && tail[i] != xs[0] {
      assert tail[i] == xs[i + 1];
      assert xs[i + 1] in Elements(xs);
      assert less(xs[0], xs[i + 1]);
    }
  }

  /** Collect a set into a vector and sort it. */
  method Sort<T(==)>(s: set<T>, less: (T, T) -> bool) returns (xs: seq<T>)
    requires StrictTotalOn(less, s)
    ensures xs == Listing(s, less)
    ensures |xs| == |s| && Elements(xs) == s && StrictlySorted(xs, less)
  {
    xs := [];
    var todo := s;
    while todo != {}
      invariant todo <= s
      invariant Elements(xs) == s - todo
      invariant StrictlySorted(xs, less)
      decreases todo
    {
      var x :| x in todo;
      var i := 0;
      while i < |xs| && less(xs[i], x)
        invariant 0 <= i <= |xs|
        invariant forall j | 0 <= j < i :: less(xs[j], x)
      {
        i := i + 1;
      }
      InsertKeepsSorted(xs, i, x, s, less);
      xs := xs[..i] + [x] + xs[i..];
      todo := todo - {x};
    }
    ListingIsUnique(Listing(s, less), xs, less);
  }

  lemma InsertKeepsSorted<T>(xs: seq<T>, i: nat, x: T, s: set<T>, less: (T, T) -> bool)
    requires StrictTotalOn(less, s) && Elements(xs) <= s && x in s && x !in Elements(xs)
    requires StrictlySorted(xs, less) && i <= |xs|
    requires forall j | 0 <= j < i :: less(xs[j], x)
    requires i < |xs| ==> !less(xs[i], x)
    ensures StrictlySorted(xs[..i] + [x] + xs[i..], less)
    ensures Elements(xs[..i] + [x] + xs[i..]) == Elements(xs) + {x}
  {
    var ys := xs[..i] + [x] + xs[i..];
    forall j | 0 <= j < |xs| ensures xs[j] in s && xs[j] != x {
      assert xs[j] in Elements(xs);
    }
    forall j | i <= j < |xs| ensures less(x, xs[j]) {
      if j > i {
        assert less(xs[i], xs[j]);
      }
    }
    assert forall j | 0 <= j < |ys| :: ys[j] == if j < i then xs[j] else if j == i then x else xs[j - 1];
    forall y | y in Elements(xs) + {x} ensures y in Elements(ys) {
      if y == x {
        assert ys[i] == x;
      } else {
        var j :| 0 <= j < |xs| && xs[j] == y;
        assert ys[if j < i then j else j + 1] == y;
      }
    }
  }

  // ---- the order of strings, code point by code point ----

  predicate StringLess(a: string, b: string) {
    if b == "" then false
    else if a == "" then true
    else a[0] < b[0] || (a[0] == b[0] && StringLess(a[1..], b[1..]))
  }

  /** Dictionary order: a proper prefix comes first, else the first differing character decides. */
  lemma {:induction false} StringLessIsDictionary(a: string, b: string)
    ensures StringLess(a, b) <==>
            a < b || exists k :: 0 <= k < |a| && k < |b| && a[..k] == b[..k] && a[k] < b[k]
  {
    if a != "" && b != "" {
      StringLessIsDictionary(a[1..], b[1..]);
      if a[0] == b[0] {
        if k :| 0 <= k < |a[1..]| && k < |b[1..]| && a[1..][..k] == b[1..][..k] && a[1..][k] < b[1..][k] {
          assert a[..k + 1] == [a[0]] + a[1..][..k] && b[..k + 1] == [b[0]] + b[1..][..k];
          assert a[k + 1] < b[k + 1];
        }
        if k :| 0 <= k < |a| && k < |b| && a[..k] == b[..k] && a[k] < b[k] {
          assert a[1..][..k - 1] == a[..k][1..] && b[1..][..k - 1] == b[..k][1..];
          assert a[1..][k - 1] < b[1..][k - 1];
        }
        assert a < b <==> a[1..] < b[1..];
      } else {
        assert a[..0] == b[..0];
        if k :| 0 <= k < |a| && k < |b| && a[..k] == b[..k] && a[k] < b[k] {
          assert k > 0 ==> a[..k][0] == b[..k][0];
        }
      }
    } else if a == "" && b != "" {
      assert a < b;
    }
  }

  lemma {:induction false} StringLessTransitive(a: string, b: string, c: string)
    requires StringLess(a, b) && StringLess(b, c)
    ensures StringLess(a, c)
  {
    if a != "" && a[0] == b[0] == c[0] {
      StringLessTransitive(a[1..], b[1..], c[1..]);
    }
  }

  lemma {:induction false} StringLessTrichotomy(a: string, b: string)
    ensures !StringLess(a, a)
    ensures StringLess(a, b) || a == b || StringLess(b, a)
    ensures !(StringLess(a, b) && StringLess(b, a))
  {
    if a != "" {
      StringLessTrichotomy(a[1..], a[1..]);
      if b != "" {
        StringLessTrichotomy(a[1..], b[1..]);
        if a[0] == b[0] && a[1..] == b[1..] {
          assert a == [a[0]] + a[1..] == [b[0]] + b[1..] == b;
        }
      }
    }
  }

  /** Strings are strictly totally ordered, so every set of ids has one sorted listing. */
  lemma StringsOrdered(s: set<string>)
    ensures StrictTotalOn(StringLess, s)
  {
    forall x | x in s ensures !StringLess(x, x) { StringLessTrichotomy(x, x); }
    forall x, y | x in s && y in s && x != y ensures StringLess(x, y) || StringLess(y, x) {
      StringLessTrichotomy(x, y);
    }
    forall x, y, z | x in s && y in s && z in s && StringLess(x, y) && StringLess(y, z) ensures StringLess(x, z) {
      StringLessTransitive(x, y, z);
    }
  }

  ghost function SortedIds(s: set<string>): (ids: seq<string>)
    ensures Elements(ids) == s && |ids| == |s| && StrictlySorted(ids, StringLess)
  {
    StringsOrdered(s);
    Listing(s, StringLess)
  }

  lemma SortedSingleton(ids: seq<string>)
    requires |ids| <= 1
    ensures SortedIds(Elements(ids)) == ids
  {
    var listed := SortedIds(Elements(ids));
    StringsOrdered(Elements(ids));
    StringsOrdered(Elements(listed));
    ListingIsUnique(listed, ids, StringLess);
  }
}
