/**
 * Go's string order and what its sort package promises. A valid UTF-8 string
 * compares byte by byte exactly as its code points compare, so the order is
 * stated on characters.
 */
module Ordering {
  import opened Wrappers

  // Go's `a < b` on strings.
  predicate StringLess(a: string, b: string)
    decreases |a|
  {
    if b == "" then false
    else if a == "" then true
    else a[0] < b[0] || (a[0] == b[0] && StringLess(a[1..], b[1..]))
  }

  lemma {:induction false} StringLessTransitive(a: string, b: string, c: string)
    requires StringLess(a, b) && StringLess(b, c)
    ensures StringLess(a, c)
    decreases |a|
  {
    if a != "" && a[0] == b[0] && b[0] == c[0] {
      StringLessTransitive(a[1..], b[1..], c[1..]);
    }
  }

  lemma {:induction false} StringLessTotal(a: string, b: string)
    ensures StringLess(a, b) || a == b || StringLess(b, a)
    decreases |a|
  {
    if a != "" && b != "" && a[0] == b[0] {
      StringLessTotal(a[1..], b[1..]);
      assert a == [a[0]] + a[1..] && b == [b[0]] + b[1..];
    }
  }

  lemma {:induction false} StringLessAsymmetric(a: string, b: string)
    requires StringLess(a, b)
    ensures a != b && !StringLess(b, a)
    decreases |a|
  {
    if a != "" && a[0] == b[0] {
      StringLessAsymmetric(a[1..], b[1..]);
    }
  }

  // One string is below another when it runs out first or the first character
  // they differ in is smaller.
  lemma {:induction false} StringLessExactlyWhen(a: string, b: string)
    ensures StringLess(a, b) <==>
      || (|a| < |b| && a == b[..|a|])
      || (exists i :: 0 <= i < |a| && i < |b| && a[..i] == b[..i] && a[i] < b[i])
    decreases |a|
  {
    if a != "" && b != "" {
      if a[0] < b[0] {
        assert a[..0] == b[..0];
      } else if a[0] == b[0] {
        StringLessExactlyWhen(a[1..], b[1..]);
        SplitOffHead(a, b);
        if i :| 0 <= i < |a| - 1 && i < |b| - 1 && a[1..][..i] == b[1..][..i] && a[1..][i] < b[1..][i] {
          assert a[..i + 1] == [a[0]] + a[1..][..i] && b[..i + 1] == [b[0]] + b[1..][..i];
          assert a[i + 1] < b[i + 1];
        }
      } else {
        assert forall i | 0 < i < |a| && i < |b| :: a[..i][0] != b[..i][0];
      }
    }
  }

  // Two sequences with one head agree as far as their tails do.
  lemma SplitOffHead<T>(a: seq<T>, b: seq<T>)
    requires a != [] && b != [] && a[0] == b[0]
    ensures |a| <= |b| ==> (a == b[..|a|] <==> a[1..] == b[1..][..|a| - 1])
    ensures forall i | 0 < i <= |a| && i <= |b| && a[..i] == b[..i] :: a[1..][..i - 1] == b[1..][..i - 1]
  {
    if |a| <= |b| {
      assert a == [a[0]] + a[1..] && b[..|a|] == [b[0]] + b[1..][..|a| - 1];
      if a == b[..|a|] { assert a[1..] == b[..|a|][1..]; }
    }
    forall i | 0 < i <= |a| && i <= |b| && a[..i] == b[..i] ensures a[1..][..i - 1] == b[1..][..i - 1] {
      assert a[1..][..i - 1] == a[..i][1..] && b[1..][..i - 1] == b[..i][1..];
    }
  }

  // What sort.Slice needs of the function it is handed.
  ghost predicate StrictWeakOrder<T(!new)>(less: (T, T) -> bool) {
    && (forall x, y :: less(x, y) ==> !less(y, x))
    && (forall x, y, z :: less(x, y) && less(y, z) ==> less(x, z))
    && (forall x, y, z :: !less(x, y) && !less(y, z) ==> !less(x, z))
  }

  // Nothing later comes strictly before anything earlier.
  ghost predicate SortedBy<T>(less: (T, T) -> bool, s: seq<T>) {
    forall i, j | 0 <= i < j < |s| :: !less(s[j], s[i])
  }

  // What sort.Slice promises: some sorted rearrangement. It is not stable, so
  // nothing is said about the order of elements that compare equal.
  method Sort<T(!new)>(less: (T, T) -> bool, s: seq<T>) returns (r: seq<T>)
    requires StrictWeakOrder(less)
    ensures multiset(r) == multiset(s) && |r| == |s|
    ensures SortedBy(less, r)
  {
    r := [];
    for i := 0 to |s|
      invariant |r| == i && multiset(r) == multiset(s[..i])
      invariant SortedBy(less, r)
    {
      var at := 0;
      while at < |r| && !less(s[i], r[at])
        invariant 0 <= at <= |r|
        invariant forall k | 0 <= k < at :: !less(s[i], r[k])
      {
        at := at + 1;
      }
      assert s[..i + 1] == s[..i] + [s[i]];
      assert r == r[..at] + r[at..];
      InsertKeepsSorted(less, r, at, s[i]);
      r := r[..at] + [s[i]] + r[at..];
    }
    assert s[..|s|] == s;
  }

  lemma InsertKeepsSorted<T(!new)>(less: (T, T) -> bool, r: seq<T>, at: nat, x: T)
    requires StrictWeakOrder(less) && SortedBy(less, r)
    requires at <= |r| && (forall k | 0 <= k < at :: !less(x, r[k]))
    requires at < |r| ==> less(x, r[at])
    ensures SortedBy(less, r[..at] + [x] + r[at..])
  {
    forall k | at <= k < |r| ensures !less(r[k], x) {
      if k > at {
        assert !less(r[k], r[at]) && !less(r[at], x);
      }
    }
  }

  ghost predicate TiesAreEqual<T>(less: (T, T) -> bool, s: seq<T>) {
    forall i, j | 0 <= i < |s| && 0 <= j < |s| && !less(s[i], s[j]) && !less(s[j], s[i]) :: s[i] == s[j]
  }

  // A sorted rearrangement is unique when ties are equal: whatever order the
  // elements arrived in, and whichever way an unstable sort broke ties.
  lemma {:induction false} SortedIsUnique<T>(less: (T, T) -> bool, a: seq<T>, b: seq<T>)
    requires SortedBy(less, a) && SortedBy(less, b) && TiesAreEqual(less, a)
    requires multiset(a) == multiset(b)
    ensures a == b
    decreases |a|
  {
    assert |multiset(a)| == |a| && |multiset(b)| == |b|;
    if a == [] {
    } else {
      SortedHead(less, a, b);
      DropHead(less, a);
      DropHead(less, b);
      SortedIsUnique(less, a[1..], b[1..]);
      assert a == [a[0]] + a[1..] && b == [b[0]] + b[1..];
    }
  }

  lemma DropHead<T>(less: (T, T) -> bool, s: seq<T>)
    requires s != [] && SortedBy(less, s)
    ensures SortedBy(less, s[1..]) && multiset(s[1..]) == multiset(s) - multiset{s[0]}
    ensures TiesAreEqual(less, s) ==> TiesAreEqual(less, s[1..])
  {
    assert s == [s[0]] + s[1..];
  }

  lemma SortedHead<T>(less: (T, T) -> bool, a: seq<T>, b: seq<T>)
    requires SortedBy(less, a) && SortedBy(less, b) && TiesAreEqual(less, a)
    requires multiset(a) == multiset(b) && |a| == |b| > 0
    ensures a[0] == b[0]
  {
    assert a[0] in multiset(b) && b[0] in multiset(a);
    var i :| 0 <= i < |b| && b[i] == a[0];
    var j :| 0 <= j < |a| && a[j] == b[0];
    if i > 0 && j > 0 {
      assert !less(b[i], b[0]) && !less(a[j], a[0]);
    }
  }

  // sort.Strings over the names of a set.
  method SortedNames(names: set<string>) returns (r: seq<string>)
    ensures r == InOrder(names)
    ensures multiset(r) == multiset(names)
    ensures forall i, j | 0 <= i < j < |r| :: StringLess(r[i], r[j])
  {
    var listed: seq<string> := [];
    var todo := names;
    while todo != {}
      invariant todo <= names
      invariant multiset(listed) == multiset(names - todo)
    {
      var name :| name in todo; // Go ranges over a map in no fixed order
      assert names - (todo - {name}) == (names - todo) + {name};
      listed := listed + [name];
      todo := todo - {name};
    }
    assert names - todo == names;
    r := SortStrings(listed);
    InOrderIsTheOne(names, r);
    forall i, j | 0 <= i < j < |r| ensures StringLess(r[i], r[j]) {
      assert r[i] != r[j] by {
        if r[i] == r[j] { DistinctPositions(r, i, j); }
      }
      StringLessTotal(r[i], r[j]);
    }
  }

  lemma DistinctPositions<T>(s: seq<T>, i: nat, j: nat)
    requires i < j < |s| && s[i] == s[j]
    ensures multiset(s)[s[i]] >= 2
  {
    assert s == s[..j] + [s[j]] + s[j + 1..];
    assert s[i] in s[..j];
    assert multiset(s)[s[i]] == multiset(s[..j])[s[i]] + 1 + multiset(s[j + 1..])[s[i]];
  }

  // A sequence of the elements of a set, no longer than the set, lists each once.
  lemma {:induction false} DistinctWhenFewer<T>(s: seq<T>, all: set<T>)
    requires (forall x :: x in s <==> x in all) && |s| == |all|
    ensures multiset(s) == multiset(all)
    decreases |s|
  {
    if s != [] {
      var x, rest := s[0], s[1..];
      assert s == [x] + rest;
      if x in rest {
        ElementsFit(rest, all);
      } else {
        DistinctWhenFewer(rest, all - {x});
        assert all == (all - {x}) + {x};
      }
    }
  }

  lemma {:induction false} ElementsFit<T>(s: seq<T>, all: set<T>)
    requires forall x | x in all :: x in s
    ensures |all| <= |s|
    decreases |s|
  {
    if s == [] {
      assert all == {};
    } else {
      assert s == [s[0]] + s[1..];
      ElementsFit(s[1..], all - {s[0]});
    }
  }

  // sort.Strings.
  method SortStrings(s: seq<string>) returns (r: seq<string>)
    ensures multiset(r) == multiset(s) && |r| == |s|
    ensures SortedBy(StringLess, r)
  {
    StringOrderIsStrictWeak();
    r := Sort(StringLess, s);
  }

  lemma StringOrderIsStrictWeak()
    ensures StrictWeakOrder(StringLess)
  {
    forall x, y | StringLess(x, y) ensures !StringLess(y, x) { StringLessAsymmetric(x, y); }
    forall x, y, z | StringLess(x, y) && StringLess(y, z) ensures StringLess(x, z) {
      StringLessTransitive(x, y, z);
    }
    forall x, y, z | !StringLess(x, y) && !StringLess(y, z) ensures !StringLess(x, z) {
      if StringLess(x, z) {
        StringLessTotal(x, y);
        StringLessTotal(y, z);
        if StringLess(y, x) { StringLessTransitive(y, x, z); }
        if StringLess(z, y) { StringLessTransitive(x, z, y); StringLessAsymmetric(x, y); }
        StringLessAsymmetric(x, z);
      }
    }
  }

  // -------------------------------------------------- rearranging and mapping

  lemma Associate<T>(a: seq<T>, b: seq<T>, c: seq<T>)
    ensures (a + b) + c == a + (b + c)
  {
  }

  function Map<A, B>(f: A -> B, s: seq<A>): (r: seq<B>)
    ensures |r| == |s|
    ensures forall i | 0 <= i < |s| :: r[i] == f(s[i])
  {
    if s == [] then [] else [f(s[0])] + Map(f, s[1..])
  }

  lemma {:induction false} MapSnoc<A, B>(f: A -> B, s: seq<A>, x: A)
    ensures Map(f, s + [x]) == Map(f, s) + [f(x)]
  {
    assert |Map(f, s + [x])| == |s| + 1;
  }

  lemma MapConcat<A, B>(f: A -> B, s: seq<A>, t: seq<A>)
    ensures Map(f, s + t) == Map(f, s) + Map(f, t)
  {
    forall i | 0 <= i < |s + t| ensures Map(f, s + t)[i] == (Map(f, s) + Map(f, t))[i] {}
  }

  // Mapping a rearrangement rearranges what is mapped.
  lemma {:induction false} MapPermutes<A, B>(f: A -> B, a: seq<A>, b: seq<A>)
    requires multiset(a) == multiset(b)
    ensures multiset(Map(f, a)) == multiset(Map(f, b))
    decreases |a|
  {
    assert |multiset(a)| == |a| && |multiset(b)| == |b|;
    if a != [] {
      var p, q := SplitAtHead(a, b);
      MapPermutes(f, a[1..], p + q);
      MapConcat(f, p, q);
      MapConcat(f, p, [a[0]]);
      MapConcat(f, p + [a[0]], q);
    }
  }

  lemma SplitAtHead<T>(a: seq<T>, b: seq<T>) returns (p: seq<T>, q: seq<T>)
    requires a != [] && multiset(a) == multiset(b)
    ensures b == p + [a[0]] + q && multiset(a[1..]) == multiset(p + q)
  {
    assert a[0] in multiset(b);
    var i :| 0 <= i < |b| && b[i] == a[0];
    p, q := b[..i], b[i + 1..];
    assert b == p + [a[0]] + q;
    assert multiset(a[1..]) == multiset(a) - multiset{a[0]} by {
      assert a == [a[0]] + a[1..];
    }
    assert multiset(p + q) == multiset(b) - multiset{a[0]} by {
      assert multiset(b) == multiset(p) + multiset{a[0]} + multiset(q);
    }
  }

  // ------------------------------------------------------- stable sorting

  // Before everything that is not smaller, so ahead of what ties with it.
  function InsertBy<T>(less: (T, T) -> bool, x: T, s: seq<T>): (r: seq<T>)
    ensures multiset(r) == multiset(s) + multiset{x}
  {
    if s == [] || !less(s[0], x) then [x] + s
    else
      assert s == [s[0]] + s[1..];
      [s[0]] + InsertBy(less, x, s[1..])
  }

  // A sorted rearrangement in which ties stay in the order they came in.
  function Arranged<T>(less: (T, T) -> bool, s: seq<T>): (r: seq<T>)
    ensures multiset(r) == multiset(s)
  {
    if s == [] then []
    else
      assert s == [s[0]] + s[1..];
      InsertBy(less, s[0], Arranged(less, s[1..]))
  }

  lemma {:induction false} InsertSorts<T(!new)>(less: (T, T) -> bool, x: T, s: seq<T>)
    requires StrictWeakOrder(less) && SortedBy(less, s)
    ensures SortedBy(less, InsertBy(less, x, s))
    decreases |s|
  {
    if s == [] || !less(s[0], x) {
      var r := [x] + s;
      forall i, j | 0 <= i < j < |r| ensures !less(r[j], r[i]) {
        if i == 0 && j > 1 { assert !less(s[j - 1], s[0]); }
      }
    } else {
      InsertSorts(less, x, s[1..]);
      var tail := InsertBy(less, x, s[1..]);
      forall j | 0 <= j < |tail| ensures !less(tail[j], s[0]) {
        assert tail[j] in multiset(tail);
        if tail[j] != x {
          assert tail[j] in multiset(s[1..]);
          var k :| 0 <= k < |s[1..]| && s[1..][k] == tail[j];
          assert s[k + 1] == tail[j];
        }
      }
    }
  }

  lemma {:induction false} ArrangedIsSorted<T(!new)>(less: (T, T) -> bool, s: seq<T>)
    requires StrictWeakOrder(less)
    ensures SortedBy(less, Arranged(less, s))
    decreases |s|
  {
    if s != [] {
      ArrangedIsSorted(less, s[1..]);
      InsertSorts(less, s[0], Arranged(less, s[1..]));
    }
  }

  lemma ArrangedMembers<T>(less: (T, T) -> bool, s: seq<T>)
    ensures |Arranged(less, s)| == |s|
    ensures forall x :: x in Arranged(less, s) <==> x in s
  {
    var r := Arranged(less, s);
    assert |multiset(r)| == |r| && |multiset(s)| == |s|;
    forall x ensures x in r <==> x in s {
      assert x in r <==> x in multiset(r);
      assert x in s <==> x in multiset(s);
    }
  }

  // The first element that ties with another.
  function FirstTied<T>(less: (T, T) -> bool, s: seq<T>, x: T): Option<T> {
    if s == [] then None
    else if !less(s[0], x) && !less(x, s[0]) then Some(s[0])
    else FirstTied(less, s[1..], x)
  }

  lemma {:induction false} InsertedIsFirstTied<T(!new)>(less: (T, T) -> bool, x: T, s: seq<T>)
    requires StrictWeakOrder(less)
    ensures FirstTied(less, InsertBy(less, x, s), x) == Some(x)
    decreases |s|
  {
    assert !less(x, x);
    if s != [] && less(s[0], x) { InsertedIsFirstTied(less, x, s[1..]); }
  }

  // Whatever order the elements come in they are arranged alike, exactly when
  // those that tie are equal.
  lemma ArrangedAlikeExactlyWhen<T(!new)>(less: (T, T) -> bool, s: seq<T>)
    requires StrictWeakOrder(less)
    ensures (forall t | multiset(t) == multiset(s) :: Arranged(less, t) == Arranged(less, s)) <==> TiesAreEqual(less, s)
  {
    if TiesAreEqual(less, s) {
      forall t | multiset(t) == multiset(s) ensures Arranged(less, t) == Arranged(less, s) {
        ArrangedIsSorted(less, s);
        ArrangedIsSorted(less, t);
        ArrangedMembers(less, s);
        TiesAmong(less, s, Arranged(less, s));
        SortedIsUnique(less, Arranged(less, s), Arranged(less, t));
      }
    } else {
      var i, j :| 0 <= i < |s| && 0 <= j < |s| && !less(s[i], s[j]) && !less(s[j], s[i]) && s[i] != s[j];
      var t, u := PutFirst(s, i), PutFirst(s, j);
      InsertedIsFirstTied(less, s[i], Arranged(less, t[1..]));
      InsertedIsFirstTied(less, s[j], Arranged(less, u[1..]));
      TiedAlike(less, Arranged(less, t), s[i], s[j]);
      assert Arranged(less, t) != Arranged(less, u);
    }
  }

  lemma TiesAmong<T>(less: (T, T) -> bool, s: seq<T>, t: seq<T>)
    requires TiesAreEqual(less, s) && forall x | x in t :: x in s
    ensures TiesAreEqual(less, t)
  {
    forall i, j | 0 <= i < |t| && 0 <= j < |t| && !less(t[i], t[j]) && !less(t[j], t[i]) ensures t[i] == t[j] {
      assert t[i] in s && t[j] in s;
      var k, l :| 0 <= k < |s| && s[k] == t[i] && 0 <= l < |s| && s[l] == t[j];
    }
  }

  function PutFirst<T>(s: seq<T>, i: nat): (r: seq<T>)
    requires i < |s|
    ensures multiset(r) == multiset(s) && r != [] && r[0] == s[i]
  {
    assert s == s[..i] + [s[i]] + s[i + 1..];
    [s[i]] + s[..i] + s[i + 1..]
  }

  lemma {:induction false} TiedAlike<T(!new)>(less: (T, T) -> bool, s: seq<T>, x: T, y: T)
    requires StrictWeakOrder(less) && !less(x, y) && !less(y, x)
    ensures FirstTied(less, s, x) == FirstTied(less, s, y)
    decreases |s|
  {
    if s != [] { TiedAlike(less, s[1..], x, y); }
  }

  // ------------------------------------------------------ names of a set

  // The names of a set in sorted order.
  ghost function InOrder(names: set<string>): (r: seq<string>)
    ensures multiset(r) == multiset(names)
  {
    if names == {} then []
    else
      var x :| x in names;
      assert names == (names - {x}) + {x};
      InsertBy(StringLess, x, InOrder(names - {x}))
  }

  lemma {:induction false} InOrderSorts(names: set<string>)
    ensures SortedBy(StringLess, InOrder(names))
    decreases |names|
  {
    StringOrderIsStrictWeak();
    if names != {} {
      var x :| x in names && InOrder(names) == InsertBy(StringLess, x, InOrder(names - {x}));
      InOrderSorts(names - {x});
      InsertSorts(StringLess, x, InOrder(names - {x}));
    }
  }

  lemma InOrderIsTheOne(names: set<string>, r: seq<string>)
    requires multiset(r) == multiset(names) && SortedBy(StringLess, r)
    ensures r == InOrder(names)
  {
    InOrderSorts(names);
    forall i, j | 0 <= i < |r| && 0 <= j < |r| && !StringLess(r[i], r[j]) && !StringLess(r[j], r[i])
      ensures r[i] == r[j]
    {
      StringLessTotal(r[i], r[j]);
    }
    SortedIsUnique(StringLess, r, InOrder(names));
  }

  ghost predicate Increasing(r: seq<string>) {
    forall i, j | 0 <= i < j < |r| :: StringLess(r[i], r[j])
  }

  // They are the one strictly increasing list of its members.
  lemma InOrderExactlyWhen(names: set<string>, r: seq<string>)
    ensures r == InOrder(names) <==>
      (forall name :: name in r <==> name in names) && Increasing(r)
  {
    if r == InOrder(names) {
      InOrderSorts(names);
      forall name ensures name in r <==> name in names { assert name in r <==> name in multiset(r); }
      forall i, j | 0 <= i < j < |r| ensures StringLess(r[i], r[j]) {
        if r[i] == r[j] { DistinctPositions(r, i, j); }
        StringLessTotal(r[i], r[j]);
      }
    }
    if (forall name :: name in r <==> name in names) && Increasing(r) {
      IncreasingListsEach(names, r);
      forall i, j | 0 <= i < j < |r| ensures !StringLess(r[j], r[i]) { StringLessAsymmetric(r[i], r[j]); }
      InOrderIsTheOne(names, r);
    }
  }

  lemma {:induction false} IncreasingListsEach(names: set<string>, r: seq<string>)
    requires forall name :: name in r <==> name in names
    requires Increasing(r)
    ensures multiset(r) == multiset(names)
    decreases |r|
  {
    if r != [] {
      var x, rest := r[0], r[1..];
      assert r == [x] + rest;
      if x in rest {
        var j :| 0 <= j < |rest| && rest[j] == x;
        assert r[j + 1] == x;
        StringLessAsymmetric(r[0], r[j + 1]);
        assert false;
      }
      IncreasingListsEach(names - {x}, rest);
      assert names == (names - {x}) + {x};
    }
  }

  // -------------------------------------------------------- missing values

  // The values, in order and as often as listed, that another list lacks.
  function Missing(values: seq<string>, still: seq<string>): seq<string> {
    if values == [] then []
    else (if values[0] in still then [] else [values[0]]) + Missing(values[1..], still)
  }

  lemma {:induction false} MissingAppend(values: seq<string>, last: string, still: seq<string>)
    ensures Missing(values + [last], still) ==
      Missing(values, still) + (if last in still then [] else [last])
    decreases |values|
  {
    if values == [] {
      assert values + [last] == [last];
    } else {
      assert (values + [last])[1..] == values[1..] + [last];
      MissingAppend(values[1..], last, still);
    }
  }

  lemma {:induction false} MissingMember(values: seq<string>, still: seq<string>, v: string)
    ensures v in Missing(values, still) <==> v in values && v !in still
    decreases |values|
  {
    if values != [] { MissingMember(values[1..], still, v); }
  }

  // No finite set holds every name.
  lemma {:induction false} FreshName(names: set<string>) returns (name: string)
    ensures name !in names && name != "" && forall n | n in names :: |n| < |name|
    decreases names
  {
    name := "s";
    if n :| n in names {
      var other := FreshName(names - {n});
      name := other + n + "s";
    }
  }
}
