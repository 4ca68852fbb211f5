/**
 * The order both compatibility gates print their breaks in: by where, then by
 * reason, so two runs over one pair read the same.
 */
module Reports {
  import Ordering

  // A break as it is printed. Which remedy goes with it is an enumeration, the
  // text of each being fixed.
  datatype Line<A> = Line(where: string, reason: string, remedy: A)

  predicate LineLess<A>(x: Line<A>, y: Line<A>) {
    if x.where != y.where then Ordering.StringLess(x.where, y.where)
    else Ordering.StringLess(x.reason, y.reason)
  }

  // The comparison handed to sort.Slice, for breaks that print with printer.
  function Before<B, A>(printer: B -> Line<A>): (B, B) -> bool {
    (x, y) => LineLess(printer(x), printer(y))
  }

  lemma LineLessTransitive<A>(x: Line<A>, y: Line<A>, z: Line<A>)
    ensures LineLess(x, y) ==> !LineLess(y, x)
    ensures LineLess(x, y) && LineLess(y, z) ==> LineLess(x, z)
    ensures !LineLess(x, y) && !LineLess(y, z) ==> !LineLess(x, z)
  {
    Ordering.StringOrderIsStrictWeak();
    Ordering.StringLessTotal(x.where, y.where);
    Ordering.StringLessTotal(y.where, z.where);
  }

  lemma BeforeIsStrictWeak<B(!new), A>(printer: B -> Line<A>)
    ensures Ordering.StrictWeakOrder(Before(printer))
  {
    forall x, y, z
      ensures Before(printer)(x, y) ==> !Before(printer)(y, x)
      ensures Before(printer)(x, y) && Before(printer)(y, z) ==> Before(printer)(x, z)
      ensures !Before(printer)(x, y) && !Before(printer)(y, z) ==> !Before(printer)(x, z)
    {
      LineLessTransitive(printer(x), printer(y), printer(z));
    }
  }

  // Whatever order the breaks were found in, and however an unstable sort broke
  // ties, what is printed is one fixed sequence, provided where and reason
  // settle the remedy.
  lemma PrintsOneWay<B, A>(printer: B -> Line<A>, first: seq<B>, second: seq<B>)
    requires multiset(first) == multiset(second)
    requires Ordering.SortedBy(Before(printer), first) && Ordering.SortedBy(Before(printer), second)
    requires forall x, y | x in first && y in first
      && printer(x).where == printer(y).where && printer(x).reason == printer(y).reason ::
      printer(x).remedy == printer(y).remedy
    ensures Ordering.Map(printer, first) == Ordering.Map(printer, second)
  {
    var a, b := Ordering.Map(printer, first), Ordering.Map(printer, second);
    Ordering.MapPermutes(printer, first, second);
    forall i, j | 0 <= i < |a| && 0 <= j < |a| && !LineLess(a[i], a[j]) && !LineLess(a[j], a[i])
      ensures a[i] == a[j]
    {
      Ordering.StringLessTotal(a[i].where, a[j].where);
      Ordering.StringLessTotal(a[i].reason, a[j].reason);
      assert first[i] in first && first[j] in first;
    }
    SortedLines(printer, first);
    SortedLines(printer, second);
    Ordering.SortedIsUnique(LineLess, a, b);
  }

  lemma SortedLines<B, A>(printer: B -> Line<A>, s: seq<B>)
    requires Ordering.SortedBy(Before(printer), s)
    ensures Ordering.SortedBy(LineLess, Ordering.Map(printer, s))
  {
    forall i, j | 0 <= i < j < |s| ensures !LineLess(Ordering.Map(printer, s)[j], Ordering.Map(printer, s)[i]) {
      assert !Before(printer)(s[j], s[i]);
    }
  }

  // In order means: by where, and among breaks of one place by reason.
  lemma SortedExactlyWhen<B, A>(printer: B -> Line<A>, s: seq<B>)
    ensures Ordering.SortedBy(Before(printer), s) <==>
      forall i, j | 0 <= i < j < |s| ::
        && !Ordering.StringLess(printer(s[j]).where, printer(s[i]).where)
        && (printer(s[j]).where == printer(s[i]).where ==> !Ordering.StringLess(printer(s[j]).reason, printer(s[i]).reason))
  {
    forall i, j | 0 <= i < j < |s|
      ensures !Before(printer)(s[j], s[i]) <==>
        && !Ordering.StringLess(printer(s[j]).where, printer(s[i]).where)
        && (printer(s[j]).where == printer(s[i]).where ==> !Ordering.StringLess(printer(s[j]).reason, printer(s[i]).reason))
    {
      if printer(s[j]).where == printer(s[i]).where && Ordering.StringLess(printer(s[j]).where, printer(s[i]).where) {
        Ordering.StringLessAsymmetric(printer(s[j]).where, printer(s[i]).where);
      }
    }
  }
}
