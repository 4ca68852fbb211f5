/**
 * What the order of a report stream has to do with the vulnerability gate's
 * decision (tools/vulncheck/main.go): an advisory is decided by the first of its
 * called reports, so the order matters exactly where those differ.
 */
module VulnOrder {
  import opened Wrappers
  import opened Versions
  import opened VulnGate
  import Ordering

  ghost predicate SameReports(a: seq<Finding>, b: seq<Finding>) {
    forall f :: f in a <==> f in b
  }

  // The called reports of one advisory agree on the module and on the fix. Their
  // traces may differ otherwise: there is one report for each call.
  ghost predicate CalledReportsAgree(reports: seq<Finding>) {
    forall f, g | f in reports && g in reports && f.osv == g.osv && f.Called() && g.Called() ::
      f.Module() == g.Module() && f.fixed.precedence == g.fixed.precedence
  }

  // Only on whether the module is the standard library.
  ghost predicate ClassesAgree(reports: seq<Finding>) {
    forall f, g | f in reports && g in reports && f.osv == g.osv && f.Called() && g.Called() ::
      f.Module() == STDLIB <==> g.Module() == STDLIB
  }

  // What a line about a blocking finding says, but for the call it shows.
  predicate SameLine(f: Finding, g: Finding) {
    f.osv == g.osv && f.Module() == g.Module() && f.fixed.precedence == g.fixed.precedence
  }

  // The advisories that block, in the order they are listed.
  function Blocked(out: Outcome): seq<string> {
    Ordering.Map((f: Finding) => f.osv, out.blocking)
  }

  ghost predicate SameClasses(a: Outcome, b: Outcome) {
    Blocked(a) == Blocked(b) && a.toolchain == b.toolchain && a.unreachable == b.unreachable
  }

  ghost predicate SameDecision(a: Outcome, b: Outcome) {
    && SameClasses(a, b) && a.toolchainFix.precedence == b.toolchainFix.precedence
    && forall i | 0 <= i < |a.blocking| && i < |b.blocking| :: SameLine(a.blocking[i], b.blocking[i])
  }

  // ---------------------------------------------------- what agreement gives

  lemma FirstCalledAmong(a: seq<Finding>, b: seq<Finding>, osv: string)
    requires SameReports(a, b)
    ensures FirstCalled(a, osv).Some? <==> FirstCalled(b, osv).Some?
    ensures FirstCalled(a, osv).Some? ==>
      && FirstCalled(a, osv).value in a && FirstCalled(b, osv).value in a
      && FirstCalled(a, osv).value.Called() && FirstCalled(b, osv).value.Called()
      && FirstCalled(a, osv).value.osv == osv == FirstCalled(b, osv).value.osv
  {
    FirstCalledIsCalled(a, osv);
    FirstCalledIsCalled(b, osv);
    if Reachable(a, osv) {
      var f :| f in a && f.osv == osv && f.Called();
      assert f in b;
    }
    if Reachable(b, osv) {
      var f :| f in b && f.osv == osv && f.Called();
      assert f in a;
    }
  }

  lemma SameAdvisories(a: seq<Finding>, b: seq<Finding>)
    requires SameReports(a, b)
    ensures Advisories(a) == Advisories(b) && UnreachableOnes(a) == UnreachableOnes(b)
    ensures ClassesAgree(a) ==> ToolchainOnes(a) == ToolchainOnes(b) && BlockingOnes(a) == BlockingOnes(b)
  {
    forall osv ensures FirstCalled(a, osv).Some? <==> FirstCalled(b, osv).Some? { FirstCalledAmong(a, b, osv); }
    assert Advisories(a) == Advisories(b);
    assert UnreachableOnes(a) == UnreachableOnes(b);
    if ClassesAgree(a) {
      forall osv | osv in Advisories(a) && FirstCalled(a, osv).Some?
        ensures FirstCalled(a, osv).value.Module() == STDLIB <==> FirstCalled(b, osv).value.Module() == STDLIB
      {
        FirstCalledAmong(a, b, osv);
      }
      assert ToolchainOnes(a) == ToolchainOnes(b);
      assert BlockingOnes(a) == BlockingOnes(b);
    }
  }

  // The blocking advisories are listed in the one sorted order.
  lemma BlockedInOrder(reports: seq<Finding>, blocking: seq<Finding>, advisories: set<string>)
    requires Blocks(reports, blocking, advisories) && Ordering.SortedBy(ByAdvisory, blocking)
    ensures Ordering.Map((f: Finding) => f.osv, blocking) == Ordering.InOrder(advisories)
  {
    var names := Ordering.Map((f: Finding) => f.osv, blocking);
    forall osv ensures osv in names <==> osv in advisories {
      if osv in names {
        var i :| 0 <= i < |names| && names[i] == osv;
        assert blocking[i] in blocking;
      }
      if osv in advisories {
        var f :| f in blocking && f.osv == osv;
        var i :| 0 <= i < |blocking| && blocking[i] == f;
        assert names[i] == osv;
      }
    }
    Ordering.DistinctWhenFewer(names, advisories);
    Ordering.InOrderIsTheOne(advisories, names);
  }

  // Equal classes of advisories make equal classes in the outcome, and conversely.
  lemma ClassesShow(a: seq<Finding>, b: seq<Finding>, x: Outcome, y: Outcome)
    requires SameReports(a, b) && Decides(a, x) && Decides(b, y)
    ensures SameClasses(x, y) <==> BlockingOnes(a) == BlockingOnes(b)
  {
    BlockedInOrder(a, x.blocking, BlockingOnes(a));
    BlockedInOrder(b, y.blocking, BlockingOnes(b));
    InOrderTells(BlockingOnes(a), BlockingOnes(b));
    if BlockingOnes(a) == BlockingOnes(b) { SameCounts(a, b); }
  }

  lemma InOrderTells(names: set<string>, others: set<string>)
    ensures Ordering.InOrder(names) == Ordering.InOrder(others) <==> names == others
  {
    if Ordering.InOrder(names) == Ordering.InOrder(others) {
      forall name ensures name in names <==> name in others {
        assert name in names <==> name in multiset(Ordering.InOrder(names));
        assert name in others <==> name in multiset(Ordering.InOrder(others));
      }
    }
  }

  lemma SameCounts(a: seq<Finding>, b: seq<Finding>)
    requires SameReports(a, b) && BlockingOnes(a) == BlockingOnes(b)
    ensures |UnreachableOnes(a)| == |UnreachableOnes(b)| && |ToolchainOnes(a)| == |ToolchainOnes(b)|
  {
    SameAdvisories(a, b);
    ClassSizes(a);
    ClassSizes(b);
  }

  // Whatever is decided about some reports is decided about them in any other
  // order, up to which of an advisory's calls is shown and which of two equal
  // versions.
  lemma OrderDoesNotMatter(a: seq<Finding>, b: seq<Finding>, x: Outcome, y: Outcome)
    requires SameReports(a, b) && CalledReportsAgree(a)
    requires Decides(a, x) && Decides(b, y)
    ensures SameDecision(x, y)
  {
    SameAdvisories(a, b);
    ClassesShow(a, b, x, y);
    SameFix(a, b, ToolchainOnes(a), x.toolchainFix, y.toolchainFix);
    forall i | 0 <= i < |x.blocking| && i < |y.blocking| ensures SameLine(x.blocking[i], y.blocking[i]) {
      assert Blocked(x)[i] == x.blocking[i].osv && Blocked(y)[i] == y.blocking[i].osv;
      assert x.blocking[i] in x.blocking && y.blocking[i] in y.blocking;
      FirstCalledAmong(a, b, x.blocking[i].osv);
    }
  }

  lemma SameFix(a: seq<Finding>, b: seq<Finding>, advisories: set<string>, x: Version, y: Version)
    requires SameReports(a, b) && CalledReportsAgree(a)
    requires Highest(a, advisories, x) && Highest(b, advisories, y)
    ensures x.precedence == y.precedence
  {
    forall osv | FirstCalled(a, osv).Some?
      ensures FirstCalled(b, osv).Some?
      ensures FirstCalled(a, osv).value.fixed.precedence == FirstCalled(b, osv).value.fixed.precedence
    {
      FirstCalledAmong(a, b, osv);
    }
    forall osv ensures FirstCalled(a, osv).Some? <==> FirstCalled(b, osv).Some? { FirstCalledAmong(a, b, osv); }
    PrecedenceOrder(x.precedence, y.precedence, y.precedence);
    PrecedenceOrder(y.precedence, x.precedence, x.precedence);
  }

  // ------------------------------------------------------ choosing an order

  function Where(reports: seq<Finding>, first: Finding -> bool, wanted: bool): (r: seq<Finding>)
    ensures forall f :: f in r <==> f in reports && first(f) == wanted
  {
    if reports == [] then []
    else
      assert forall f :: f in reports <==> f == reports[0] || f in reports[1..];
      (if first(reports[0]) == wanted then [reports[0]] else []) + Where(reports[1..], first, wanted)
  }

  // The reports with some of them moved to the front.
  function Fronted(reports: seq<Finding>, first: Finding -> bool): seq<Finding> {
    Where(reports, first, true) + Where(reports, first, false)
  }

  lemma {:induction false} FrontedRearranges(reports: seq<Finding>, first: Finding -> bool)
    ensures multiset(Fronted(reports, first)) == multiset(reports)
    decreases |reports|
  {
    if reports != [] {
      FrontedRearranges(reports[1..], first);
      assert reports == [reports[0]] + reports[1..];
    }
  }

  lemma RearrangedIsSame(a: seq<Finding>, b: seq<Finding>)
    requires multiset(a) == multiset(b)
    ensures SameReports(a, b)
  {
    forall f ensures f in a <==> f in b {
      assert f in a <==> f in multiset(a);
      assert f in b <==> f in multiset(b);
    }
  }

  // An advisory with a called report among those in front is decided by such a one.
  lemma FrontedDecides(reports: seq<Finding>, first: Finding -> bool, f: Finding)
    requires f in reports && f.Called() && first(f)
    ensures var decided := FirstCalled(Fronted(reports, first), f.osv);
      decided.Some? && first(decided.value) && decided.value in reports && decided.value.osv == f.osv && decided.value.Called()
  {
    var front := Where(reports, first, true);
    FirstCalledConcat(front, Where(reports, first, false), f.osv);
    FirstCalledIsCalled(front, f.osv);
    assert f in front;
  }

  // ------------------------------------------------------------ some decision

  lemma {:induction false} SomeDecisionAbout(reports: seq<Finding>, about: set<string>) returns (out: Outcome)
    requires about <= Advisories(reports)
    ensures DecidesAbout(reports, about, out)
    decreases |about|
  {
    out := Outcome([], 0, NO_FIX, 0);
    if osv :| osv in about {
      var rest := SomeDecisionAbout(reports, about - {osv});
      var found :| found in reports && found.osv == osv;
      FirstCalledIsCalled(reports, osv);
      if FirstCalled(reports, osv).Some? { found := FirstCalled(reports, osv).value; }
      CountOne(reports, about - {osv}, rest, osv, found);
      out := Counting(rest, found);
      assert about - {osv} + {osv} == about;
    }
  }

  // There is a decision about any reports.
  lemma SomeDecision(reports: seq<Finding>) returns (out: Outcome)
    ensures Decides(reports, out)
  {
    var all := SomeDecisionAbout(reports, Advisories(reports));
    assert UnreachableOnes(reports) * Advisories(reports) == UnreachableOnes(reports);
    assert ToolchainOnes(reports) * Advisories(reports) == ToolchainOnes(reports);
    assert BlockingOnes(reports) * Advisories(reports) == BlockingOnes(reports);
    var sorted := Ordering.Arranged(ByAdvisory, all.blocking);
    AdvisoryOrderIsStrictWeak();
    Ordering.ArrangedIsSorted(ByAdvisory, all.blocking);
    Ordering.ArrangedMembers(ByAdvisory, all.blocking);
    out := all.(blocking := sorted);
  }

  // ------------------------------------------------ exactly when order matters

  // Every order of the reports puts the advisories in the same classes, exactly
  // when the called reports of each advisory agree on whether it is in the standard
  // library.
  lemma ClassesIgnoreOrderExactlyWhen(a: seq<Finding>, x: Outcome)
    requires Decides(a, x)
    ensures (forall b, y | multiset(b) == multiset(a) && Decides(b, y) :: SameClasses(x, y)) <==> ClassesAgree(a)
  {
    if ClassesAgree(a) {
      forall b, y | multiset(b) == multiset(a) && Decides(b, y) ensures SameClasses(x, y) {
        RearrangedIsSame(a, b);
        SameAdvisories(a, b);
        ClassesShow(a, b, x, y);
      }
    } else {
      var f, g :| f in a && g in a && f.osv == g.osv && f.Called() && g.Called()
        && f.Module() == STDLIB && g.Module() != STDLIB;
      var b := Misplaced(a, f, g);
      var y := SomeDecision(b);
      RearrangedIsSame(a, b);
      ClassesShow(a, b, x, y);
    }
  }

  // An order in which an advisory with both kinds of report is of the other class.
  lemma Misplaced(a: seq<Finding>, f: Finding, g: Finding) returns (b: seq<Finding>)
    requires f in a && g in a && f.osv == g.osv && f.Called() && g.Called()
    requires f.Module() == STDLIB && g.Module() != STDLIB
    ensures multiset(b) == multiset(a) && BlockingOnes(a) != BlockingOnes(b)
  {
    var blocked := f.osv in BlockingOnes(a);
    var first := (h: Finding) => h.Module() == STDLIB <==> blocked;
    b := Fronted(a, first);
    FrontedRearranges(a, first);
    FrontedDecides(a, first, if blocked then f else g);
    RearrangedIsSame(a, b);
    assert f in b;
  }

  // Whether the build fails is the same in every order, exactly when no dependency
  // is called at all, or some advisory is called in dependencies only.
  ghost predicate VerdictSettled(reports: seq<Finding>) {
    || (forall f | f in reports && f.Called() :: f.Module() == STDLIB)
    || (exists g :: g in reports && g.Called() && OnlyInDependencies(reports, g.osv))
  }

  ghost predicate OnlyInDependencies(reports: seq<Finding>, osv: string) {
    forall f | f in reports && f.osv == osv && f.Called() :: f.Module() != STDLIB
  }

  lemma VerdictIgnoresOrderExactlyWhen(a: seq<Finding>, x: Outcome)
    requires Decides(a, x)
    ensures (forall b, y | multiset(b) == multiset(a) && Decides(b, y) :: (y.blocking == [] <==> x.blocking == []))
      <==> VerdictSettled(a)
  {
    if VerdictSettled(a) {
      forall b, y | multiset(b) == multiset(a) && Decides(b, y) ensures y.blocking == [] <==> x.blocking == [] {
        RearrangedIsSame(a, b);
        SettledVerdict(a, a, x);
        SettledVerdict(a, b, y);
      }
    } else {
      var f :| f in a && f.Called() && f.Module() != STDLIB;
      var failing := PassesOrFails(a, f, false);
      var passing := PassesOrFails(a, f, true);
    }
  }

  lemma SettledVerdict(a: seq<Finding>, b: seq<Finding>, y: Outcome)
    requires SameReports(a, b) && VerdictSettled(a) && Decides(b, y)
    ensures y.blocking == [] <==> forall f | f in a && f.Called() :: f.Module() == STDLIB
  {
    if forall f | f in a && f.Called() :: f.Module() == STDLIB {
      forall osv ensures osv !in BlockingOnes(b) { FirstCalledIsCalled(b, osv); }
      assert BlockingOnes(b) == {};
    } else {
      var g :| g in a && g.Called() && OnlyInDependencies(a, g.osv);
      FirstCalledAmong(b, a, g.osv);
      FirstCalledIsCalled(b, g.osv);
      assert g in b && Reachable(b, g.osv);
      assert g.osv in BlockingOnes(b);
    }
  }

  // Where it is not settled, one order of the reports passes and another fails.
  lemma PassesOrFails(a: seq<Finding>, f: Finding, pass: bool) returns (b: seq<Finding>)
    requires !VerdictSettled(a) && f in a && f.Called() && f.Module() != STDLIB
    ensures multiset(b) == multiset(a)
    ensures exists y :: Decides(b, y) && (y.blocking == [] <==> pass)
  {
    var first := (h: Finding) => h.Module() == STDLIB <==> pass;
    b := Fronted(a, first);
    FrontedRearranges(a, first);
    RearrangedIsSame(a, b);
    var y := SomeDecision(b);
    if pass {
      forall osv ensures osv !in BlockingOnes(b) {
        FirstCalledIsCalled(b, osv);
        if FirstCalled(b, osv).Some? {
          var g := FirstCalled(b, osv).value;
          assert g in a && !OnlyInDependencies(a, osv);
          var h :| h in a && h.osv == osv && h.Called() && h.Module() == STDLIB;
          FrontedDecides(a, first, h);
        }
      }
      assert BlockingOnes(b) == {};
    } else {
      FrontedDecides(a, first, f);
      assert f in b && f.osv in BlockingOnes(b);
    }
  }

  // With the classes agreed, the fix the report names is the same version in every
  // order, exactly when one toolchain advisory's calls all ask for the highest.
  ghost predicate ToolchainCall(reports: seq<Finding>, f: Finding) {
    f in reports && f.Called() && f.Module() == STDLIB
  }

  ghost predicate FixSettled(reports: seq<Finding>) {
    || (forall f :: !ToolchainCall(reports, f))
    || (exists g :: ToolchainCall(reports, g) && AlwaysHighest(reports, g.osv))
  }

  ghost predicate AlwaysHighest(reports: seq<Finding>, osv: string) {
    forall f, h | ToolchainCall(reports, f) && f.osv == osv && ToolchainCall(reports, h) ::
      !Lower(f.fixed.precedence, h.fixed.precedence)
  }

  lemma FixIgnoresOrderExactlyWhen(a: seq<Finding>, x: Outcome)
    requires Decides(a, x) && ClassesAgree(a)
    ensures (forall b, y | multiset(b) == multiset(a) && Decides(b, y) ::
               y.toolchainFix.precedence == x.toolchainFix.precedence)
      <==> FixSettled(a)
  {
    if FixSettled(a) {
      forall b, y | multiset(b) == multiset(a) && Decides(b, y)
        ensures y.toolchainFix.precedence == x.toolchainFix.precedence
      {
        RearrangedIsSame(a, b);
        SettledFix(a, b, x, y);
      }
    } else {
      var top := HighestCall(a);
      var low, y := LowestOrder(a, top);
      var high, z := HighestOrder(a, top);
    }
  }

  lemma SettledFix(a: seq<Finding>, b: seq<Finding>, x: Outcome, y: Outcome)
    requires SameReports(a, b) && ClassesAgree(a) && FixSettled(a) && Decides(a, x) && Decides(b, y)
    ensures y.toolchainFix.precedence == x.toolchainFix.precedence
  {
    SameAdvisories(a, b);
    if g :| ToolchainCall(a, g) && AlwaysHighest(a, g.osv) {
      FixIs(a, a, g, x);
      FixIs(a, b, g, y);
      PrecedenceOrder(x.toolchainFix.precedence, g.fixed.precedence, g.fixed.precedence);
      PrecedenceOrder(y.toolchainFix.precedence, g.fixed.precedence, g.fixed.precedence);
    } else {
      forall osv ensures osv !in ToolchainOnes(a) { FirstCalledIsCalled(a, osv); }
      assert ToolchainOnes(a) == {};
    }
  }

  // The fix ties with that of an advisory that always asks for the highest.
  lemma FixIs(a: seq<Finding>, b: seq<Finding>, g: Finding, y: Outcome)
    requires SameReports(a, b) && ClassesAgree(a) && ToolchainCall(a, g) && AlwaysHighest(a, g.osv) && Decides(b, y)
    ensures !Lower(y.toolchainFix.precedence, g.fixed.precedence)
    ensures !Lower(g.fixed.precedence, y.toolchainFix.precedence)
  {
    assert g in b;
    FirstCalledIsCalled(b, g.osv);
    assert Reachable(b, g.osv);
    var f := FirstCalled(b, g.osv).value;
    assert ToolchainCall(a, f) && g.osv in ToolchainOnes(b);
    PrecedenceOrder(f.fixed.precedence, g.fixed.precedence, y.toolchainFix.precedence);
    PrecedenceOrder(y.toolchainFix.precedence, g.fixed.precedence, f.fixed.precedence);
    if y.toolchainFix != NO_FIX {
      var osv := FixedBy(b, y);
      FirstCalledIsCalled(b, osv);
      assert ToolchainCall(a, FirstCalled(b, osv).value);
    }
  }

  // A toolchain call that asks for no less than any other.
  lemma HighestCall(a: seq<Finding>) returns (top: Finding)
    requires exists f :: ToolchainCall(a, f)
    ensures ToolchainCall(a, top)
    ensures forall f | ToolchainCall(a, f) :: !Lower(top.fixed.precedence, f.fixed.precedence)
  {
    top :| ToolchainCall(a, top);
    var i := 0;
    while i < |a|
      invariant 0 <= i <= |a| && ToolchainCall(a, top)
      invariant forall j | 0 <= j < i && ToolchainCall(a, a[j]) :: !Lower(top.fixed.precedence, a[j].fixed.precedence)
    {
      if ToolchainCall(a, a[i]) && Lower(top.fixed.precedence, a[i].fixed.precedence) {
        forall j | 0 <= j < i && ToolchainCall(a, a[j]) ensures !Lower(a[i].fixed.precedence, a[j].fixed.precedence) {
          PrecedenceOrder(top.fixed.precedence, a[i].fixed.precedence, a[j].fixed.precedence);
        }
        PrecedenceOrder(a[i].fixed.precedence, a[i].fixed.precedence, a[i].fixed.precedence);
        top := a[i];
      } else {
        PrecedenceOrder(top.fixed.precedence, top.fixed.precedence, top.fixed.precedence);
      }
      i := i + 1;
    }
    forall f | ToolchainCall(a, f) ensures !Lower(top.fixed.precedence, f.fixed.precedence) {
      var j :| 0 <= j < |a| && a[j] == f;
    }
  }

  // Not settled: some order asks for less than the highest call, and some for it.
  lemma LowestOrder(a: seq<Finding>, top: Finding) returns (b: seq<Finding>, y: Outcome)
    requires ClassesAgree(a) && !FixSettled(a) && ToolchainCall(a, top)
    requires forall f | ToolchainCall(a, f) :: !Lower(top.fixed.precedence, f.fixed.precedence)
    ensures multiset(b) == multiset(a) && Decides(b, y) && Lower(y.toolchainFix.precedence, top.fixed.precedence)
  {
    var first := (h: Finding) => Lower(h.fixed.precedence, top.fixed.precedence);
    b := Fronted(a, first);
    FrontedRearranges(a, first);
    y := SomeDecision(b);
    FixIsBelow(a, top, first, y);
  }

  lemma FixIsBelow(a: seq<Finding>, top: Finding, first: Finding -> bool, y: Outcome)
    requires !FixSettled(a) && ToolchainCall(a, top) && Decides(Fronted(a, first), y)
    requires forall f | ToolchainCall(a, f) :: !Lower(top.fixed.precedence, f.fixed.precedence)
    requires forall f :: first(f) <==> Lower(f.fixed.precedence, top.fixed.precedence)
    ensures Lower(y.toolchainFix.precedence, top.fixed.precedence)
  {
    var lower := BelowTop(a, top, top.osv);
    if y.toolchainFix != NO_FIX {
      var osv := FixedBy(Fronted(a, first), y);
      BelowIsFirst(a, top, first, osv);
    }
  }

  // Which advisory the reported fix is that of.
  lemma FixedBy(b: seq<Finding>, y: Outcome) returns (osv: string)
    requires Decides(b, y) && y.toolchainFix != NO_FIX
    ensures osv in ToolchainOnes(b) && FirstCalled(b, osv).Some? && FirstCalled(b, osv).value.fixed == y.toolchainFix
  {
    osv :| osv in ToolchainOnes(b) && FirstCalled(b, osv).Some? && FirstCalled(b, osv).value.fixed == y.toolchainFix;
  }

  lemma BelowIsFirst(a: seq<Finding>, top: Finding, first: Finding -> bool, osv: string)
    requires !FixSettled(a) && ToolchainCall(a, top) && osv in ToolchainOnes(Fronted(a, first))
    requires forall f | ToolchainCall(a, f) :: !Lower(top.fixed.precedence, f.fixed.precedence)
    requires forall f :: first(f) <==> Lower(f.fixed.precedence, top.fixed.precedence)
    ensures first(FirstCalled(Fronted(a, first), osv).value)
  {
    FrontedRearranges(a, first);
    RearrangedIsSame(a, Fronted(a, first));
    FirstCalledIsCalled(Fronted(a, first), osv);
    assert ToolchainCall(a, FirstCalled(Fronted(a, first), osv).value);
    var below := BelowTop(a, top, osv);
    FrontedDecides(a, first, below);
  }

  // Each toolchain advisory has a call that asks for less than the highest.
  lemma BelowTop(a: seq<Finding>, top: Finding, osv: string) returns (f: Finding)
    requires !FixSettled(a) && ToolchainCall(a, top) && exists g :: ToolchainCall(a, g) && g.osv == osv
    requires forall f | ToolchainCall(a, f) :: !Lower(top.fixed.precedence, f.fixed.precedence)
    ensures ToolchainCall(a, f) && f.osv == osv && Lower(f.fixed.precedence, top.fixed.precedence)
  {
    var g :| ToolchainCall(a, g) && g.osv == osv;
    assert !AlwaysHighest(a, g.osv);
    var h;
    f, h :| ToolchainCall(a, f) && f.osv == osv && ToolchainCall(a, h) && Lower(f.fixed.precedence, h.fixed.precedence);
    PrecedenceOrder(f.fixed.precedence, h.fixed.precedence, top.fixed.precedence);
    PrecedenceOrder(f.fixed.precedence, top.fixed.precedence, h.fixed.precedence);
    PrecedenceOrder(h.fixed.precedence, top.fixed.precedence, h.fixed.precedence);
  }

  lemma HighestOrder(a: seq<Finding>, top: Finding) returns (b: seq<Finding>, y: Outcome)
    requires ClassesAgree(a) && ToolchainCall(a, top)
    ensures multiset(b) == multiset(a) && Decides(b, y) && !Lower(y.toolchainFix.precedence, top.fixed.precedence)
  {
    var first := (h: Finding) => h == top;
    b := Fronted(a, first);
    FrontedRearranges(a, first);
    RearrangedIsSame(a, b);
    y := SomeDecision(b);
    FrontedDecides(a, first, top);
    assert top in b && top.osv in ToolchainOnes(b);
  }

  // ------------------------------------------------------------ at an input

  // One advisory called in the standard library and in a dependency: the build
  // passes or fails with the order of the two reports.
  lemma OrderDecidesTheBuild(osv: string, fixed: Version, x: Outcome, y: Outcome)
    requires var std := Finding(osv, fixed, [Frame(STDLIB, "net/http", "Get")]);
      var dependency := Finding(osv, fixed, [Frame("golang.org/x/net", "http2", "Serve")]);
      Decides([std, dependency], x) && Decides([dependency, std], y)
    ensures x.blocking == [] && |y.blocking| == 1
  {
    assert STDLIB[0] == 's' && "golang.org/x/net"[0] == 'g' && |"Get"| == 3 && |"Serve"| == 5;
    TwoReports(Finding(osv, fixed, [Frame(STDLIB, "net/http", "Get")]),
               Finding(osv, fixed, [Frame("golang.org/x/net", "http2", "Serve")]), x);
    TwoReports(Finding(osv, fixed, [Frame("golang.org/x/net", "http2", "Serve")]),
               Finding(osv, fixed, [Frame(STDLIB, "net/http", "Get")]), y);
  }

  lemma TwoReports(f: Finding, g: Finding, x: Outcome)
    requires f.osv == g.osv && f.Called() && g.Called() && Decides([f, g], x)
    ensures |x.blocking| == if f.Module() == STDLIB then 0 else 1
  {
    assert FirstCalled([f, g], f.osv) == Some(f);
    assert Advisories([f, g]) == {f.osv};
    assert BlockingOnes([f, g]) == if f.Module() == STDLIB then {} else {f.osv};
  }

  // ------------------------------------------------------------ whole streams

  lemma SameStream(a: seq<Message>, b: seq<Message>)
    requires multiset(a) == multiset(b)
    ensures Readable(a) == Readable(b) && HasConfig(a) == HasConfig(b)
    ensures SameReports(Reports(a), Reports(b))
  {
    forall m ensures m in a <==> m in b {
      assert m in a <==> m in multiset(a);
      assert m in b <==> m in multiset(b);
    }
    forall f ensures f in Reports(a) <==> f in Reports(b) {
      InReports(a, f);
      InReports(b, f);
    }
  }

  // The gate on two arrangements of one stream: the same failure, or the same
  // decision.
  lemma GateIgnoresOrder(a: seq<Message>, b: seq<Message>, x: Result<Outcome, Failure>, y: Result<Outcome, Failure>)
    requires multiset(a) == multiset(b) && CalledReportsAgree(Reports(a))
    requires Gated(a, x) && Gated(b, y)
    ensures if x.Err? then y == x else y.Ok? && SameDecision(x.value, y.value)
  {
    SameStream(a, b);
    match x
    case Err(e) => assert e == ReadingFailed || e == NoReport;
    case Ok(_) =>
      assert y != Err(ReadingFailed) && y != Err(NoReport);
      if y.Err? {
        match y.error case ReadingFailed => case NoReport =>
      }
      OrderDoesNotMatter(Reports(a), Reports(b), x.value, y.value);
  }

  // What Gate promises of its result.
  ghost predicate Gated(stream: seq<Message>, r: Result<Outcome, Failure>) {
    && (r == Err(ReadingFailed) <==> !Readable(stream))
    && (r == Err(NoReport) <==> Readable(stream) && !HasConfig(stream))
    && (r.Ok? ==> Decides(Reports(stream), r.value))
  }

  lemma {:induction false} InReports(stream: seq<Message>, f: Finding)
    ensures f in Reports(stream) <==> exists m :: m in stream && m.Message? && m.finding == Some(f)
    decreases |stream|
  {
    if stream != [] {
      InReports(stream[1..], f);
      assert stream == [stream[0]] + stream[1..];
    }
  }
}
