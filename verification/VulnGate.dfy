/**
 * tools/vulncheck/main.go: the gate a govulncheck report passes through. It is
 * a fold over a stream, and what it decides depends only on which reports the
 * stream holds.
 */
module VulnGate {
  import opened Wrappers
  import opened Versions
  import Ordering

  datatype Frame = Frame(module': string, package: string, function': string)

  datatype Finding = Finding(osv: string, fixed: Version, trace: seq<Frame>) {
    predicate Called() {
      |trace| > 0 && trace[0].function' != ""
    }

    function Module(): string {
      if |trace| == 0 then "unknown" else trace[0].module'
    }
  }

  datatype Message = Undecodable | Message(config: bool, finding: Option<Finding>)

  datatype Failure = ReadingFailed | NoReport

  datatype Outcome = Outcome(blocking: seq<Finding>, toolchain: nat, toolchainFix: Version, unreachable: nat)

  const STDLIB := "stdlib"

  const NO_FIX := Version("", Invalid)

  // ---------------------------------------------------- the set-level spec

  function Reports(stream: seq<Message>): seq<Finding> {
    if stream == [] then []
    else
      (if stream[0].Message? && stream[0].finding.Some? then [stream[0].finding.value] else [])
      + Reports(stream[1..])
  }

  ghost predicate Readable(stream: seq<Message>) {
    Undecodable !in stream
  }

  ghost predicate HasConfig(stream: seq<Message>) {
    exists m :: m in stream && m.Message? && m.config
  }

  function Advisories(reports: seq<Finding>): set<string> {
    set f | f in reports :: f.osv
  }

  ghost predicate Reachable(reports: seq<Finding>, osv: string) {
    exists f :: f in reports && f.osv == osv && f.Called()
  }

  // The first report of an advisory that traced a call.
  function FirstCalled(reports: seq<Finding>, osv: string): Option<Finding> {
    if reports == [] then None
    else if reports[0].osv == osv && reports[0].Called() then Some(reports[0])
    else FirstCalled(reports[1..], osv)
  }

  lemma {:induction false} FirstCalledIsCalled(reports: seq<Finding>, osv: string)
    ensures FirstCalled(reports, osv).Some? <==> Reachable(reports, osv)
    ensures FirstCalled(reports, osv).Some? ==>
      && FirstCalled(reports, osv).value in reports
      && FirstCalled(reports, osv).value.osv == osv && FirstCalled(reports, osv).value.Called()
    decreases |reports|
  {
    if reports != [] {
      FirstCalledIsCalled(reports[1..], osv);
    }
  }

  ghost function UnreachableOnes(reports: seq<Finding>): set<string> {
    set osv | osv in Advisories(reports) && FirstCalled(reports, osv).None?
  }

  ghost function ToolchainOnes(reports: seq<Finding>): set<string> {
    set osv | osv in Advisories(reports) && FirstCalled(reports, osv).Some?
      && FirstCalled(reports, osv).value.Module() == STDLIB
  }

  ghost function BlockingOnes(reports: seq<Finding>): set<string> {
    set osv | osv in Advisories(reports) && FirstCalled(reports, osv).Some?
      && FirstCalled(reports, osv).value.Module() != STDLIB
  }

  predicate ByAdvisory(x: Finding, y: Finding) {
    Ordering.StringLess(x.osv, y.osv)
  }

  // The highest fixed version among some advisories' first called reports.
  ghost predicate Highest(reports: seq<Finding>, advisories: set<string>, fix: Version) {
    && (forall osv | osv in advisories && FirstCalled(reports, osv).Some? ::
          !Lower(fix.precedence, FirstCalled(reports, osv).value.fixed.precedence))
    && (fix == NO_FIX || Fixes(reports, advisories, fix))
  }

  ghost predicate Fixes(reports: seq<Finding>, advisories: set<string>, fix: Version) {
    exists osv :: osv in advisories && FirstCalled(reports, osv).Some?
      && FirstCalled(reports, osv).value.fixed == fix
  }

  ghost predicate Blocks(reports: seq<Finding>, blocking: seq<Finding>, advisories: set<string>) {
    && |blocking| == |advisories|
    && (forall f | f in blocking :: f.osv in advisories && FirstCalled(reports, f.osv) == Some(f))
    && (forall osv | osv in advisories :: exists f :: f in blocking && f.osv == osv)
  }

  // What the gate decides about the reports of a stream.
  ghost predicate Decides(reports: seq<Finding>, out: Outcome) {
    && out.unreachable == |UnreachableOnes(reports)|
    && out.toolchain == |ToolchainOnes(reports)|
    && Highest(reports, ToolchainOnes(reports), out.toolchainFix)
    && Blocks(reports, out.blocking, BlockingOnes(reports))
    && Ordering.SortedBy(ByAdvisory, out.blocking)
  }

  // ------------------------------------------------------------ first pass

  // What the first pass holds about one advisory after some reports.
  ghost predicate Worst(reports: seq<Finding>, osv: string, f: Finding) {
    && f in reports && f.osv == osv
    && (if FirstCalled(reports, osv).Some? then FirstCalled(reports, osv) == Some(f) else !f.Called())
  }

  lemma {:induction false} ReportsConcat(a: seq<Message>, b: seq<Message>)
    ensures Reports(a + b) == Reports(a) + Reports(b)
    decreases |a|
  {
    if a == [] {
      assert a + b == b;
    } else {
      assert (a + b)[1..] == a[1..] + b;
      ReportsConcat(a[1..], b);
    }
  }

  lemma ReportsOfOne(m: Message)
    ensures Reports([m]) == if m.Message? && m.finding.Some? then [m.finding.value] else []
  {
    assert [m][1..] == [];
  }

  lemma {:induction false} FirstCalledConcat(a: seq<Finding>, b: seq<Finding>, osv: string)
    ensures FirstCalled(a + b, osv) ==
      if FirstCalled(a, osv).Some? then FirstCalled(a, osv) else FirstCalled(b, osv)
    decreases |a|
  {
    if a == [] {
      assert a + b == b;
    } else {
      assert (a + b)[1..] == a[1..] + b && (a + b)[0] == a[0];
      FirstCalledConcat(a[1..], b, osv);
    }
  }

  ghost predicate Collected(reports: seq<Finding>, worst: map<string, Finding>, order: seq<string>) {
    && worst.Keys == Advisories(reports)
    && (forall osv | osv in worst :: Worst(reports, osv, worst[osv]))
    && multiset(order) == multiset(worst.Keys)
  }

  // What the first pass does with one more report.
  function Keeping(worst: map<string, Finding>, found: Finding): map<string, Finding> {
    if found.osv !in worst || (found.Called() && !worst[found.osv].Called())
    then worst[found.osv := found] else worst
  }

  lemma WorstAfter(reports: seq<Finding>, worst: map<string, Finding>, found: Finding, osv: string)
    requires osv in worst <==> osv in Advisories(reports)
    requires osv in worst ==> Worst(reports, osv, worst[osv])
    requires osv in worst || osv == found.osv
    ensures Worst(reports + [found], osv, Keeping(worst, found)[osv])
  {
    FirstCalledConcat(reports, [found], osv);
    assert [found][1..] == [];
    FirstCalledIsCalled(reports, osv);
  }

  lemma CollectOne(reports: seq<Finding>, worst: map<string, Finding>, order: seq<string>, found: Finding)
    requires Collected(reports, worst, order)
    ensures Collected(reports + [found], Keeping(worst, found),
      if found.osv in worst then order else order + [found.osv])
  {
    var worst' := Keeping(worst, found);
    KeysAfter(reports, worst, found);
    forall osv | osv in worst' ensures Worst(reports + [found], osv, worst'[osv]) {
      WorstAfter(reports, worst, found, osv);
    }
  }

  lemma KeysAfter(reports: seq<Finding>, worst: map<string, Finding>, found: Finding)
    requires worst.Keys == Advisories(reports)
    ensures Keeping(worst, found).Keys == Advisories(reports + [found])
    ensures multiset(Keeping(worst, found).Keys) ==
      multiset(worst.Keys) + (if found.osv in worst then multiset{} else multiset{found.osv})
  {
    assert Advisories(reports + [found]) == Advisories(reports) + {found.osv};
    assert Keeping(worst, found).Keys == worst.Keys + {found.osv};
    if found.osv in worst { assert worst.Keys + {found.osv} == worst.Keys; }
  }

  method Collect(stream: seq<Message>)
    returns (read: bool, sawConfig: bool, worst: map<string, Finding>, order: seq<string>)
    ensures read <==> Readable(stream)
    ensures read ==> (sawConfig <==> HasConfig(stream))
    ensures read ==> Collected(Reports(stream), worst, order)
  {
    read, sawConfig, worst, order := true, false, map[], [];
    for i := 0 to |stream|
      invariant read && Readable(stream[..i])
      invariant sawConfig <==> HasConfig(stream[..i])
      invariant Collected(Reports(stream[..i]), worst, order)
    {
      var msg := stream[i];
      assert stream[..i + 1] == stream[..i] + [msg];
      if msg.Undecodable? { return false, sawConfig, worst, order; }
      ReportsConcat(stream[..i], [msg]);
      ReportsOfOne(msg);
      ghost var reports := Reports(stream[..i]);
      if msg.config { sawConfig := true; }
      if msg.finding.None? {
        assert reports + [] == reports;
        continue;
      }
      var found := msg.finding.value;
      CollectOne(reports, worst, order, found);
      var seen := found.osv in worst;
      if !seen { order := order + [found.osv]; }
      if !seen || (found.Called() && !worst[found.osv].Called()) {
        worst := worst[found.osv := found];
      }
    }
    assert stream[..|stream|] == stream;
  }

  // ----------------------------------------------------------- second pass

  // The decision about some of the advisories.
  ghost predicate DecidesAbout(reports: seq<Finding>, about: set<string>, out: Outcome) {
    && out.unreachable == |UnreachableOnes(reports) * about|
    && out.toolchain == |ToolchainOnes(reports) * about|
    && Highest(reports, ToolchainOnes(reports) * about, out.toolchainFix)
    && Blocks(reports, out.blocking, BlockingOnes(reports) * about)
  }

  function Counting(out: Outcome, found: Finding): Outcome {
    if !found.Called() then out.(unreachable := out.unreachable + 1)
    else if found.Module() == STDLIB then
      out.(toolchain := out.toolchain + 1,
           toolchainFix := if Lower(out.toolchainFix.precedence, found.fixed.precedence)
                           then found.fixed else out.toolchainFix)
    else out.(blocking := out.blocking + [found])
  }

  lemma OneMoreIn(s: set<string>, about: set<string>, osv: string)
    requires osv !in about
    ensures s * (about + {osv}) == (if osv in s then (s * about) + {osv} else s * about)
    ensures |s * (about + {osv})| == |s * about| + (if osv in s then 1 else 0)
  {
    assert s * (about + {osv}) == (if osv in s then (s * about) + {osv} else s * about);
  }

  lemma CountOne(reports: seq<Finding>, about: set<string>, out: Outcome, osv: string, found: Finding)
    requires DecidesAbout(reports, about, out) && osv !in about
    requires osv in Advisories(reports) && Worst(reports, osv, found)
    ensures DecidesAbout(reports, about + {osv}, Counting(out, found))
  {
    FirstCalledIsCalled(reports, osv);
    OneMoreIn(UnreachableOnes(reports), about, osv);
    OneMoreIn(ToolchainOnes(reports), about, osv);
    OneMoreIn(BlockingOnes(reports), about, osv);
    if found.Called() && found.Module() == STDLIB {
      RaiseFix(reports, ToolchainOnes(reports) * about, out.toolchainFix, osv, found);
    } else if found.Called() {
      BlockOne(reports, BlockingOnes(reports) * about, out.blocking, osv, found);
    }
  }

  lemma RaiseFix(reports: seq<Finding>, about: set<string>, fix: Version, osv: string, found: Finding)
    requires Highest(reports, about, fix) && FirstCalled(reports, osv) == Some(found)
    ensures Highest(reports, about + {osv},
      if Lower(fix.precedence, found.fixed.precedence) then found.fixed else fix)
  {
    forall other | other in about && FirstCalled(reports, other).Some?
      ensures Lower(fix.precedence, found.fixed.precedence) ==>
        !Lower(found.fixed.precedence, FirstCalled(reports, other).value.fixed.precedence)
    {
      PrecedenceOrder(fix.precedence, found.fixed.precedence, FirstCalled(reports, other).value.fixed.precedence);
    }
    PrecedenceOrder(found.fixed.precedence, found.fixed.precedence, found.fixed.precedence);
    if Fixes(reports, about, fix) { assert Fixes(reports, about + {osv}, fix); }
    assert Fixes(reports, about + {osv}, found.fixed);
  }

  lemma BlockOne(reports: seq<Finding>, about: set<string>, blocking: seq<Finding>, osv: string, found: Finding)
    requires Blocks(reports, blocking, about) && osv !in about
    requires FirstCalled(reports, osv) == Some(found) && found.osv == osv
    ensures Blocks(reports, blocking + [found], about + {osv})
  {
    var more := blocking + [found];
    forall other | other in about + {osv} ensures exists f :: f in more && f.osv == other {
      if other in about {
        var f :| f in blocking && f.osv == other;
        assert f in more;
      } else {
        assert found in more;
      }
    }
  }

  method Gate(stream: seq<Message>) returns (r: Result<Outcome, Failure>)
    ensures r == Err(ReadingFailed) <==> Undecodable in stream
    ensures r == Err(NoReport) <==> Undecodable !in stream && forall m | m in stream :: m.Message? && !m.config
    ensures r.Ok? ==> Decides(Reports(stream), r.value)
  {
    var read, sawConfig, worst, order := Collect(stream);
    if !read { return Err(ReadingFailed); }
    if !sawConfig { return Err(NoReport); }
    var out := Classify(Reports(stream), worst, order);
    r := Ok(out);
  }

  method CountReport(out: Outcome, found: Finding) returns (r: Outcome)
    ensures r == Counting(out, found)
  {
    r := out;
    if !found.Called() {
      r := r.(unreachable := r.unreachable + 1);
    } else if found.Module() == STDLIB {
      r := r.(toolchain := r.toolchain + 1);
      if Lower(r.toolchainFix.precedence, found.fixed.precedence) {
        r := r.(toolchainFix := found.fixed);
      }
    } else {
      r := r.(blocking := r.blocking + [found]);
    }
  }

  ghost function FirstOf(order: seq<string>, count: nat): set<string>
    requires count <= |order|
  {
    set k | 0 <= k < count :: order[k]
  }

  lemma FirstOfGrows(order: seq<string>, i: nat)
    requires i < |order| && forall j, k | 0 <= j < k < |order| :: order[j] != order[k]
    ensures FirstOf(order, i + 1) == FirstOf(order, i) + {order[i]} && order[i] !in FirstOf(order, i)
  {
  }

  method Classify(ghost reports: seq<Finding>, worst: map<string, Finding>, order: seq<string>)
    returns (out: Outcome)
    requires Collected(reports, worst, order)
    ensures Decides(reports, out)
  {
    OrderListsEach(worst, order);
    out := Count(reports, worst, order);
    EachIsDecided(reports, worst, order, FirstOf(order, |order|), out);
    out := SortBlocking(reports, out);
  }

  method Count(ghost reports: seq<Finding>, worst: map<string, Finding>, order: seq<string>)
    returns (out: Outcome)
    requires worst.Keys == Advisories(reports) && forall osv | osv in worst :: Worst(reports, osv, worst[osv])
    requires forall i | 0 <= i < |order| :: order[i] in worst
    requires forall i, j | 0 <= i < j < |order| :: order[i] != order[j]
    ensures DecidesAbout(reports, FirstOf(order, |order|), out)
  {
    out := Outcome([], 0, NO_FIX, 0);
    for i := 0 to |order|
      invariant DecidesAbout(reports, FirstOf(order, i), out)
    {
      FirstOfGrows(order, i);
      CountOne(reports, FirstOf(order, i), out, order[i], worst[order[i]]);
      out := CountReport(out, worst[order[i]]);
    }
  }

  lemma OrderListsEach(worst: map<string, Finding>, order: seq<string>)
    requires multiset(order) == multiset(worst.Keys)
    ensures forall i | 0 <= i < |order| :: order[i] in worst
    ensures forall i, j | 0 <= i < j < |order| :: order[i] != order[j]
    ensures FirstOf(order, |order|) == worst.Keys
  {
    forall i | 0 <= i < |order| ensures order[i] in worst { assert order[i] in multiset(order); }
    forall i, j | 0 <= i < j < |order| ensures order[i] != order[j] {
      if order[i] == order[j] { Ordering.DistinctPositions(order, i, j); }
    }
    forall osv | osv in worst ensures osv in order { assert osv in multiset(worst.Keys); }
  }

  lemma EachIsDecided(
      reports: seq<Finding>, worst: map<string, Finding>, order: seq<string>, about: set<string>, out: Outcome)
    requires worst.Keys == Advisories(reports) == about && DecidesAbout(reports, about, out)
    ensures DecidesAbout(reports, Advisories(reports), out)
    ensures UnreachableOnes(reports) * about == UnreachableOnes(reports)
    ensures ToolchainOnes(reports) * about == ToolchainOnes(reports)
    ensures BlockingOnes(reports) * about == BlockingOnes(reports)
  {
  }

  lemma AdvisoryOrderIsStrictWeak()
    ensures Ordering.StrictWeakOrder(ByAdvisory)
  {
    Ordering.StringOrderIsStrictWeak();
  }

  method SortBlocking(ghost reports: seq<Finding>, out: Outcome) returns (r: Outcome)
    requires Blocks(reports, out.blocking, BlockingOnes(reports))
    ensures r == out.(blocking := r.blocking)
    ensures Blocks(reports, r.blocking, BlockingOnes(reports))
    ensures Ordering.SortedBy(ByAdvisory, r.blocking)
  {
    AdvisoryOrderIsStrictWeak();
    var sorted := Ordering.Sort(ByAdvisory, out.blocking);
    forall f ensures f in sorted <==> f in out.blocking {
      assert f in sorted <==> f in multiset(sorted);
      assert f in out.blocking <==> f in multiset(out.blocking);
    }
    r := out.(blocking := sorted);
  }

  // ---------------------------------------------------------- consequences

  // Unreachable means no report of it traced a call; the three classes are
  // disjoint and add up to the distinct advisories.
  lemma ClassesPartitionAdvisories(reports: seq<Finding>, out: Outcome)
    requires Decides(reports, out)
    ensures forall osv :: osv in UnreachableOnes(reports) <==>
      osv in Advisories(reports) && !Reachable(reports, osv)
    ensures out.unreachable + out.toolchain + |out.blocking| == |Advisories(reports)|
  {
    forall osv ensures FirstCalled(reports, osv).Some? <==> Reachable(reports, osv) {
      FirstCalledIsCalled(reports, osv);
    }
    ClassSizes(reports);
  }

  lemma ClassSizes(reports: seq<Finding>)
    ensures |UnreachableOnes(reports)| + |ToolchainOnes(reports)| + |BlockingOnes(reports)| == |Advisories(reports)|
  {
    var u, t, b := UnreachableOnes(reports), ToolchainOnes(reports), BlockingOnes(reports);
    forall osv ensures osv in Advisories(reports) <==> osv in u || osv in t || osv in b {}
    PartsAddUp(u, t, b, Advisories(reports));
  }

  lemma PartsAddUp<T>(u: set<T>, t: set<T>, b: set<T>, all: set<T>)
    requires forall x :: x in all <==> x in u || x in t || x in b
    requires u !! t && u !! b && t !! b
    ensures |u| + |t| + |b| == |all|
  {
    assert all == u + t + b;
    assert |u + t| == |u| + |t| && |u + t + b| == |u + t| + |b|;
  }

  // Nothing read later unblocks: extending a stream keeps every blocking report.
  lemma ExtendingNeverUnblocks(reports: seq<Finding>, more: seq<Finding>, out: Outcome, extended: Outcome)
    requires Decides(reports, out) && Decides(reports + more, extended)
    ensures forall f | f in out.blocking :: f in extended.blocking
  {
    forall f | f in out.blocking ensures f in extended.blocking {
      FirstCalledConcat(reports, more, f.osv);
      FirstCalledIsCalled(reports, f.osv);
      assert f.osv in BlockingOnes(reports + more);
      var g :| g in extended.blocking && g.osv == f.osv;
    }
  }

  // The reported fix is not lower than any toolchain finding asks for. A finding
  // without a usable fixed version asks for nothing, and is cleared by nothing.
  lemma FixClearsTheToolchain(reports: seq<Finding>, out: Outcome, osv: string)
    requires Decides(reports, out) && osv in ToolchainOnes(reports)
    ensures !Lower(out.toolchainFix.precedence, FirstCalled(reports, osv).value.fixed.precedence)
    ensures out.toolchainFix == NO_FIX ==> FirstCalled(reports, osv).value.fixed.precedence.Invalid?
  {
  }
}
