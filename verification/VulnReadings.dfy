/**
 * tools/vulncheck/main.go: what the gate decides, read off the reports
 * themselves, one trace frame and one version field at a time.
 */
module VulnReadings {
  import opened Wrappers
  import opened Versions
  import opened VulnGate
  import Ordering

  // Only a traced call carries a function name, in the first frame.
  predicate Traces(f: Finding) {
    f.trace != [] && f.trace[0].function' != ""
  }

  // The first report of its advisory to trace a call.
  ghost predicate TracesFirst(reports: seq<Finding>, i: int) {
    && 0 <= i < |reports| && Traces(reports[i])
    && forall j | 0 <= j < i && reports[j].osv == reports[i].osv :: !Traces(reports[j])
  }

  ghost predicate InTheLibrary(f: Finding) {
    f.trace != [] && f.trace[0].module' == "stdlib"
  }

  lemma {:induction false} TracingFirstIsFirst(reports: seq<Finding>, i: int)
    requires TracesFirst(reports, i)
    ensures FirstCalled(reports, reports[i].osv) == Some(reports[i])
    decreases i
  {
    if i > 0 {
      forall j | 0 <= j < i - 1 && reports[1..][j].osv == reports[i].osv ensures !Traces(reports[1..][j]) {
        assert reports[1..][j] == reports[j + 1];
      }
      TracingFirstIsFirst(reports[1..], i - 1);
      assert !Traces(reports[0]) || reports[0].osv != reports[i].osv;
    }
  }

  lemma {:induction false} FirstIsTracedSomewhere(reports: seq<Finding>, osv: string) returns (i: nat)
    requires FirstCalled(reports, osv).Some?
    ensures TracesFirst(reports, i) && reports[i].osv == osv && FirstCalled(reports, osv) == Some(reports[i])
    decreases |reports|
  {
    if reports[0].osv == osv && reports[0].Called() {
      i := 0;
    } else {
      var k := FirstIsTracedSomewhere(reports[1..], osv);
      i := k + 1;
      forall j | 0 <= j < i && reports[j].osv == reports[i].osv ensures !Traces(reports[j]) {
        if j > 0 { assert reports[j] == reports[1..][j - 1]; }
      }
    }
  }

  // A report blocks exactly when it is the first of its advisory to trace a
  // call and what it traced lies outside the standard library.
  lemma BlocksExactlyWhen(reports: seq<Finding>, out: Outcome, f: Finding)
    requires Decides(reports, out)
    ensures f in out.blocking <==> exists i :: TracesFirst(reports, i) && reports[i] == f && !InTheLibrary(f)
  {
    if f in out.blocking {
      var i := FirstIsTracedSomewhere(reports, f.osv);
    }
    if i :| TracesFirst(reports, i) && reports[i] == f && !InTheLibrary(f) {
      TracingFirstIsFirst(reports, i);
      assert f.osv in BlockingOnes(reports);
      var g :| g in out.blocking && g.osv == f.osv;
    }
  }

  // Each advisory blocks once, in the order of their names.
  lemma BlockingIsListedOnce(reports: seq<Finding>, out: Outcome)
    requires Decides(reports, out)
    ensures forall i, j | 0 <= i < j < |out.blocking| :: Ordering.StringLess(out.blocking[i].osv, out.blocking[j].osv)
  {
    forall i, j | 0 <= i < j < |out.blocking|
      ensures Ordering.StringLess(out.blocking[i].osv, out.blocking[j].osv)
    {
      assert !ByAdvisory(out.blocking[j], out.blocking[i]);
      Ordering.StringLessTotal(out.blocking[i].osv, out.blocking[j].osv);
      if out.blocking[i].osv == out.blocking[j].osv {
        RepeatedAreFewer(out.blocking, BlockingOnes(reports), i, j);
      }
    }
  }

  // A list that names each member of a set and repeats one is longer.
  lemma RepeatedAreFewer(blocking: seq<Finding>, names: set<string>, i: int, j: int)
    requires 0 <= i < j < |blocking| && blocking[i].osv == blocking[j].osv
    requires forall osv | osv in names :: exists f :: f in blocking && f.osv == osv
    ensures |names| < |blocking|
  {
    var listed := Ordering.Map((f: Finding) => f.osv, blocking);
    var rest := listed[..j] + listed[j + 1..];
    forall osv | osv in names ensures osv in rest {
      var f :| f in blocking && f.osv == osv;
      var k :| 0 <= k < |blocking| && blocking[k] == f;
      if k == j { assert rest[i] == osv; }
      else if k < j { assert rest[k] == osv; }
      else { assert rest[k - 1] == osv; }
    }
    Ordering.ElementsFit(rest, names);
  }

  // The advisories whose first traced call lies in the standard library.
  ghost function OfTheLibrary(reports: seq<Finding>): set<string> {
    set i | 0 <= i < |reports| && TracesFirst(reports, i) && InTheLibrary(reports[i]) :: reports[i].osv
  }

  // Those no report traced a call to.
  ghost function Untraced(reports: seq<Finding>): set<string> {
    set i | 0 <= i < |reports| && (forall g | g in reports && g.osv == reports[i].osv :: !Traces(g)) :: reports[i].osv
  }

  // The two counts are of these.
  lemma CountsReadAs(reports: seq<Finding>, out: Outcome)
    requires Decides(reports, out)
    ensures out.toolchain == |OfTheLibrary(reports)| && out.unreachable == |Untraced(reports)|
  {
    forall osv ensures osv in OfTheLibrary(reports) <==> osv in ToolchainOnes(reports) {
      if osv in ToolchainOnes(reports) {
        var i := FirstIsTracedSomewhere(reports, osv);
      }
      if i :| 0 <= i < |reports| && TracesFirst(reports, i) && InTheLibrary(reports[i]) && reports[i].osv == osv {
        TracingFirstIsFirst(reports, i);
      }
    }
    assert OfTheLibrary(reports) == ToolchainOnes(reports);
    UntracedOnes(reports);
  }

  lemma UntracedOnes(reports: seq<Finding>)
    ensures UnreachableOnes(reports) == Untraced(reports)
  {
    forall osv ensures osv in Untraced(reports) <==> osv in UnreachableOnes(reports) {
      FirstCalledIsCalled(reports, osv);
      if osv in UnreachableOnes(reports) {
        var f :| f in reports && f.osv == osv;
        var i :| 0 <= i < |reports| && reports[i] == f;
        assert forall g | g in reports && g.osv == osv :: !g.Called();
      }
    }
  }

  // The reported fix is a version at least as high as every one asked for by a
  // call into the standard library, field by field; without such calls there
  // is none.
  lemma ReportedFixReachesEach(reports: seq<Finding>, out: Outcome, i: int)
    requires Decides(reports, out)
    requires TracesFirst(reports, i) && InTheLibrary(reports[i]) && reports[i].fixed.precedence.Valid?
    ensures out.toolchainFix.precedence.Valid?
    ensures var asked, fix := reports[i].fixed.precedence, out.toolchainFix.precedence;
      && asked.major <= fix.major
      && (asked.major == fix.major ==> asked.minor <= fix.minor)
      && (asked.major == fix.major && asked.minor == fix.minor ==> asked.patch <= fix.patch)
      && (asked.(pre := []) == fix.(pre := []) && asked.pre == [] ==> fix.pre == [])
    ensures exists k :: TracesFirst(reports, k) && InTheLibrary(reports[k]) && reports[k].fixed == out.toolchainFix
  {
    var osv := reports[i].osv;
    TracingFirstIsFirst(reports, i);
    assert osv in ToolchainOnes(reports);
    FixClearsTheToolchain(reports, out, osv);
    LowerExactlyWhen(out.toolchainFix.precedence, reports[i].fixed.precedence);
    assert Fixes(reports, ToolchainOnes(reports), out.toolchainFix);
    var other :| other in ToolchainOnes(reports) && FirstCalled(reports, other).Some?
      && FirstCalled(reports, other).value.fixed == out.toolchainFix;
    var k := FirstIsTracedSomewhere(reports, other);
    assert TracesFirst(reports, k);
  }

  lemma NoLibraryCallNoFix(reports: seq<Finding>, out: Outcome)
    requires Decides(reports, out)
    requires forall i | TracesFirst(reports, i) :: !InTheLibrary(reports[i])
    ensures out.toolchainFix == Version("", Invalid) && out.toolchain == 0
  {
    CountsReadAs(reports, out);
    forall osv ensures osv !in ToolchainOnes(reports) {
      if osv in ToolchainOnes(reports) { var k := FirstIsTracedSomewhere(reports, osv); }
    }
    assert OfTheLibrary(reports) == {};
  }

  // Two calls into the standard library, fixed in v1.26.1 and v1.26.6: nothing
  // blocks and the later patch is the one reported.
  lemma LaterPatchIsReported(earlier: Finding, later: Finding, out: Outcome)
    requires earlier.osv == "GO-2026-0003" && earlier.trace == [Frame("stdlib", "stdlib", "Parse")]
    requires earlier.fixed == Version("v1.26.1", Valid(1, 26, 1, []))
    requires later.osv == "GO-2026-0004" && later.trace == [Frame("stdlib", "stdlib", "Verify")]
    requires later.fixed == Version("v1.26.6", Valid(1, 26, 6, []))
    requires Decides([earlier, later], out)
    ensures out == Outcome([], 2, Version("v1.26.6", Valid(1, 26, 6, [])), 0)
  {
    var reports := [earlier, later];
    assert earlier.osv[|earlier.osv| - 1] == '3' && later.osv[|later.osv| - 1] == '4';
    assert TracesFirst(reports, 0) && TracesFirst(reports, 1);
    ReportedFixReachesEach(reports, out, 1);
    TwoOfTheLibrary(reports, out);
    ClassesPartitionAdvisories(reports, out);
    assert Advisories(reports) == {earlier.osv, later.osv};
  }

  lemma TwoOfTheLibrary(reports: seq<Finding>, out: Outcome)
    requires Decides(reports, out) && |reports| == 2 && reports[0].osv != reports[1].osv
    requires forall f | f in reports :: Traces(f) && InTheLibrary(f)
    ensures out.toolchain == 2 && out.unreachable == 0
  {
    CountsReadAs(reports, out);
    assert TracesFirst(reports, 0) && TracesFirst(reports, 1);
    assert OfTheLibrary(reports) == {reports[0].osv, reports[1].osv};
    assert Untraced(reports) == {};
  }

  // What is read off a stream: the findings of its messages, each in its place.
  lemma {:induction false} ReportsAreTheFindings(stream: seq<Message>, f: Finding)
    ensures f in Reports(stream) <==> exists config :: Message(config, Some(f)) in stream
    decreases |stream|
  {
    if stream != [] { ReportsAreTheFindings(stream[1..], f); }
  }
}
