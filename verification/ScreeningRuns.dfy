/**
 * A start that nothing disturbs, among whatever else the system holds: the run of the
 * protocol is the sequence of its steps, and it comes to what they come to.
 */
module ScreeningRuns {
  import opened ScreeningStarts
  import opened ScreeningAdapter

  lemma {:induction false} OneStepMore(s: System, steps: seq<Step>, step: Step)
    requires Possible(s, steps) && Enabled(After(s, steps), step)
    ensures Possible(s, steps + [step]) && After(s, steps + [step]) == Apply(After(s, steps), step)
    decreases |steps|
  {
    var all := steps + [step];
    if steps == [] {
      assert all == [step] && all[1..] == [];
    } else {
      assert all[0] == steps[0] && all[1..] == steps[1..] + [step];
      OneStepMore(Apply(s, steps[0]), steps[1..], step);
    }
  }

  function Alone(start: Start, n: nat): seq<Step> {
    if n == 0 then [Begin(start)] else Alone(start, n - 1) + [Advance(start.candidate)]
  }

  // Where a start stands after its first n steps, everything else being as it was.
  function Standing(s: System, start: Start, n: nat): System {
    var (r, p) := Steps(s.records, start, n);
    System(r, s.running[start.candidate := Run(start, p)], s.drawn + {start.session})
  }

  lemma OneAdvance(s: System, start: Start, n: nat)
    requires !Ended(Steps(s.records, start, n).1)
    ensures Enabled(Standing(s, start, n), Advance(start.candidate))
    ensures Apply(Standing(s, start, n), Advance(start.candidate)) == Standing(s, start, n + 1)
  {
    StepNext(s.records, start, n);
    var p, q := Standing(s, start, n).running[start.candidate], Standing(s, start, n + 1).running[start.candidate];
    assert s.running[start.candidate := p][start.candidate := q] == s.running[start.candidate := q];
  }

  lemma {:induction false} AloneStandsThere(s: System, start: Start, n: nat)
    requires start.candidate !in s.running && start.session !in s.drawn
    requires forall k: nat | k < n :: !Ended(Steps(s.records, start, k).1)
    ensures Possible(s, Alone(start, n)) && After(s, Alone(start, n)) == Standing(s, start, n)
    decreases n
  {
    if n == 0 {
      assert [Begin(start)][1..] == [];
      assert Possible(Apply(s, Begin(start)), []);
    } else {
      AloneStandsThere(s, start, n - 1);
      OneAdvance(s, start, n - 1);
      OneStepMore(s, Alone(start, n - 1), Advance(start.candidate));
    }
  }

  // The first of some steps at which a start has ended.
  lemma {:induction false} EndsFirst(r: Records, start: Start, n: nat) returns (first: nat)
    requires Ended(Steps(r, start, n).1)
    ensures first <= n && Ended(Steps(r, start, first).1)
    ensures forall k: nat | k < first :: !Ended(Steps(r, start, k).1)
    decreases n
  {
    if k: nat :| k < n && Ended(Steps(r, start, k).1) {
      first := EndsFirst(r, start, k);
    } else {
      first := n;
    }
  }

  // A candidate with no start under way, and an identity not drawn before: within eight
  // steps the start has come to its outcome, whatever the rest of the system is at.
  lemma AStartAloneComesToItsOutcome(s: System, start: Start) returns (n: nat)
    requires start.candidate !in s.running && start.session !in s.drawn
    ensures n <= 8 && Possible(s, Alone(start, n))
    ensures var later := After(s, Alone(start, n));
      && later.running == s.running[start.candidate := Run(start, Concluded(s.records, start).1)]
      && later.records == Concluded(s.records, start).0
      && Ended(Concluded(s.records, start).1)
  {
    UndisturbedStart(s.records, start, 8);
    n := EndsFirst(s.records, start, 8);
    UndisturbedStart(s.records, start, n);
    AloneStandsThere(s, start, n);
  }
}
