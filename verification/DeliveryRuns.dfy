/**
 * A delivery that nothing disturbs, among whatever else the system holds: the run of
 * the protocol is the sequence of its steps, and the outbox learns how they ended.
 */
module DeliveryRuns {
  import opened WorkerStores
  import opened Delivery
  import opened Handlers

  lemma {:induction false} OneStepMore(s: System, steps: seq<Step>, step: Step)
    requires Possible(s, steps) && Enabled(After(s, steps), step)
    ensures Possible(s, steps + [step]) && After(s, steps + [step]) == Apply(After(s, steps), step)
    decreases |steps|
  {
    var all := steps + [step];
    if steps == [] {
      assert all == [step] && all[1..] == [];
    } else {
      assert all[0] == steps[0] && all[1..] == steps[1..] + [step];
      OneStepMore(Apply(s, steps[0]), steps[1..], step);
    }
  }

  function Alone(event: nat, run: nat, n: nat): seq<Step> {
    if n == 0 then [Deliver(event, run)] else Alone(event, run, n - 1) + [Advance(run)]
  }

  // Where a delivery stands after its first n steps, everything else being as it was.
  function Standing(s: System, event: nat, run: nat, n: nat): System
    requires event in s.outbox
  {
    var (st, p) := Steps(s.stores, s.outbox[event].event, n);
    System(st, s.outbox, s.running[run := Run(event, p, |s.stores.moves|)])
  }

  // An event waiting, and a number no delivery has.
  ghost predicate Waits(s: System, event: nat, run: nat) {
    event in s.outbox && !s.outbox[event].delivered && run !in s.running
  }

  lemma DeliveredStands(s: System, event: nat, run: nat)
    requires Waits(s, event, run)
    ensures Possible(s, [Deliver(event, run)]) && After(s, [Deliver(event, run)]) == Standing(s, event, run, 0)
  {
    var next := Apply(s, Deliver(event, run));
    assert [Deliver(event, run)][1..] == [];
    assert Possible(next, []) && After(next, []) == next;
  }

  lemma OneAdvance(s: System, event: nat, run: nat, n: nat)
    requires event in s.outbox && !Ended(Steps(s.stores, s.outbox[event].event, n).1)
    ensures Enabled(Standing(s, event, run, n), Advance(run))
    ensures Apply(Standing(s, event, run, n), Advance(run)) == Standing(s, event, run, n + 1)
  {
    StepNext(s.stores, s.outbox[event].event, n);
    var p, q := Standing(s, event, run, n).running[run], Standing(s, event, run, n + 1).running[run];
    assert s.running[run := p][run := q] == s.running[run := q];
  }

  lemma {:induction false} AloneStandsThere(s: System, event: nat, run: nat, n: nat)
    requires Waits(s, event, run)
    requires forall k: nat | k < n :: !Ended(Steps(s.stores, s.outbox[event].event, k).1)
    ensures Possible(s, Alone(event, run, n)) && After(s, Alone(event, run, n)) == Standing(s, event, run, n)
    decreases n
  {
    if n == 0 {
      DeliveredStands(s, event, run);
    } else {
      AloneStandsThere(s, event, run, n - 1);
      OneAdvance(s, event, run, n - 1);
      OneStepMore(s, Alone(event, run, n - 1), Advance(run));
    }
  }

  // The first of some steps at which a delivery has ended.
  lemma {:induction false} EndsFirst(st: Stores, event: Event, n: nat) returns (first: nat)
    requires Ended(Steps(st, event, n).1)
    ensures first <= n && Ended(Steps(st, event, first).1)
    ensures forall k: nat | k < first :: !Ended(Steps(st, event, k).1)
    decreases n
  {
    if k: nat :| k < n && Ended(Steps(st, event, k).1) {
      first := EndsFirst(st, event, k);
    } else {
      first := n;
    }
  }

  // An event that waits is settled by one delivery left alone, whatever the rest of the
  // system is at: the stores become what handling it comes to, and it is marked
  // delivered exactly if the handler may acknowledge it.
  lemma ADeliveryAloneSettles(s: System, event: nat, run: nat) returns (steps: seq<Step>)
    requires Waits(s, event, run)
    ensures Possible(s, steps)
    ensures var (st, ok) := Settled(s.stores, s.outbox[event].event);
      After(s, steps) == System(st, s.outbox[event := Entry(s.outbox[event].event, ok)], s.running)
  {
    var body := s.outbox[event].event;
    StepsSettle(s.stores, body, 7);
    var n := EndsFirst(s.stores, body, 7);
    StepsSettle(s.stores, body, n);
    AloneStandsThere(s, event, run, n);
    steps := Alone(event, run, n) + [Settle(run)];
    OneStepMore(s, Alone(event, run, n), Settle(run));
    var there := Standing(s, event, run, n);
    assert there.running - {run} == s.running;
    assert s.outbox[event := Entry(body, false)] == s.outbox;
  }
}
