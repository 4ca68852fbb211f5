/**
 * What the worker promises of every run of the delivery protocol.
 */
module DeliveryTheorems {
  import opened Wrappers
  import opened WorkflowIds
  import opened WorkerStores
  import opened Delivery
  import opened DeliverySafety

  lemma RunHoldsInv(steps: seq<Step>)
    requires Possible(INITIAL, steps)
    ensures Inv(After(INITIAL, steps))
  {
    RunsKeepInv(INITIAL, steps);
  }

  // ------------------------------------------------------ exactly-once starts

  // However often an event is delivered, each workflow is started at most once:
  // one composition, evidence and articulation for a session, and one grace
  // timer for a session and attempt.
  lemma EveryWorkflowStartsAtMostOnce(steps: seq<Step>)
    requires Possible(INITIAL, steps)
    ensures var starts := After(INITIAL, steps).stores.starts;
      forall i, j | 0 <= i < j < |starts| :: starts[i] != starts[j]
  {
    RunHoldsInv(steps);
    var starts := After(INITIAL, steps).stores.starts;
    forall i, j | 0 <= i < j < |starts| ensures starts[i] != starts[j] {
      assert Id(starts[i]) != Id(starts[j]);
    }
  }

  // An identity already taken belongs to the very workflow that was asked for,
  // unless a grace timer with a negative attempt is about.
  lemma TakenIdIsOwn(starts: seq<Start>, start: Start)
    requires HasStarted(starts, Id(start))
    requires start.Grace? ==> start.attempt >= 0 && forall x | x in starts && x.Grace? :: x.attempt >= 0
    ensures start in starts
  {
    var i :| 0 <= i < |starts| && Id(starts[i]) == Id(start);
    IdsCollideExactlyWhen(starts[i], start);
    assert starts[i] in starts;
  }

  // Completions of one session agree on its purpose, which is the session's mode.
  ghost predicate PurposesAgree(s: System) {
    forall a, b | a in s.outbox && b in s.outbox
      && s.outbox[a].event.SessionCompleted? && s.outbox[b].event.SessionCompleted?
      && s.outbox[a].event.session == s.outbox[b].event.session ::
      s.outbox[a].event.purpose == s.outbox[b].event.purpose
  }

  // An acknowledged completion has its evidence workflow, and it has articulation
  // exactly when the session was practice.
  lemma AcknowledgedCompletionHasItsWorkflows(steps: seq<Step>, event: nat)
    requires Possible(INITIAL, steps) && event in After(INITIAL, steps).outbox
    requires After(INITIAL, steps).outbox[event].event.SessionCompleted?
    requires After(INITIAL, steps).outbox[event].delivered
    ensures var s := After(INITIAL, steps);
      var body := s.outbox[event].event;
      && Evidence(body.session) in s.stores.starts
      && (body.purpose == PRACTICE ==> Articulation(body.session) in s.stores.starts)
      && (PurposesAgree(s) ==> (Articulation(body.session) in s.stores.starts <==> body.purpose == PRACTICE))
  {
    RunHoldsInv(steps);
    var s := After(INITIAL, steps);
    var body := s.outbox[event].event;
    assert Handled(s.stores, body);
    assert Evidence(body.session) in Plan(body);
    TakenIdIsOwn(s.stores.starts, Evidence(body.session));
    if body.purpose == PRACTICE {
      assert Articulation(body.session) in Plan(body);
      TakenIdIsOwn(s.stores.starts, Articulation(body.session));
    }
    if PurposesAgree(s) && Articulation(body.session) in s.stores.starts {
      var e :| e in s.outbox && Articulation(body.session) in Plan(s.outbox[e].event);
      assert s.outbox[e].event == SessionCompleted(body.session, PRACTICE);
    }
  }

  lemma StartedOnce(starts: seq<Start>, start: Start)
    requires forall i, j | 0 <= i < j < |starts| :: starts[i] != starts[j]
    ensures multiset(starts)[start] == if start in starts then 1 else 0
  {
    if start in starts {
      var i :| 0 <= i < |starts| && starts[i] == start;
      assert starts == starts[..i] + [start] + starts[i + 1..];
      assert start !in starts[..i] && start !in starts[i + 1..];
    }
  }

  // So however often it was delivered, an acknowledged completion started evidence
  // exactly once, and articulation once if the session was practice and never
  // otherwise.
  lemma AcknowledgedCompletionStartsEachOnce(steps: seq<Step>, event: nat)
    requires Possible(INITIAL, steps) && event in After(INITIAL, steps).outbox
    requires After(INITIAL, steps).outbox[event].event.SessionCompleted?
    requires After(INITIAL, steps).outbox[event].delivered && PurposesAgree(After(INITIAL, steps))
    ensures var s := After(INITIAL, steps);
      var body := s.outbox[event].event;
      && multiset(s.stores.starts)[Evidence(body.session)] == 1
      && multiset(s.stores.starts)[Articulation(body.session)] == (if body.purpose == PRACTICE then 1 else 0)
  {
    var s := After(INITIAL, steps);
    var body := s.outbox[event].event;
    AcknowledgedCompletionHasItsWorkflows(steps, event);
    EveryWorkflowStartsAtMostOnce(steps);
    StartedOnce(s.stores.starts, Evidence(body.session));
    StartedOnce(s.stores.starts, Articulation(body.session));
  }

  ghost predicate Published(s: System, body: Event) {
    exists e :: e in s.outbox && s.outbox[e].event == body
  }

  // An articulation workflow exists only where some completion was practice:
  // screening never produces one.
  lemma ArticulationOnlyForPractice(steps: seq<Step>, session: string)
    requires Possible(INITIAL, steps) && Articulation(session) in After(INITIAL, steps).stores.starts
    ensures Published(After(INITIAL, steps), SessionCompleted(session, PRACTICE))
  {
    RunHoldsInv(steps);
    var s := After(INITIAL, steps);
    var e :| e in s.outbox && Articulation(session) in Plan(s.outbox[e].event);
    assert s.outbox[e].event == SessionCompleted(session, PRACTICE);
  }

  ghost predicate AttemptsCountUp(s: System) {
    forall e | e in s.outbox && s.outbox[e].event.SessionInterrupted? :: s.outbox[e].event.attempt >= 0
  }

  // An acknowledged interruption that can be resumed has its own timer, provided
  // attempts are counted from zero up.
  lemma AcknowledgedInterruptionHasItsTimer(steps: seq<Step>, event: nat)
    requires Possible(INITIAL, steps) && event in After(INITIAL, steps).outbox
    requires After(INITIAL, steps).outbox[event].event.SessionInterrupted?
    requires After(INITIAL, steps).outbox[event].event.resumable
    requires After(INITIAL, steps).outbox[event].delivered && AttemptsCountUp(After(INITIAL, steps))
    ensures var s := After(INITIAL, steps);
      Grace(s.outbox[event].event.session, s.outbox[event].event.attempt) in s.stores.starts
  {
    RunHoldsInv(steps);
    var s := After(INITIAL, steps);
    var body := s.outbox[event].event;
    assert Handled(s.stores, body);
    forall x | x in s.stores.starts && x.Grace? ensures x.attempt >= 0 {
      var e :| e in s.outbox && x in Plan(s.outbox[e].event);
    }
    assert Grace(body.session, body.attempt) in Plan(body);
    TakenIdIsOwn(s.stores.starts, Grace(body.session, body.attempt));
  }

  // A timer exists only for an interruption that can be resumed.
  lemma TimerOnlyForResumable(steps: seq<Step>, session: string, attempt: int)
    requires Possible(INITIAL, steps) && Grace(session, attempt) in After(INITIAL, steps).stores.starts
    ensures Published(After(INITIAL, steps), SessionInterrupted(session, true, attempt))
  {
    RunHoldsInv(steps);
    var s := After(INITIAL, steps);
    var e :| e in s.outbox && Grace(session, attempt) in Plan(s.outbox[e].event);
    assert s.outbox[e].event == SessionInterrupted(session, true, attempt);
  }

  // An acknowledged creation has its composition, or the session had already
  // gone on without it.
  lemma AcknowledgedCreationIsComposedOrDecided(steps: seq<Step>, event: nat)
    requires Possible(INITIAL, steps) && event in After(INITIAL, steps).outbox
    requires After(INITIAL, steps).outbox[event].event.SessionCreated?
    requires After(INITIAL, steps).outbox[event].delivered
    ensures var s := After(INITIAL, steps);
      var session := s.outbox[event].event.session;
      Composition(session) in s.stores.starts || WentOn(s.stores, session)
  {
    RunHoldsInv(steps);
    var s := After(INITIAL, steps);
    var body := s.outbox[event].event;
    assert Handled(s.stores, body);
    if AllStarted(s.stores, Plan(body)) {
      assert Composition(body.session) in Plan(body);
      TakenIdIsOwn(s.stores.starts, Composition(body.session));
    }
  }

  // --------------------------------------------------- decided once

  function StateOf(moves: seq<Move>, session: string): State {
    if moves == [] then Draft
    else if moves[|moves| - 1].session == session then moves[|moves| - 1].to
    else StateOf(moves[..|moves| - 1], session)
  }

  // How often a session has been moved into evaluating, and out of it.
  function Entries(moves: seq<Move>, session: string): nat {
    if moves == [] then 0
    else
      Entries(moves[..|moves| - 1], session)
      + (if moves[|moves| - 1].session == session && moves[|moves| - 1].to == Evaluating then 1 else 0)
  }

  function Exits(moves: seq<Move>, session: string): nat {
    if moves == [] then 0
    else
      Exits(moves[..|moves| - 1], session)
      + (if moves[|moves| - 1].session == session && moves[|moves| - 1].from == Evaluating then 1 else 0)
  }

  ghost predicate ByEvaluationRoute(m: Move) {
    m.mover.FailureRoute? || m.mover.CompletionRoute?
  }

  ghost predicate MoveFollows(moves: seq<Move>, i: nat)
    requires i < |moves|
  {
    && moves[i].from == StateOf(moves[..i], moves[i].session)
    && moves[i].to in NextStates(moves[i].from)
    && (moves[i].mover.CompletionRoute? ==> moves[i].from == Evaluating && moves[i].to == ReviewReady)
    && (moves[i].mover.FailureRoute? ==> moves[i].from == Evaluating && moves[i].to == EvaluationFailed)
    && (moves[i].mover.CompositionRoute? ==> moves[i].from == Draft && moves[i].to == Composing)
  }

  // Every move starts where the last one of that session ended.
  ghost predicate MovesFollow(st: Stores) {
    && (forall i | 0 <= i < |st.moves| :: MoveFollows(st.moves, i))
    && (forall session | session in st.sessions :: st.sessions[session].state == StateOf(st.moves, session))
    && (forall m | m in st.moves :: m.session in st.sessions)
  }

  lemma TransitionFollows(st: Stores, session: string, seen: Session, to: State, mover: Mover)
    requires MovesFollow(st)
    requires mover.CompletionRoute? ==> seen.state == Evaluating && to == ReviewReady
    requires mover.FailureRoute? ==> seen.state == Evaluating && to == EvaluationFailed
    requires mover.CompositionRoute? ==> seen.state == Draft && to == Composing
    ensures Transition(st, session, seen, to, mover).Moved? ==>
      MovesFollow(Transition(st, session, seen, to, mover).st)
  {
    var t := Transition(st, session, seen, to, mover);
    if t.Moved? {
      var m := Move(session, seen.state, to, mover);
      assert t.st.moves[..|st.moves|] == st.moves;
      forall i | 0 <= i < |t.st.moves| ensures MoveFollows(t.st.moves, i) {
        if i < |st.moves| {
          assert t.st.moves[..i] == st.moves[..i] && MoveFollows(st.moves, i);
        }
      }
    }
  }

  lemma StepFollows(s: System, step: Step)
    requires MovesFollow(s.stores) && Enabled(s, step)
    ensures MovesFollow(Apply(s, step).stores)
  {
    match step
    case Relocate(session, to) =>
      TransitionFollows(s.stores, session, s.stores.sessions[session], to, Elsewhere);
    case Create(session) => NeverMoved(s.stores.moves, session);
    case Advance(run) =>
      var r := s.running[run];
      var event := s.outbox[r.event].event;
      if r.point.Holding? {
        var seen := r.point.seen;
        match event {
          case SessionCreated(session) =>
            if seen.state == Draft { TransitionFollows(s.stores, session, seen, Composing, CompositionRoute); }
          case EvaluationReportedFailed(session, failure) =>
            if seen.state == Evaluating {
              TransitionFollows(s.stores, session, seen, EvaluationFailed, FailureRoute(failure));
            }
          case EvaluationReportedCompleted(session) =>
            if seen.state == Evaluating { TransitionFollows(s.stores, session, seen, ReviewReady, CompletionRoute); }
          case _ =>
        }
      }
    case _ =>
  }

  lemma {:induction false} NeverMoved(moves: seq<Move>, session: string)
    requires forall m | m in moves :: m.session != session
    ensures StateOf(moves, session) == Draft
    decreases |moves|
  {
    if moves != [] {
      assert moves[|moves| - 1] in moves;
      NeverMoved(moves[..|moves| - 1], session);
    }
  }

  lemma {:induction false} RunsFollow(s: System, steps: seq<Step>)
    requires MovesFollow(s.stores) && Possible(s, steps)
    ensures MovesFollow(After(s, steps).stores)
    decreases |steps|
  {
    if steps != [] {
      StepFollows(s, steps[0]);
      RunsFollow(Apply(s, steps[0]), steps[1..]);
    }
  }

  lemma {:induction false} EntriesAndExits(moves: seq<Move>, session: string)
    requires forall i | 0 <= i < |moves| :: MoveFollows(moves, i)
    ensures Entries(moves, session) == Exits(moves, session) + (if StateOf(moves, session) == Evaluating then 1 else 0)
    decreases |moves|
  {
    if moves != [] {
      var init := moves[..|moves| - 1];
      forall i | 0 <= i < |init| ensures MoveFollows(init, i) {
        assert init[..i] == moves[..i] && MoveFollows(moves, i);
      }
      EntriesAndExits(init, session);
      assert MoveFollows(moves, |moves| - 1);
    }
  }

  // The completed and failed handlers take a session out of evaluating no more
  // often than something put it in, and only to the state each of them records.
  lemma NoMoreExitsThanEntries(steps: seq<Step>, session: string)
    requires Possible(INITIAL, steps)
    ensures var moves := After(INITIAL, steps).stores.moves;
      && Exits(moves, session) <= Entries(moves, session)
      && forall m | m in moves && ByEvaluationRoute(m) ::
           m.from == Evaluating && m.to == if m.mover.CompletionRoute? then ReviewReady else EvaluationFailed
  {
    RunsFollow(INITIAL, steps);
    var moves := After(INITIAL, steps).stores.moves;
    EntriesAndExits(moves, session);
    forall m | m in moves && ByEvaluationRoute(m)
      ensures m.from == Evaluating && m.to == if m.mover.CompletionRoute? then ReviewReady else EvaluationFailed
    {
      var i :| 0 <= i < |moves| && moves[i] == m;
      assert MoveFollows(moves, i);
    }
  }

  lemma {:induction false} TwoExitsCount(moves: seq<Move>, session: string, i: nat, j: nat)
    requires i < j < |moves| && moves[i].session == session == moves[j].session
    requires moves[i].from == Evaluating && moves[j].from == Evaluating
    ensures Exits(moves, session) >= 2
    decreases |moves|
  {
    var init := moves[..|moves| - 1];
    if j == |moves| - 1 {
      OneExitCounts(init, session, i);
    } else {
      TwoExitsCount(init, session, i, j);
    }
  }

  lemma {:induction false} OneExitCounts(moves: seq<Move>, session: string, i: nat)
    requires i < |moves| && moves[i].session == session && moves[i].from == Evaluating
    ensures Exits(moves, session) >= 1
    decreases |moves|
  {
    if i < |moves| - 1 {
      OneExitCounts(moves[..|moves| - 1], session, i);
    }
  }

  // A session that entered evaluating once is decided once: whatever races and
  // redeliveries follow, the first committed outcome is the only one.
  lemma FirstOutcomeStands(steps: seq<Step>, session: string, i: nat, j: nat)
    requires Possible(INITIAL, steps)
    requires Entries(After(INITIAL, steps).stores.moves, session) <= 1
    requires i < j < |After(INITIAL, steps).stores.moves|
    requires After(INITIAL, steps).stores.moves[i].session == session
    requires After(INITIAL, steps).stores.moves[i].from == Evaluating
    ensures var m := After(INITIAL, steps).stores.moves[j];
      m.session == session ==> m.from != Evaluating && !ByEvaluationRoute(m)
  {
    NoMoreExitsThanEntries(steps, session);
    var moves := After(INITIAL, steps).stores.moves;
    if moves[j].session == session && moves[j].from == Evaluating {
      TwoExitsCount(moves, session, i, j);
    }
    assert moves[j] in moves;
  }

  // Moves are never taken back, so an outcome once committed is in every
  // continuation.
  lemma {:induction false} MovesOnlyAdded(s: System, steps: seq<Step>)
    requires Possible(s, steps)
    ensures s.stores.moves <= After(s, steps).stores.moves
    decreases |steps|
  {
    if steps != [] {
      MovesOnlyAdded(Apply(s, steps[0]), steps[1..]);
    }
  }

  // --------------------------------------------------- one row each

  // An acknowledged completion leaves exactly one row for each competency its
  // result reads, saying what the result says, and no other row of that
  // evaluation exists.
  lemma AcknowledgedResultIsProjectedOnce(steps: seq<Step>, event: nat, competency: string)
    requires Possible(INITIAL, steps) && event in After(INITIAL, steps).outbox
    requires After(INITIAL, steps).outbox[event].event.EvaluationReportedCompleted?
    requires After(INITIAL, steps).outbox[event].delivered
    ensures var st := After(INITIAL, steps).stores;
      var session := After(INITIAL, steps).outbox[event].event.session;
      && session in st.results
      && var result := st.results[session];
         && (forall i, j | 0 <= i < |st.history| && 0 <= j < |st.history|
               && st.history[i].evaluation == st.history[j].evaluation == result.evaluation
               && st.history[i].competency == st.history[j].competency :: i == j)
         && (forall band :: Row(result.evaluation, competency, band) in st.history <==>
               FirstReading(result.readings, competency) == Some(band))
  {
    RunHoldsInv(steps);
    var s := After(INITIAL, steps);
    var session := s.outbox[event].event.session;
    assert Handled(s.stores, s.outbox[event].event);
    var result := s.stores.results[session];
    forall band ensures Row(result.evaluation, competency, band) in s.stores.history <==>
      FirstReading(result.readings, competency) == Some(band)
    {
      var row := Row(result.evaluation, competency, band);
      if row in s.stores.history {
        var other :| other in s.stores.results && RowOf(s.stores.results[other], row);
        assert other == session;
      }
      if FirstReading(result.readings, competency) == Some(band) {
        ReadingIsListed(result.readings, competency);
        var i :| 0 <= i < |s.stores.history| && s.stores.history[i].evaluation == result.evaluation
          && s.stores.history[i].competency == competency;
        var found := s.stores.history[i];
        assert found in s.stores.history;
        var other :| other in s.stores.results && RowOf(s.stores.results[other], found);
        assert other == session;
      }
    }
  }

  lemma {:induction false} ReadingIsListed(readings: seq<Reading>, competency: string)
    requires FirstReading(readings, competency).Some?
    ensures exists reading :: reading in readings && reading.competency == competency
    decreases |readings|
  {
    if readings[0].competency == competency {
      assert readings[0] in readings;
    } else {
      ReadingIsListed(readings[1..], competency);
      var reading :| reading in readings[1..] && reading.competency == competency;
      assert reading in readings;
    }
  }

  ghost predicate SaysFirst(readings: seq<Reading>, competency: string, band: string, i: int) {
    && 0 <= i < |readings| && readings[i] == Reading(competency, band)
    && forall j | 0 <= j < i :: readings[j].competency != competency
  }

  // What a result says of a competency is what it says of it first.
  lemma {:induction false} FirstReadingExactlyWhen(readings: seq<Reading>, competency: string, band: string)
    ensures FirstReading(readings, competency) == Some(band) <==> exists i :: SaysFirst(readings, competency, band, i)
    decreases |readings|
  {
    if readings != [] {
      FirstReadingExactlyWhen(readings[1..], competency, band);
      if readings[0].competency == competency {
        assert SaysFirst(readings, competency, readings[0].band, 0);
      } else {
        if i :| SaysFirst(readings[1..], competency, band, i) { assert SaysFirst(readings, competency, band, i + 1); }
        if i :| SaysFirst(readings, competency, band, i) { assert SaysFirst(readings[1..], competency, band, i - 1); }
      }
    }
  }
}
