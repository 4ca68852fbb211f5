/**
 * Whose word a session moved on: in every run of the delivery protocol each move
 * a handler committed answers an event that was published, and says what that
 * event said.
 */
module DeliveryMoves {
  import opened WorkerStores
  import opened WorkflowIds
  import opened Delivery
  import opened DeliveryTheorems

  // ----------------------------------------------------------- the lifecycle

  // Where a session can have come from.
  function PreviousStates(to: State): set<State> {
    match to
    case Draft => {}
    case Composing => {Draft, CompositionFailed}
    case Ready => {Composing, Connecting}
    case Connecting => {Ready}
    case InProgress => {Connecting, Reconnecting}
    case Reconnecting => {InProgress}
    case Finalizing => {InProgress, Reconnecting, FinalizationFailed}
    case Evaluating => {Finalizing, EvaluationFailed}
    case ReviewReady => {Evaluating}
    case Archived => {ReviewReady}
    case Cancelled => {Draft}
    case Expired => {Ready}
    case CompositionFailed => {Composing}
    case Interrupted => {}
    case FinalizationFailed => {Finalizing}
    case EvaluationFailed => {Evaluating}
  }

  // The diagram reads the same from its other side.
  lemma LifecycleReadsBackwards(from: State, to: State)
    ensures to in NextStates(from) <==> from in PreviousStates(to)
  {
  }

  // ------------------------------------------------------------ attributions

  // A handler's move, the event it answers and the edge it took.
  ghost predicate Answers(s: System, m: Move) {
    match m.mover
    case CompositionRoute =>
      Published(s, SessionCreated(m.session)) && m.from == Draft && m.to == Composing
    case FailureRoute(code) =>
      Published(s, EvaluationReportedFailed(m.session, code)) && m.from == Evaluating && m.to == EvaluationFailed
    case CompletionRoute =>
      Published(s, EvaluationReportedCompleted(m.session)) && m.from == Evaluating && m.to == ReviewReady
    case Elsewhere => true
  }

  ghost predicate AllAnswer(s: System) {
    forall m | m in s.stores.moves :: Answers(s, m)
  }

  lemma AnswersStays(s: System, s': System, m: Move)
    requires forall e | e in s.outbox :: e in s'.outbox && s'.outbox[e].event == s.outbox[e].event
    requires Answers(s, m)
    ensures Answers(s', m)
  {
    forall body | Published(s, body) ensures Published(s', body) {
      var e :| e in s.outbox && s.outbox[e].event == body;
      assert e in s'.outbox && s'.outbox[e].event == body;
    }
  }

  // What the handler of a published event adds answers that event.
  lemma DecideAnswers(s: System, event: nat, seen: Session)
    requires event in s.outbox
    ensures var st := Decide(s.stores, s.outbox[event].event, seen).0;
      forall m | m in st.moves :: m in s.stores.moves || Answers(s, m)
  {
    assert Published(s, s.outbox[event].event);
  }

  lemma StepAnswers(s: System, step: Step)
    requires AllAnswer(s) && Enabled(s, step)
    ensures AllAnswer(Apply(s, step))
  {
    var s' := Apply(s, step);
    forall e | e in s.outbox ensures e in s'.outbox && s'.outbox[e].event == s.outbox[e].event {}
    if step.Advance? && s.running[step.run].point.Holding? {
      DecideAnswers(s, s.running[step.run].event, s.running[step.run].point.seen);
    }
    forall m | m in s'.stores.moves ensures Answers(s', m) {
      if m in s.stores.moves || !step.Relocate? { AnswersStays(s, s', m); }
    }
  }

  lemma {:induction false} RunsAnswer(s: System, steps: seq<Step>)
    requires AllAnswer(s) && Possible(s, steps)
    ensures AllAnswer(After(s, steps))
    decreases |steps|
  {
    if steps != [] {
      StepAnswers(s, steps[0]);
      RunsAnswer(Apply(s, steps[0]), steps[1..]);
    }
  }

  // A failure is recorded under the code its own session was reported with: the
  // report is in the outbox, and the session went from evaluating to failed.
  lemma FailureCodeWasReported(steps: seq<Step>, i: nat, code: string)
    requires Possible(INITIAL, steps) && i < |After(INITIAL, steps).stores.moves|
    requires After(INITIAL, steps).stores.moves[i].mover == FailureRoute(code)
    ensures var s := After(INITIAL, steps);
      var m := s.stores.moves[i];
      && (exists e :: e in s.outbox && s.outbox[e].event == EvaluationReportedFailed(m.session, code))
      && m == Move(m.session, Evaluating, EvaluationFailed, FailureRoute(code))
  {
    RunsAnswer(INITIAL, steps);
    assert Answers(After(INITIAL, steps), After(INITIAL, steps).stores.moves[i]);
  }

  // A session is reviewed only when its completion was reported, and composed
  // only when its creation was.
  lemma OtherMovesWereAskedFor(steps: seq<Step>, i: nat)
    requires Possible(INITIAL, steps) && i < |After(INITIAL, steps).stores.moves|
    ensures var s := After(INITIAL, steps);
      var m := s.stores.moves[i];
      && (m.mover == CompletionRoute ==>
            && (exists e :: e in s.outbox && s.outbox[e].event == EvaluationReportedCompleted(m.session))
            && m == Move(m.session, Evaluating, ReviewReady, CompletionRoute))
      && (m.mover == CompositionRoute ==>
            && (exists e :: e in s.outbox && s.outbox[e].event == SessionCreated(m.session))
            && m == Move(m.session, Draft, Composing, CompositionRoute))
  {
    RunsAnswer(INITIAL, steps);
    assert Answers(After(INITIAL, steps), After(INITIAL, steps).stores.moves[i]);
  }

  // Each workflow was asked for by an event of its own session.
  lemma StartsWereAskedFor(steps: seq<Step>, start: Start)
    requires Possible(INITIAL, steps) && start in After(INITIAL, steps).stores.starts
    ensures var s := After(INITIAL, steps);
      exists e :: e in s.outbox && match start
        case Composition(session) => s.outbox[e].event == SessionCreated(session)
        case Evidence(session) =>
          s.outbox[e].event.SessionCompleted? && s.outbox[e].event.session == session
        case Articulation(session) => s.outbox[e].event == SessionCompleted(session, "practice")
        case Grace(session, attempt) => s.outbox[e].event == SessionInterrupted(session, true, attempt)
  {
    RunHoldsInv(steps);
    var s := After(INITIAL, steps);
    var e :| e in s.outbox && start in Plan(s.outbox[e].event);
    assert e in s.outbox;
  }

  // ---------------------------------------------------------------- versions

  // How often a session has been moved.
  function MovesOf(moves: seq<Move>, session: string): nat {
    if moves == [] then 0
    else MovesOf(moves[..|moves| - 1], session) + (if moves[|moves| - 1].session == session then 1 else 0)
  }

  ghost predicate VersionsCount(st: Stores) {
    && (forall session | session in st.sessions :: st.sessions[session].version == 1 + MovesOf(st.moves, session))
    && forall m | m in st.moves :: m.session in st.sessions
  }

  lemma {:induction false} UnmovedIsZero(moves: seq<Move>, session: string)
    requires forall m | m in moves :: m.session != session
    ensures MovesOf(moves, session) == 0
    decreases |moves|
  {
    if moves != [] {
      assert moves[|moves| - 1] in moves;
      UnmovedIsZero(moves[..|moves| - 1], session);
    }
  }

  lemma TransitionCounts(st: Stores, session: string, seen: Session, to: State, mover: Mover)
    requires VersionsCount(st)
    ensures Transition(st, session, seen, to, mover).Moved? ==>
      VersionsCount(Transition(st, session, seen, to, mover).st)
  {
    var t := Transition(st, session, seen, to, mover);
    if t.Moved? { assert t.st.moves[..|st.moves|] == st.moves; }
  }

  lemma DecideCounts(st: Stores, event: Event, seen: Session)
    requires VersionsCount(st)
    ensures VersionsCount(Decide(st, event, seen).0)
  {
    match event
    case SessionCreated(session) => TransitionCounts(st, session, seen, Composing, CompositionRoute);
    case EvaluationReportedFailed(session, code) =>
      TransitionCounts(st, session, seen, EvaluationFailed, FailureRoute(code));
    case EvaluationReportedCompleted(session) => TransitionCounts(st, session, seen, ReviewReady, CompletionRoute);
    case _ =>
  }

  lemma StepCounts(s: System, step: Step)
    requires VersionsCount(s.stores) && Enabled(s, step)
    ensures VersionsCount(Apply(s, step).stores)
  {
    match step
    case Relocate(session, to) => TransitionCounts(s.stores, session, s.stores.sessions[session], to, Elsewhere);
    case Create(session) => UnmovedIsZero(s.stores.moves, session);
    case Advance(run) =>
      var r := s.running[run];
      if r.point.Holding? { DecideCounts(s.stores, s.outbox[r.event].event, r.point.seen); }
    case _ =>
  }

  lemma {:induction false} RunsCount(s: System, steps: seq<Step>)
    requires VersionsCount(s.stores) && Possible(s, steps)
    ensures VersionsCount(After(s, steps).stores)
    decreases |steps|
  {
    if steps != [] {
      StepCounts(s, steps[0]);
      RunsCount(Apply(s, steps[0]), steps[1..]);
    }
  }

  // A session's version is one more than the number of its moves: no write is
  // lost and none happens without a move.
  lemma VersionsCountMoves(steps: seq<Step>, session: string)
    requires Possible(INITIAL, steps) && session in After(INITIAL, steps).stores.sessions
    ensures var st := After(INITIAL, steps).stores;
      && st.sessions[session].version == 1 + MovesOf(st.moves, session)
      && st.sessions[session].state == StateOf(st.moves, session)
  {
    RunsCount(INITIAL, steps);
    RunsFollow(INITIAL, steps);
  }
}
