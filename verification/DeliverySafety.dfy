/**
 * What holds in every run of the delivery protocol, however often events are
 * redelivered, however deliveries overlap, and wherever they are cut off.
 */
module DeliverySafety {
  import opened Wrappers
  import opened WorkflowIds
  import opened WorkerStores
  import opened Delivery

  // ------------------------------------------------------------ invariants

  // No identity was started twice.
  ghost predicate StartedOnce(starts: seq<Start>) {
    forall i, j | 0 <= i < j < |starts| :: Id(starts[i]) != Id(starts[j])
  }

  // Every start was asked for by an event in the outbox.
  ghost predicate AskedFor(s: System) {
    forall start | start in s.stores.starts ::
      exists event :: event in s.outbox && start in Plan(s.outbox[event].event)
  }

  ghost predicate AllStarted(st: Stores, plan: seq<Start>) {
    forall start | start in plan :: HasStarted(st.starts, Id(start))
  }

  // The session has been moved somewhere past composing.
  ghost predicate WentOn(st: Stores, session: string) {
    exists m :: m in st.moves && m.session == session && m.to != Draft && m.to != Composing
  }

  // Every reading of a stored result has its row.
  ghost predicate Projected(st: Stores, result: Evaluation) {
    forall reading | reading in result.readings :: HasRow(st.history, result.evaluation, reading.competency)
  }

  // What a handler that returned nil leaves behind.
  ghost predicate Handled(st: Stores, event: Event) {
    match event
    case SessionCreated(session) => AllStarted(st, Plan(event)) || WentOn(st, session)
    case EvaluationReportedCompleted(session) => session in st.results && Projected(st, st.results[session])
    case Undeliverable => false
    case _ => AllStarted(st, Plan(event))
  }

  // The state a session was read in is one it really was moved to.
  ghost predicate WasIn(st: Stores, session: string, seen: Session) {
    seen.state == Draft || exists m :: m in st.moves && m.session == session && m.to == seen.state
  }

  ghost predicate PointHolds(st: Stores, event: Event, p: Point) {
    match p
    case Begun => true
    case Holding(seen) =>
      && (event.SessionCreated? || event.EvaluationReportedFailed? || event.EvaluationReportedCompleted?)
      && WasIn(st, event.session, seen)
    case Starting(left) =>
      && !event.Undeliverable? && !event.EvaluationReportedCompleted?
      && |left| <= |Plan(event)| && left == Plan(event)[|Plan(event)| - |left|..]
      && AllStarted(st, Plan(event)[..|Plan(event)| - |left|])
    case Fetching => event.EvaluationReportedCompleted?
    case Projecting(result) =>
      event.EvaluationReportedCompleted? && event.session in st.results && st.results[event.session] == result
    case Finished => Handled(st, event)
    case Failed => true
  }

  ghost predicate RunsHold(s: System) {
    forall run | run in s.running ::
      && s.running[run].event in s.outbox
      && PointHolds(s.stores, s.outbox[s.running[run].event].event, s.running[run].point)
  }

  ghost predicate DeliveredMeansHandled(s: System) {
    forall event | event in s.outbox && s.outbox[event].delivered :: Handled(s.stores, s.outbox[event].event)
  }

  // A session is where its last move left it.
  ghost predicate SessionsFollowMoves(st: Stores) {
    && (forall session | session in st.sessions :: WasIn(st, session, st.sessions[session]))
    && (forall m | m in st.moves :: m.to in NextStates(m.from))
  }

  // One row for each evaluation and competency, and it says what the stored
  // result says.
  ghost predicate HistoryHolds(st: Stores) {
    && (forall i, j | 0 <= i < j < |st.history| ::
          st.history[i].evaluation != st.history[j].evaluation || st.history[i].competency != st.history[j].competency)
    && (forall row | row in st.history :: exists session :: session in st.results && RowOf(st.results[session], row))
    && (forall a, b | a in st.results && b in st.results && st.results[a].evaluation == st.results[b].evaluation :: a == b)
  }

  ghost predicate RowOf(result: Evaluation, row: Row) {
    result.evaluation == row.evaluation && FirstReading(result.readings, row.competency) == Some(row.band)
  }

  ghost predicate Inv(s: System) {
    && StartedOnce(s.stores.starts)
    && AskedFor(s)
    && RunsHold(s)
    && DeliveredMeansHandled(s)
    && SessionsFollowMoves(s.stores)
    && HistoryHolds(s.stores)
  }

  // -------------------------------------------------------- stores only grow

  ghost predicate Grows(a: Stores, b: Stores) {
    && a.sessions.Keys <= b.sessions.Keys
    && a.moves <= b.moves
    && a.starts <= b.starts
    && a.history <= b.history
    && a.results.Keys <= b.results.Keys
    && forall session | session in a.results :: b.results[session] == a.results[session]
  }

  lemma StartedStays(a: Stores, b: Stores, id: string)
    requires a.starts <= b.starts && HasStarted(a.starts, id)
    ensures HasStarted(b.starts, id)
  {
    var i :| 0 <= i < |a.starts| && Id(a.starts[i]) == id;
    assert b.starts[i] == a.starts[i];
  }

  lemma AllStartedStays(a: Stores, b: Stores, plan: seq<Start>)
    requires a.starts <= b.starts && AllStarted(a, plan)
    ensures AllStarted(b, plan)
  {
    forall start | start in plan ensures HasStarted(b.starts, Id(start)) { StartedStays(a, b, Id(start)); }
  }

  lemma MovedStays(a: Stores, b: Stores, m: Move)
    requires a.moves <= b.moves && m in a.moves
    ensures m in b.moves
  {
    var i :| 0 <= i < |a.moves| && a.moves[i] == m;
    assert b.moves[i] == m;
  }

  lemma HandledStays(a: Stores, b: Stores, event: Event)
    requires Grows(a, b) && Handled(a, event)
    ensures Handled(b, event)
  {
    if AllStarted(a, Plan(event)) { AllStartedStays(a, b, Plan(event)); }
    if event.SessionCreated? && WentOn(a, event.session) {
      var m :| m in a.moves && m.session == event.session && m.to != Draft && m.to != Composing;
      MovedStays(a, b, m);
    }
    if event.EvaluationReportedCompleted? {
      var result := a.results[event.session];
      forall reading | reading in result.readings
        ensures HasRow(b.history, result.evaluation, reading.competency)
      {
        var i :| 0 <= i < |a.history| && a.history[i].evaluation == result.evaluation
          && a.history[i].competency == reading.competency;
        assert b.history[i] == a.history[i];
      }
    }
  }

  lemma WasInStays(a: Stores, b: Stores, session: string, seen: Session)
    requires a.moves <= b.moves && WasIn(a, session, seen)
    ensures WasIn(b, session, seen)
  {
    if seen.state != Draft {
      var m :| m in a.moves && m.session == session && m.to == seen.state;
      MovedStays(a, b, m);
    }
  }

  lemma PointStays(a: Stores, b: Stores, event: Event, p: Point)
    requires Grows(a, b) && PointHolds(a, event, p)
    ensures PointHolds(b, event, p)
  {
    match p
    case Holding(seen) => WasInStays(a, b, event.session, seen);
    case Starting(left) => AllStartedStays(a, b, Plan(event)[..|Plan(event)| - |left|]);
    case Finished => HandledStays(a, b, event);
    case _ =>
  }

  // ------------------------------------------------------------- transitions

  lemma TransitionGrows(st: Stores, session: string, seen: Session, to: State, mover: Mover)
    requires SessionsFollowMoves(st) && HistoryHolds(st)
    ensures var t := Transition(st, session, seen, to, mover);
      t.Moved? ==>
        && Grows(st, t.st) && SessionsFollowMoves(t.st) && HistoryHolds(t.st)
        && t.st.starts == st.starts
  {
    var t := Transition(st, session, seen, to, mover);
    if t.Moved? {
      var m := Move(session, seen.state, to, mover);
      assert m in t.st.moves;
      forall other | other in t.st.sessions ensures WasIn(t.st, other, t.st.sessions[other]) {
        if other != session { WasInStays(st, t.st, other, st.sessions[other]); }
      }
    }
  }

  // --------------------------------------------------------------- starting

  lemma ExecuteStartsOnce(st: Stores, start: Start)
    requires StartedOnce(st.starts)
    ensures StartedOnce(Execute(st, start).starts)
    ensures HasStarted(Execute(st, start).starts, Id(start))
    ensures forall x | x in Execute(st, start).starts :: x in st.starts || x == start
    ensures Grows(st, Execute(st, start))
  {
    var st' := Execute(st, start);
    if st' != st {
      assert st'.starts[|st.starts|] == start;
    }
  }

  // -------------------------------------------------------------- projecting

  lemma {:induction false} AppendHolds(history: seq<Row>, evaluation: string, readings: seq<Reading>)
    requires forall i, j | 0 <= i < j < |history| ::
      history[i].evaluation != history[j].evaluation || history[i].competency != history[j].competency
    ensures var h := Append(history, evaluation, readings);
      && history <= h
      && (forall i, j | 0 <= i < j < |h| :: h[i].evaluation != h[j].evaluation || h[i].competency != h[j].competency)
      && (forall reading | reading in readings :: HasRow(h, evaluation, reading.competency))
      && (forall row | row in h :: row in history || (row.evaluation == evaluation
            && !HasRow(history, evaluation, row.competency)
            && FirstReading(readings, row.competency) == Some(row.band)))
    decreases |readings|
  {
    if readings != [] {
      var r := readings[0];
      var next := Insert(history, Row(evaluation, r.competency, r.band));
      assert HasRow(next, evaluation, r.competency) by {
        if next != history { assert next[|history|] == Row(evaluation, r.competency, r.band); }
      }
      AppendHolds(next, evaluation, readings[1..]);
      var h := Append(history, evaluation, readings);
      RowStays(next, h, evaluation, r.competency);
      assert readings == [r] + readings[1..];
      forall row | row in h && row !in history
        ensures row.evaluation == evaluation && !HasRow(history, evaluation, row.competency)
        ensures FirstReading(readings, row.competency) == Some(row.band)
      {
        if row in next {
          assert row == Row(evaluation, r.competency, r.band);
        } else if HasRow(history, evaluation, row.competency) {
          RowStays(history, next, evaluation, row.competency);
        }
      }
    }
  }

  lemma RowStays(a: seq<Row>, b: seq<Row>, evaluation: string, competency: string)
    requires a <= b && HasRow(a, evaluation, competency)
    ensures HasRow(b, evaluation, competency)
  {
    var i :| 0 <= i < |a| && a[i].evaluation == evaluation && a[i].competency == competency;
    assert b[i] == a[i];
  }

  lemma ProjectHolds(st: Stores, session: string)
    requires HistoryHolds(st) && session in st.results
    ensures var result := st.results[session];
      var st' := st.(history := Append(st.history, result.evaluation, result.readings));
      HistoryHolds(st') && Grows(st, st') && Projected(st', result)
  {
    var result := st.results[session];
    var st' := st.(history := Append(st.history, result.evaluation, result.readings));
    AppendHolds(st.history, result.evaluation, result.readings);
    forall row | row in st'.history ensures exists s :: s in st'.results && RowOf(st'.results[s], row) {
      if row in st.history {
        var s :| s in st.results && RowOf(st.results[s], row);
        assert s in st'.results && RowOf(st'.results[s], row);
      } else {
        assert session in st'.results && RowOf(st'.results[session], row);
      }
    }
  }

  // --------------------------------------------------- one step of a handler

  lemma StartingHolds(st: Stores, event: Event, left: seq<Start>)
    requires StartedOnce(st.starts) && SessionsFollowMoves(st) && HistoryHolds(st)
    requires PointHolds(st, event, Starting(left))
    ensures var (st', p') := Act(st, event, Starting(left));
      && StartedOnce(st'.starts) && SessionsFollowMoves(st') && HistoryHolds(st')
      && Grows(st, st') && PointHolds(st', event, p')
      && forall x | x in st'.starts :: x in st.starts || x in Plan(event)
  {
    if left == [] {
      assert Plan(event)[..|Plan(event)|] == Plan(event);
    } else {
      var start := left[0];
      ExecuteStartsOnce(st, start);
      var st' := Execute(st, start);
      var n := |Plan(event)| - |left|;
      assert Plan(event)[..n + 1] == Plan(event)[..n] + [start];
      AllStartedStays(st, st', Plan(event)[..n]);
    }
  }

  lemma ActHolds(st: Stores, event: Event, p: Point)
    requires StartedOnce(st.starts) && SessionsFollowMoves(st) && HistoryHolds(st)
    requires PointHolds(st, event, p)
    ensures var (st', p') := Act(st, event, p);
      && StartedOnce(st'.starts) && SessionsFollowMoves(st') && HistoryHolds(st')
      && Grows(st, st') && PointHolds(st', event, p')
      && forall x | x in st'.starts :: x in st.starts || x in Plan(event)
  {
    match p
    case Begun =>
    case Holding(seen) => DecideHolds(st, event, seen);
    case Starting(left) => StartingHolds(st, event, left);
    case Fetching =>
    case Projecting(result) => ProjectHolds(st, event.session);
    case Finished =>
    case Failed =>
  }

  lemma DecideHolds(st: Stores, event: Event, seen: Session)
    requires SessionsFollowMoves(st) && HistoryHolds(st) && PointHolds(st, event, Holding(seen))
    ensures var (st', p') := Decide(st, event, seen);
      && SessionsFollowMoves(st') && HistoryHolds(st') && Grows(st, st')
      && st'.starts == st.starts && PointHolds(st', event, p')
  {
    match event
    case SessionCreated(session) => TransitionGrows(st, session, seen, Composing, CompositionRoute);
    case EvaluationReportedFailed(session, failure) =>
      TransitionGrows(st, session, seen, EvaluationFailed, FailureRoute(failure));
    case EvaluationReportedCompleted(session) => TransitionGrows(st, session, seen, ReviewReady, CompletionRoute);
    case _ =>
  }

  // ------------------------------------------------------ steps of the system

  lemma StoresGrew(s: System, s': System)
    requires RunsHold(s) && DeliveredMeansHandled(s) && Grows(s.stores, s'.stores)
    requires s'.outbox == s.outbox
    ensures DeliveredMeansHandled(s')
    ensures forall run | run in s.running ::
      PointHolds(s'.stores, s'.outbox[s.running[run].event].event, s.running[run].point)
  {
    forall event | event in s.outbox && s.outbox[event].delivered ensures Handled(s'.stores, s.outbox[event].event) {
      HandledStays(s.stores, s'.stores, s.outbox[event].event);
    }
    forall run | run in s.running
      ensures PointHolds(s'.stores, s.outbox[s.running[run].event].event, s.running[run].point)
    {
      PointStays(s.stores, s'.stores, s.outbox[s.running[run].event].event, s.running[run].point);
    }
  }

  lemma AdvanceKeepsInv(s: System, run: nat)
    requires Inv(s) && Enabled(s, Advance(run))
    ensures Inv(Apply(s, Advance(run)))
  {
    var s' := Apply(s, Advance(run));
    var event := s.outbox[s.running[run].event].event;
    ActHolds(s.stores, event, s.running[run].point);
    StoresGrew(s, s');
    forall start | start in s'.stores.starts
      ensures exists e :: e in s'.outbox && start in Plan(s'.outbox[e].event)
    {
      if start in s.stores.starts {
        var e :| e in s.outbox && start in Plan(s.outbox[e].event);
        assert e in s'.outbox && start in Plan(s'.outbox[e].event);
      }
    }
  }

  lemma ElsewhereKeepsInv(s: System, step: Step)
    requires Inv(s) && Enabled(s, step) && (step.Create? || step.Relocate? || step.Evaluate?)
    ensures Inv(Apply(s, step))
  {
    var s' := Apply(s, step);
    match step
    case Relocate(session, to) =>
      TransitionGrows(s.stores, session, s.stores.sessions[session], to, Elsewhere);
      StoresGrew(s, s');
    case Create(session) => StoresGrew(s, s');
    case Evaluate(session, result) =>
      forall row | row in s'.stores.history
        ensures exists t :: t in s'.stores.results && RowOf(s'.stores.results[t], row)
      {
        var t :| t in s.stores.results && RowOf(s.stores.results[t], row);
        assert t in s'.stores.results && RowOf(s'.stores.results[t], row);
      }
      StoresGrew(s, s');
  }

  lemma OutboxKeepsInv(s: System, step: Step)
    requires Inv(s) && Enabled(s, step)
    requires step.Publish? || step.Deliver? || step.Cut? || step.Settle?
    ensures Inv(Apply(s, step))
  {
    var s' := Apply(s, step);
    forall start | start in s'.stores.starts
      ensures exists e :: e in s'.outbox && start in Plan(s'.outbox[e].event)
    {
      var e :| e in s.outbox && start in Plan(s.outbox[e].event);
      assert e in s'.outbox && start in Plan(s'.outbox[e].event);
    }
    forall e | e in s.outbox ensures e in s'.outbox && s'.outbox[e].event == s.outbox[e].event {}
  }

  lemma StepKeepsInv(s: System, step: Step)
    requires Inv(s) && Enabled(s, step)
    ensures Inv(Apply(s, step))
  {
    match step
    case Advance(run) => AdvanceKeepsInv(s, run);
    case Create(_) => ElsewhereKeepsInv(s, step);
    case Relocate(_, _) => ElsewhereKeepsInv(s, step);
    case Evaluate(_, _) => ElsewhereKeepsInv(s, step);
    case _ => OutboxKeepsInv(s, step);
  }

  lemma {:induction false} RunsKeepInv(s: System, steps: seq<Step>)
    requires Inv(s) && Possible(s, steps)
    ensures Inv(After(s, steps))
    decreases |steps|
  {
    if steps != [] {
      StepKeepsInv(s, steps[0]);
      RunsKeepInv(Apply(s, steps[0]), steps[1..]);
    }
  }
}
