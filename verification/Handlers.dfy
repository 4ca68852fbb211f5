/**
 * The handlers themselves (services/platform/cmd/worker): each is shown to take
 * the steps of the protocol, in its order, and to stop where a call it makes is
 * not answered. A delivery that is cut off and retried ends where an undisturbed
 * one would have.
 */
module Handlers {
  import opened Numerals
  import opened WorkflowIds
  import opened WorkerStores
  import opened Delivery
  import opened DeliverySafety

  // ------------------------------------------------- one delivery on its own

  // Where the first n steps of a delivery lead when nothing else runs.
  function Steps(st: Stores, event: Event, n: nat): (Stores, Point) {
    if n == 0 then (st, Begun)
    else
      var (st', p) := Steps(st, event, n - 1);
      Act(st', event, p)
  }

  function ExecuteAll(st: Stores, plan: seq<Start>): Stores
    decreases |plan|
  {
    if plan == [] then st else ExecuteAll(Execute(st, plan[0]), plan[1..])
  }

  // The session moved on from the state the event finds it in, if it is there.
  function MoveFrom(st: Stores, session: string, from: State, to: State, mover: Mover): Stores
    requires session in st.sessions && to in NextStates(from)
  {
    if st.sessions[session].state == from
    then Transition(st, session, st.sessions[session], to, mover).st
    else st
  }

  // What handling an event amounts to: the stores afterwards, and whether the
  // event may be acknowledged.
  function Settled(st: Stores, event: Event): (Stores, bool) {
    match event
    case SessionCreated(session) =>
      if session !in st.sessions then (st, false)
      else
        var moved := MoveFrom(st, session, Draft, Composing, CompositionRoute);
        (if moved.sessions[session].state == Composing then ExecuteAll(moved, Plan(event)) else moved, true)
    case SessionCompleted(_, _) => (ExecuteAll(st, Plan(event)), true)
    case SessionInterrupted(_, _, _) => (ExecuteAll(st, Plan(event)), true)
    case EvaluationReportedFailed(session, failure) =>
      if session !in st.sessions then (st, false)
      else (MoveFrom(st, session, Evaluating, EvaluationFailed, FailureRoute(failure)), true)
    case EvaluationReportedCompleted(session) =>
      if session !in st.sessions then (st, false)
      else
        var moved := MoveFrom(st, session, Evaluating, ReviewReady, CompletionRoute);
        if session in st.results then (Written(moved, st.results[session]), true) else (moved, false)
    case Undeliverable => (st, false)
  }

  function Written(st: Stores, result: Evaluation): Stores {
    st.(history := Append(st.history, result.evaluation, result.readings))
  }

  // What holds at each point of an undisturbed delivery.
  ghost predicate Stands(st: Stores, event: Event, p: Point) {
    match p
    case Begun => true
    case Holding(seen) =>
      && (event.SessionCreated? || event.EvaluationReportedFailed? || event.EvaluationReportedCompleted?)
      && event.session in st.sessions && st.sessions[event.session] == seen
    case Starting(left) =>
      && (event.SessionCreated? || event.SessionCompleted? || event.SessionInterrupted?)
      && (event.SessionCreated? ==> event.session in st.sessions && st.sessions[event.session].state == Composing)
      && |left| <= |Plan(event)| && left == Plan(event)[|Plan(event)| - |left|..]
      && AllStarted(st, Plan(event)[..|Plan(event)| - |left|])
    case Fetching =>
      event.EvaluationReportedCompleted? && event.session in st.sessions && st.sessions[event.session].state != Evaluating
    case Projecting(result) =>
      && event.EvaluationReportedCompleted? && event.session in st.sessions
      && st.sessions[event.session].state != Evaluating
      && event.session in st.results && st.results[event.session] == result
    case Finished => Settled(st, event) == (st, true)
    case Failed => Settled(st, event) == (st, false)
  }

  lemma {:induction false} AlreadyStarted(st: Stores, plan: seq<Start>)
    requires AllStarted(st, plan)
    ensures ExecuteAll(st, plan) == st
    decreases |plan|
  {
    if plan != [] {
      assert plan[0] in plan;
      assert Execute(st, plan[0]) == st;
      AlreadyStarted(st, plan[1..]);
    }
  }

  lemma StartedFirst(st: Stores, first: Start, rest: seq<Start>)
    requires HasStarted(st.starts, Id(first))
    ensures ExecuteAll(st, [first] + rest) == ExecuteAll(st, rest)
  {
    assert ([first] + rest)[1..] == rest;
    assert Execute(st, first) == st;
  }

  // Starting a workflow of the plan ahead of the others changes nothing in the
  // end, once those before it have been started.
  lemma {:induction false} StartAhead(st: Stores, done: seq<Start>, next: Start, rest: seq<Start>)
    requires AllStarted(st, done)
    ensures ExecuteAll(Execute(st, next), done + ([next] + rest)) == ExecuteAll(st, done + ([next] + rest))
    decreases |done|
  {
    var st' := Execute(st, next);
    IsStarted(st, next);
    if done == [] {
      assert done + ([next] + rest) == [next] + rest && ([next] + rest)[1..] == rest;
      StartedFirst(st', next, rest);
    } else {
      var first, others := done[0], done[1..];
      assert first in done && done + ([next] + rest) == [first] + (others + ([next] + rest));
      StartedStays(st, st', Id(first));
      StartedFirst(st, first, others + ([next] + rest));
      StartedFirst(st', first, others + ([next] + rest));
      StartAhead(st, others, next, rest);
    }
  }

  lemma IsStarted(st: Stores, start: Start)
    ensures HasStarted(Execute(st, start).starts, Id(start))
    ensures st.starts <= Execute(st, start).starts
  {
    var st' := Execute(st, start);
    if st' != st {
      assert st'.starts[|st.starts|] == start;
    }
  }

  lemma {:induction false} AppendCovers(history: seq<Row>, evaluation: string, readings: seq<Reading>)
    ensures history <= Append(history, evaluation, readings)
    ensures forall reading | reading in readings ::
      HasRow(Append(history, evaluation, readings), evaluation, reading.competency)
    decreases |readings|
  {
    if readings != [] {
      var r := readings[0];
      var next := Insert(history, Row(evaluation, r.competency, r.band));
      assert HasRow(next, evaluation, r.competency) by {
        if next != history { assert next[|history|] == Row(evaluation, r.competency, r.band); }
      }
      AppendCovers(next, evaluation, readings[1..]);
      RowStays(next, Append(history, evaluation, readings), evaluation, r.competency);
    }
  }

  lemma {:induction false} AppendAgain(history: seq<Row>, evaluation: string, readings: seq<Reading>)
    requires forall reading | reading in readings :: HasRow(history, evaluation, reading.competency)
    ensures Append(history, evaluation, readings) == history
    decreases |readings|
  {
    if readings != [] {
      assert readings[0] in readings;
      AppendAgain(history, evaluation, readings[1..]);
    }
  }

  lemma WrittenTwice(st: Stores, result: Evaluation)
    ensures Written(Written(st, result), result) == Written(st, result)
  {
    AppendCovers(st.history, result.evaluation, result.readings);
    AppendAgain(Written(st, result).history, result.evaluation, result.readings);
  }

  lemma ExecuteBoth(st: Stores, first: Start, second: Start)
    ensures ExecuteAll(st, [first]) == Execute(st, first)
    ensures ExecuteAll(st, [first, second]) == Execute(Execute(st, first), second)
  {
    assert [first][1..] == [] && [first, second][1..] == [second] && [second][1..] == [];
    assert ExecuteAll(Execute(st, first), [second]) == ExecuteAll(Execute(Execute(st, first), second), []);
  }

  // What handling a creation amounts to, and so with the other events below: who
  // moves, from where to where, and what is started under which identity.
  lemma CreationSettles(st: Stores, session: string)
    ensures var (st', ok) := Settled(st, SessionCreated(session));
      && (ok <==> session in st.sessions)
      && (session in st.sessions && st.sessions[session].state == Draft ==>
            && st'.sessions == st.sessions[session := Session(Composing, st.sessions[session].version + 1)]
            && st'.moves == st.moves + [Move(session, Draft, Composing, CompositionRoute)]
            && HasStarted(st'.starts, "compose-" + session))
      && (session in st.sessions && st.sessions[session].state == Composing ==>
            st' == st.(starts := st'.starts) && HasStarted(st'.starts, "compose-" + session))
      && (session in st.sessions && st.sessions[session].state !in {Draft, Composing} ==> st' == st)
  {
    if session in st.sessions {
      var moved := MoveFrom(st, session, Draft, Composing, CompositionRoute);
      IsStarted(moved, Composition(session));
      ExecuteBoth(moved, Composition(session), Composition(session));
    }
  }

  lemma CompletionSettles(st: Stores, session: string, purpose: string)
    ensures var (st', ok) := Settled(st, SessionCompleted(session, purpose));
      && ok && st' == st.(starts := st'.starts) && st.starts <= st'.starts
      && HasStarted(st'.starts, "evidence-" + session)
      && (purpose == "practice" ==> HasStarted(st'.starts, "articulation-" + session))
      && (purpose != "practice" ==> st'.starts == st.starts || st'.starts == st.starts + [Evidence(session)])
  {
    var plan := Plan(SessionCompleted(session, purpose));
    var st' := Execute(st, Evidence(session));
    IsStarted(st, Evidence(session));
    IsStarted(st', Articulation(session));
    StartedStays(st', Execute(st', Articulation(session)), Id(Evidence(session)));
    assert plan == if purpose == "practice" then [Evidence(session), Articulation(session)] else [Evidence(session)];
    ExecuteBoth(st, Evidence(session), Articulation(session));
  }

  lemma InterruptionSettles(st: Stores, session: string, resumable: bool, attempt: int)
    ensures var (st', ok) := Settled(st, SessionInterrupted(session, resumable, attempt));
      && ok && st' == st.(starts := st'.starts)
      && (resumable ==> HasStarted(st'.starts, "grace-" + (session + "-" + Shown(attempt))))
      && (!resumable ==> st' == st)
  {
    IsStarted(st, Grace(session, attempt));
    ExecuteBoth(st, Grace(session, attempt), Grace(session, attempt));
  }

  lemma ReportSettles(st: Stores, session: string, failure: string)
    ensures var (st', ok) := Settled(st, EvaluationReportedFailed(session, failure));
      && (ok <==> session in st.sessions)
      && (session in st.sessions && st.sessions[session].state == Evaluating ==>
            && st'.sessions == st.sessions[session := Session(EvaluationFailed, st.sessions[session].version + 1)]
            && st' == st.(sessions := st'.sessions,
                          moves := st.moves + [Move(session, Evaluating, EvaluationFailed, FailureRoute(failure))]))
      && (session in st.sessions && st.sessions[session].state != Evaluating ==> st' == st)
    ensures var (st', ok) := Settled(st, EvaluationReportedCompleted(session));
      && (ok <==> session in st.sessions && session in st.results)
      && (session in st.sessions && st.sessions[session].state == Evaluating ==>
            && st'.sessions == st.sessions[session := Session(ReviewReady, st.sessions[session].version + 1)]
            && st'.moves == st.moves + [Move(session, Evaluating, ReviewReady, CompletionRoute)])
      && (session in st.sessions && st.sessions[session].state != Evaluating ==>
            st'.sessions == st.sessions && st'.moves == st.moves)
      && (ok ==> forall reading | reading in st.results[session].readings ::
            HasRow(st'.history, st.results[session].evaluation, reading.competency))
  {
    if session in st.results {
      AppendCovers(st.history, st.results[session].evaluation, st.results[session].readings);
    }
  }

  // One step of a delivery leaves what handling the event amounts to as it was.
  lemma ActSettles(st: Stores, event: Event, p: Point)
    requires Stands(st, event, p)
    ensures var (st', p') := Act(st, event, p);
      Settled(st', event) == Settled(st, event) && Stands(st', event, p')
  {
    match p
    case Begun =>
      if event.SessionCompleted? || event.SessionInterrupted? {
        assert Plan(event)[..0] == [];
        assert Plan(event) == Plan(event)[0..];
      }
    case Holding(seen) => DecideSettles(st, event, seen);
    case Starting(left) => StartingSettles(st, event, |Plan(event)| - |left|);
    case Fetching =>
    case Projecting(result) => WrittenTwice(st, result);
    case Finished =>
    case Failed =>
  }

  lemma DecideSettles(st: Stores, event: Event, seen: Session)
    requires Stands(st, event, Holding(seen))
    ensures var (st', p') := Decide(st, event, seen);
      Settled(st', event) == Settled(st, event) && Stands(st', event, p')
  {
    if event.SessionCreated? {
      assert Plan(event)[..0] == [];
      assert Plan(event) == Plan(event)[0..];
    }
  }

  ghost predicate OnlyStarts(st: Stores, event: Event) {
    && (event.SessionCreated? || event.SessionCompleted? || event.SessionInterrupted?)
    && (event.SessionCreated? ==> event.session in st.sessions && st.sessions[event.session].state == Composing)
  }

  lemma SettledOnlyStarts(st: Stores, event: Event)
    requires OnlyStarts(st, event)
    ensures Settled(st, event) == (ExecuteAll(st, Plan(event)), true)
  {
  }

  // The next start of a delivery that has made the first n.
  lemma StartingSettles(st: Stores, event: Event, n: nat)
    requires OnlyStarts(st, event) && n <= |Plan(event)| && AllStarted(st, Plan(event)[..n])
    ensures var (st', p') := Act(st, event, Starting(Plan(event)[n..]));
      Settled(st', event) == Settled(st, event) && Stands(st', event, p')
  {
    var plan := Plan(event);
    SettledOnlyStarts(st, event);
    if n == |plan| {
      assert plan[..n] == plan;
      AlreadyStarted(st, plan);
    } else {
      SettledOnlyStarts(Execute(st, plan[n]), event);
      OneMoreStarted(st, plan, n);
    }
  }

  lemma OneMoreStarted(st: Stores, plan: seq<Start>, n: nat)
    requires n < |plan| && AllStarted(st, plan[..n])
    ensures var st' := Execute(st, plan[n]);
      AllStarted(st', plan[..n + 1]) && ExecuteAll(st', plan) == ExecuteAll(st, plan)
  {
    TakeOneMore(plan, n);
    StartAhead(st, plan[..n], plan[n], plan[n + 1..]);
    AllStartedOn(st, plan[..n], plan[n]);
  }

  lemma TakeOneMore(plan: seq<Start>, n: nat)
    requires n < |plan|
    ensures plan[..n + 1] == plan[..n] + [plan[n]]
    ensures plan == plan[..n] + ([plan[n]] + plan[n + 1..])
  {
  }

  lemma AllStartedOn(st: Stores, plan: seq<Start>, last: Start)
    requires AllStarted(st, plan)
    ensures AllStarted(Execute(st, last), plan + [last])
  {
    var st' := Execute(st, last);
    IsStarted(st, last);
    AllStartedStays(st, st', plan);
    forall start | start in plan + [last] ensures HasStarted(st'.starts, Id(start)) {
      assert start in plan || start == last;
    }
  }

  // A delivery cut off anywhere and retried ends exactly where an undisturbed
  // one would have: the same sessions, moves, workflows and history, and the
  // same answer to the outbox.
  lemma {:induction false} RetryConverges(st: Stores, event: Event, n: nat)
    ensures Settled(Steps(st, event, n).0, event) == Settled(st, event)
    ensures Stands(Steps(st, event, n).0, event, Steps(st, event, n).1)
    decreases n
  {
    if n > 0 {
      RetryConverges(st, event, n - 1);
      var (st', p) := Steps(st, event, n - 1);
      ActSettles(st', event, p);
    }
  }

  // How many steps a delivery can still take.
  function Rank(p: Point): nat {
    match p
    case Begun => 6
    case Holding(_) => 5
    case Starting(left) => |left| + 1
    case Fetching => 3
    case Projecting(_) => 2
    case _ => 0
  }

  lemma ActLowersRank(st: Stores, event: Event, p: Point)
    requires Stands(st, event, p) && !Ended(p)
    ensures Rank(Act(st, event, p).1) < Rank(p)
  {
    if p.Holding? {
      assert |Plan(event)| <= 2;
    }
  }

  lemma {:induction false} RankFalls(st: Stores, event: Event, n: nat)
    ensures Rank(Steps(st, event, n).1) <= if n <= 6 then 6 - n else 0
    decreases n
  {
    if n > 0 {
      RankFalls(st, event, n - 1);
      var before := Steps(st, event, n - 1);
      assert Stands(before.0, event, before.1) by { RetryConverges(st, event, n - 1); }
      RankStep(before.0, event, before.1);
    }
  }

  lemma RankStep(st: Stores, event: Event, p: Point)
    requires Stands(st, event, p)
    ensures Rank(Act(st, event, p).1) <= if Rank(p) > 0 then Rank(p) - 1 else 0
  {
    if !Ended(p) { ActLowersRank(st, event, p); }
  }

  // The protocol's steps add up to handling the event: an undisturbed delivery
  // returns within six steps, leaving what Settled says.
  lemma StepsSettle(st: Stores, event: Event, n: nat)
    requires n > 6 || Ended(Steps(st, event, n).1)
    ensures Ended(Steps(st, event, n).1)
    ensures Settled(st, event) == (Steps(st, event, n).0, Steps(st, event, n).1.Finished?)
  {
    RankFalls(st, event, n);
    RetryConverges(st, event, n);
  }

  // A redelivery changes nothing and gets the same answer.
  lemma RedeliveryChangesNothing(st: Stores, event: Event)
    ensures Settled(Settled(st, event).0, event) == Settled(st, event)
  {
    StepsSettle(st, event, 7);
    RetryConverges(st, event, 7);
  }

  // ------------------------------------------------------------- the worker

  datatype Answer<+T> = Answered(value: T) | Denied(why: Refusal) | Unanswered

  // Whether a workflow was started under an identity.
  method IsTaken(starts: seq<Start>, id: string) returns (taken: bool)
    ensures taken == HasStarted(starts, id)
  {
    for i := 0 to |starts|
      invariant forall k | 0 <= k < i :: Id(starts[k]) != id
    {
      if Id(starts[i]) == id { return true; }
    }
    return false;
  }

  // The worker process, with the stores and the engine it talks to.
  class Worker {
    var sessions: map<string, Session>
    var moves: seq<Move>
    var starts: seq<Start>
    var results: map<string, Evaluation>
    var history: seq<Row>
    // How many more of its calls are answered before the process is cut off.
    var calls: nat

    function View(): Stores
      reads this
    {
      Stores(sessions, moves, starts, results, history)
    }

    method Get(session: string) returns (r: Answer<Session>)
      modifies `calls
      ensures old(calls) == 0 ==> r == Unanswered && calls == 0
      ensures old(calls) > 0 ==> calls == old(calls) - 1
      ensures old(calls) > 0 ==>
        r == if session in sessions then Answered(sessions[session]) else Denied(NotFound)
    {
      if calls == 0 { return Unanswered; }
      calls := calls - 1;
      if session !in sessions { return Denied(NotFound); }
      return Answered(sessions[session]);
    }

    method TransitionTo(session: string, seen: Session, to: State, mover: Mover) returns (r: Answer<Session>)
      modifies `calls, `sessions, `moves
      ensures old(calls) == 0 ==> r == Unanswered && View() == old(View()) && calls == 0
      ensures old(calls) > 0 ==> calls == old(calls) - 1
      ensures old(calls) > 0 ==>
        match Transition(old(View()), session, seen, to, mover)
        case Moved(st) => View() == st && r == Answered(st.sessions[session])
        case Refused(why) => View() == old(View()) && r == Denied(why)
      ensures r.Answered? ==>
        && to in NextStates(seen.state) && session in old(sessions) && old(sessions)[session] == seen
        && r.value == Session(to, seen.version + 1) && sessions == old(sessions)[session := r.value]
        && moves == old(moves) + [Move(session, seen.state, to, mover)]
      ensures !r.Answered? ==> View() == old(View())
      ensures r == Denied(TransitionInvalid) <==> old(calls) > 0 && to !in NextStates(seen.state)
      ensures r == Denied(NotFound) <==> old(calls) > 0 && to in NextStates(seen.state) && session !in sessions
    {
      if calls == 0 { return Unanswered; }
      calls := calls - 1;
      if to !in NextStates(seen.state) { return Denied(TransitionInvalid); }
      if session !in sessions { return Denied(NotFound); }
      if sessions[session].state != seen.state || sessions[session].version != seen.version {
        return Denied(StaleVersion);
      }
      sessions := sessions[session := Session(to, seen.version + 1)];
      moves := moves + [Move(session, seen.state, to, mover)];
      return Answered(sessions[session]);
    }

    // A start refused as already started is as good as one made.
    method ExecuteWorkflow(start: Start) returns (ok: bool)
      modifies `calls, `starts
      ensures old(calls) == 0 ==> !ok && View() == old(View()) && calls == 0
      ensures old(calls) > 0 ==> ok && calls == old(calls) - 1 && View() == Execute(old(View()), start)
      ensures ok ==>
        starts == old(starts) + if exists s :: s in old(starts) && Id(s) == Id(start) then [] else [start]
    {
      if calls == 0 { return false; }
      calls := calls - 1;
      var already := IsTaken(starts, Id(start));
      if !already { starts := starts + [start]; }
      return true;
    }

    // Inserts the rows a result asks for in one transaction.
    method InsertObservations(result: Evaluation) returns (ok: bool)
      modifies `calls, `history
      ensures old(calls) == 0 ==> !ok && View() == old(View()) && calls == 0
      ensures old(calls) > 0 ==> ok && calls == old(calls) - 1 && View() == Written(old(View()), result)
    {
      if calls == 0 { return false; }
      calls := calls - 1;
      var rows := history;
      var i := 0;
      while i < |result.readings|
        invariant 0 <= i <= |result.readings|
        invariant Append(rows, result.evaluation, result.readings[i..])
               == Append(history, result.evaluation, result.readings)
      {
        var r := result.readings[i];
        assert result.readings[i..][1..] == result.readings[i + 1..];
        rows := Insert(rows, Row(result.evaluation, r.competency, r.band));
        i := i + 1;
      }
      history := rows;
      return true;
    }

    method StartComposition(session: string) returns (ok: bool, ghost n: nat)
      modifies this
      ensures Took(old(View()), SessionCreated(session), View(), ok, n, calls)
      ensures calls + 3 >= old(calls)
    {
      ghost var before := View();
      ghost var event := SessionCreated(session);
      StepOne(before, event);
      var found := Get(session);
      if !found.Answered? {
        n := if found.Denied? then 1 else 0;
        return false, n;
      }
      var seen := found.value;
      n := 1;
      match seen.state {
        case Draft =>
          var moved := TransitionTo(session, seen, Composing, CompositionRoute);
          if moved.Unanswered? { return false, n; }
          n := 2;
          StepNext(before, event, 1);
          if moved.Denied? { return false, n; }
        case Composing =>
          n := 2;
          StepNext(before, event, 1);
        case _ =>
          StepNext(before, event, 1);
          return true, 2;
      }
      var started := ExecuteWorkflow(Composition(session));
      if !started { return false, n; }
      StepNext(before, event, 2);
      StepNext(before, event, 3);
      return true, 4;
    }

    method StartEvidence(session: string) returns (ok: bool)
      modifies `calls, `starts
      ensures ok ==> View() == Execute(old(View()), Evidence(session))
      ensures !ok ==> View() == old(View()) && calls == 0
      ensures calls + 1 >= old(calls)
    {
      ok := ExecuteWorkflow(Evidence(session));
    }

    // Practice only: a screening completion is nothing to do here.
    method StartArticulation(session: string, purpose: string) returns (ok: bool)
      modifies `calls, `starts
      ensures ok ==>
        View() == if purpose == PRACTICE then Execute(old(View()), Articulation(session)) else old(View())
      ensures !ok ==> purpose == PRACTICE && View() == old(View()) && calls == 0
      ensures calls + 1 >= old(calls)
    {
      if purpose != PRACTICE { return true; }
      ok := ExecuteWorkflow(Articulation(session));
    }

    // Two workflows under two identities, the first before the second.
    method StartEvaluations(session: string, purpose: string) returns (ok: bool, ghost n: nat)
      modifies `calls, `starts
      ensures Took(old(View()), SessionCompleted(session, purpose), View(), ok, n, calls)
      ensures calls + 2 >= old(calls)
    {
      ghost var before := View();
      CompletedSteps(before, session, purpose);
      var begun := StartEvidence(session);
      if !begun { return false, 1; }
      ok := StartArticulation(session, purpose);
      n := if !ok then 2 else if purpose == PRACTICE then 4 else 3;
    }

    method StartGraceTimer(session: string, resumable: bool, attempt: int) returns (ok: bool, ghost n: nat)
      modifies `calls, `starts
      ensures Took(old(View()), SessionInterrupted(session, resumable, attempt), View(), ok, n, calls)
      ensures calls + 1 >= old(calls)
    {
      ghost var before := View();
      InterruptedSteps(before, session, resumable, attempt);
      if !resumable { return true, 1; }
      ok := ExecuteWorkflow(Grace(session, attempt));
      n := if ok then 3 else 1;
    }

    // A session that is not evaluating any more has been decided, and so has one
    // that moves between the read and the write.
    method RecordEvaluationFailure(session: string, failure: string) returns (ok: bool, ghost n: nat)
      modifies `calls, `sessions, `moves
      ensures Took(old(View()), EvaluationReportedFailed(session, failure), View(), ok, n, calls)
      ensures calls + 2 >= old(calls)
      ensures old(calls) > 1 && session in old(sessions) && old(sessions)[session].state == Evaluating ==>
        && ok && moves == old(moves) + [Move(session, Evaluating, EvaluationFailed, FailureRoute(failure))]
        && sessions == old(sessions)[session := Session(EvaluationFailed, old(sessions)[session].version + 1)]
      ensures old(calls) > 0 && session in old(sessions) && old(sessions)[session].state != Evaluating ==>
        ok && View() == old(View())
      ensures session !in old(sessions) ==> !ok && View() == old(View())
    {
      ghost var before := View();
      ghost var event := EvaluationReportedFailed(session, failure);
      StepOne(before, event);
      var found := Get(session);
      if !found.Answered? {
        n := if found.Denied? then 1 else 0;
        return false, n;
      }
      StepNext(before, event, 1);
      if found.value.state != Evaluating { return true, 2; }
      var moved := TransitionTo(session, found.value, EvaluationFailed, FailureRoute(failure));
      if moved == Denied(StaleVersion) { return true, 2; }
      n := if moved.Unanswered? then 1 else 2;
      return moved.Answered?, n;
    }

    method RecordEvaluationCompleted(session: string) returns (ok: bool)
      modifies `calls, `sessions, `moves
      ensures ok ==> session in old(sessions)
      ensures ok ==> View() == MoveFrom(old(View()), session, Evaluating, ReviewReady, CompletionRoute)
      ensures !ok ==> View() == old(View()) && (session !in sessions || calls == 0)
      ensures calls + 2 >= old(calls)
      ensures ok && old(sessions)[session].state == Evaluating ==>
        && moves == old(moves) + [Move(session, Evaluating, ReviewReady, CompletionRoute)]
        && sessions == old(sessions)[session := Session(ReviewReady, old(sessions)[session].version + 1)]
      ensures ok && old(sessions)[session].state != Evaluating ==> View() == old(View())
    {
      var found := Get(session);
      if !found.Answered? { return false; }
      if found.value.state != Evaluating { return true; }
      var moved := TransitionTo(session, found.value, ReviewReady, CompletionRoute);
      return moved.Answered? || moved == Denied(StaleVersion);
    }

    method ResultOf(session: string) returns (r: Answer<Evaluation>)
      modifies `calls
      ensures old(calls) == 0 ==> r == Unanswered && calls == 0
      ensures old(calls) > 0 ==> calls == old(calls) - 1
      ensures old(calls) > 0 ==> r == if session in results then Answered(results[session]) else Denied(NotFound)
    {
      if calls == 0 { return Unanswered; }
      calls := calls - 1;
      if session !in results { return Denied(NotFound); }
      return Answered(results[session]);
    }

    method AppendObservations(session: string) returns (ok: bool)
      modifies `calls, `history
      ensures ok ==> session in results && View() == Written(old(View()), results[session])
      ensures !ok ==> View() == old(View()) && (session !in results || calls == 0)
      ensures calls + 2 >= old(calls)
    {
      var result := ResultOf(session);
      if !result.Answered? { return false; }
      ok := InsertObservations(result.value);
    }

    // The transition, then the projection: each tolerates having been done.
    method CompleteEvaluation(session: string) returns (ok: bool, ghost n: nat)
      modifies `calls, `sessions, `moves, `history
      ensures Took(old(View()), EvaluationReportedCompleted(session), View(), ok, n, calls)
      ensures calls + 4 >= old(calls)
      ensures ok ==> session in old(sessions) && session in results
      ensures ok && old(sessions)[session].state == Evaluating ==>
        && moves == old(moves) + [Move(session, Evaluating, ReviewReady, CompletionRoute)]
        && sessions == old(sessions)[session := Session(ReviewReady, old(sessions)[session].version + 1)]
      ensures ok && old(sessions)[session].state != Evaluating ==> moves == old(moves) && sessions == old(sessions)
    {
      ghost var before := View();
      ReportedCompletedSteps(before, session);
      var moved := RecordEvaluationCompleted(session);
      if !moved {
        n := if session in sessions then 0 else 1;
        return false, n;
      }
      ok := AppendObservations(session);
      n := if ok then 4 else if session in results then 2 else 3;
    }

    // The router's answer to one delivered event.
    method Handle(event: Event) returns (ok: bool, ghost n: nat)
      modifies this
      ensures Took(old(View()), event, View(), ok, n, calls)
      ensures old(calls) > 4 ==> (View(), ok) == Settled(old(View()), event)
    {
      ghost var before := View();
      match event {
        case SessionCreated(session) => ok, n := StartComposition(session);
        case SessionCompleted(session, purpose) => ok, n := StartEvaluations(session, purpose);
        case SessionInterrupted(session, resumable, attempt) => ok, n := StartGraceTimer(session, resumable, attempt);
        case EvaluationReportedFailed(session, failure) => ok, n := RecordEvaluationFailure(session, failure);
        case EvaluationReportedCompleted(session) => ok, n := CompleteEvaluation(session);
        case Undeliverable =>
          StepOne(before, event);
          ok, n := false, 1;
      }
      if old(calls) > 4 { StepsSettle(before, event, n); }
    }
  }

  // What a handler did: the first n steps of the protocol, all of them if it
  // returned nil, and as many as were answered otherwise.
  ghost predicate Took(before: Stores, event: Event, after: Stores, ok: bool, n: nat, calls: nat) {
    var (st, p) := Steps(before, event, n);
    after == st && (ok ==> p.Finished?) && (!ok ==> p.Failed? || calls == 0)
  }

  lemma StepNext(st: Stores, event: Event, n: nat)
    ensures var (st', p) := Steps(st, event, n); Steps(st, event, n + 1) == Act(st', event, p)
  {
  }

  lemma CompletedSteps(st: Stores, session: string, purpose: string)
    ensures var event := SessionCompleted(session, purpose);
      var st' := Execute(st, Evidence(session));
      && Steps(st, event, 1) == (st, Starting(Plan(event)))
      && Steps(st, event, 2) == (st', Starting(Plan(event)[1..]))
      && (purpose != PRACTICE ==> Steps(st, event, 3) == (st', Finished))
      && (purpose == PRACTICE ==> Steps(st, event, 4) == (Execute(st', Articulation(session)), Finished))
  {
    var event := SessionCompleted(session, purpose);
    StepOne(st, event);
    StepNext(st, event, 1);
    StepNext(st, event, 2);
    StepNext(st, event, 3);
  }

  lemma InterruptedSteps(st: Stores, session: string, resumable: bool, attempt: int)
    ensures var event := SessionInterrupted(session, resumable, attempt);
      && Steps(st, event, 1) == (st, if resumable then Starting(Plan(event)) else Finished)
      && (resumable ==> Steps(st, event, 3) == (Execute(st, Grace(session, attempt)), Finished))
  {
    var event := SessionInterrupted(session, resumable, attempt);
    StepOne(st, event);
    StepNext(st, event, 1);
    StepNext(st, event, 2);
  }

  lemma ReportedCompletedSteps(st: Stores, session: string)
    ensures var event := EvaluationReportedCompleted(session);
      && Steps(st, event, 0).0 == st
      && (session !in st.sessions ==> Steps(st, event, 1) == (st, Failed))
      && (session in st.sessions ==>
            var moved := MoveFrom(st, session, Evaluating, ReviewReady, CompletionRoute);
            && Steps(st, event, 2) == (moved, Fetching)
            && (session !in st.results ==> Steps(st, event, 3) == (moved, Failed))
            && (session in st.results ==> Steps(st, event, 4) == (Written(moved, st.results[session]), Finished)))
  {
    var event := EvaluationReportedCompleted(session);
    StepOne(st, event);
    StepNext(st, event, 1);
    StepNext(st, event, 2);
    StepNext(st, event, 3);
  }

  lemma StepOne(st: Stores, event: Event)
    ensures Steps(st, event, 0) == (st, Begun) && Steps(st, event, 1) == (st, Begin(st, event))
  {
  }
}
