/**
 * The worker's event routes as a protocol (services/platform/cmd/worker). The
 * outbox delivers at least once: a delivery may be repeated, may overlap
 * another of the same event, and may be cut off between any two of its steps.
 * A handler is the sequence of its atomic steps.
 */
module Delivery {
  import opened WorkflowIds
  import opened WorkerStores

  datatype Event =
    | SessionCreated(session: string)
    | SessionCompleted(session: string, purpose: string)
    | SessionInterrupted(session: string, resumable: bool, attempt: int)
    | EvaluationReportedFailed(session: string, failure: string)
    | EvaluationReportedCompleted(session: string)
    | Undeliverable // no handler is registered, or the payload does not decode

  const PRACTICE := "practice"

  // The workflows an event asks for, in the order they are started.
  function Plan(event: Event): seq<Start> {
    match event
    case SessionCreated(session) => [Composition(session)]
    case SessionCompleted(session, purpose) =>
      [Evidence(session)] + (if purpose == PRACTICE then [Articulation(session)] else [])
    case SessionInterrupted(session, resumable, attempt) =>
      if resumable then [Grace(session, attempt)] else []
    case _ => []
  }

  // Where a delivery stands.
  datatype Point =
    | Begun
    | Holding(seen: Session)        // the session has been read
    | Starting(left: seq<Start>)    // workflows still to be started
    | Fetching                      // the projection is about to read the result
    | Projecting(result: Evaluation)    // and has read it
    | Finished                      // the handler returned nil
    | Failed                        // the handler returned an error

  predicate Ended(p: Point) {
    p.Finished? || p.Failed?
  }

  // One atomic step of the handler of an event.
  function Act(st: Stores, event: Event, p: Point): (Stores, Point) {
    match p
    case Begun => (st, Begin(st, event))
    case Holding(seen) => Decide(st, event, seen)
    case Starting(left) =>
      if left == [] then (st, Finished) else (Execute(st, left[0]), Starting(left[1..]))
    case Fetching =>
      if event.EvaluationReportedCompleted? && event.session in st.results
      then (st, Projecting(st.results[event.session]))
      else (st, Failed)
    case Projecting(result) =>
      (st.(history := Append(st.history, result.evaluation, result.readings)), Finished)
    case _ => (st, p)
  }

  function Begin(st: Stores, event: Event): Point {
    match event
    case Undeliverable => Failed
    case SessionCompleted(_, _) => Starting(Plan(event))
    case SessionInterrupted(_, resumable, _) => if resumable then Starting(Plan(event)) else Finished
    case _ => if event.session in st.sessions then Holding(st.sessions[event.session]) else Failed
  }

  // What a handler does with the session it read.
  function Decide(st: Stores, event: Event, seen: Session): (Stores, Point) {
    match event
    case SessionCreated(session) =>
      if seen.state == Draft then
        match Transition(st, session, seen, Composing, CompositionRoute)
        case Moved(st') => (st', Starting(Plan(event)))
        case Refused(_) => (st, Failed)
      else if seen.state == Composing then (st, Starting(Plan(event)))
      else (st, Finished)
    case EvaluationReportedFailed(session, failure) =>
      if seen.state != Evaluating then (st, Finished)
      else
        (match Transition(st, session, seen, EvaluationFailed, FailureRoute(failure))
         case Moved(st') => (st', Finished)
         case Refused(why) => (st, if why == StaleVersion then Finished else Failed))
    case EvaluationReportedCompleted(session) =>
      if seen.state != Evaluating then (st, Fetching)
      else
        (match Transition(st, session, seen, ReviewReady, CompletionRoute)
         case Moved(st') => (st', Fetching)
         case Refused(why) => (st, if why == StaleVersion then Fetching else Failed))
    case _ => (st, Failed)
  }

  // ------------------------------------------------------------- the system

  datatype Entry = Entry(event: Event, delivered: bool)

  // A delivery under way, and how many moves had been made when it began.
  datatype Run = Run(event: nat, point: Point, since: nat)

  datatype System = System(stores: Stores, outbox: map<nat, Entry>, running: map<nat, Run>)

  const INITIAL := System(Stores(map[], [], [], map[], []), map[], map[])

  datatype Step =
    | Create(session: string)
    | Relocate(session: string, to: State)         // any other actor, along the lifecycle
    | Evaluate(session: string, result: Evaluation)    // a result is stored once
    | Publish(event: nat, body: Event)
    | Deliver(event: nat, run: nat)
    | Advance(run: nat)
    | Cut(run: nat)                                // a crash, a timeout, or an error of the transport
    | Settle(run: nat)                             // the handler has returned

  ghost predicate Enabled(s: System, step: Step) {
    match step
    case Create(session) => session !in s.stores.sessions
    case Relocate(session, to) =>
      session in s.stores.sessions && to in NextStates(s.stores.sessions[session].state)
    case Evaluate(session, result) =>
      && session !in s.stores.results
      && forall other | other in s.stores.results :: s.stores.results[other].evaluation != result.evaluation
    case Publish(event, body) => event !in s.outbox
    case Deliver(event, run) => event in s.outbox && !s.outbox[event].delivered && run !in s.running
    case Advance(run) => run in s.running && s.running[run].event in s.outbox && !Ended(s.running[run].point)
    case Cut(run) => run in s.running
    case Settle(run) => run in s.running && s.running[run].event in s.outbox && Ended(s.running[run].point)
  }

  ghost function Apply(s: System, step: Step): System
    requires Enabled(s, step)
  {
    match step
    case Create(session) =>
      s.(stores := s.stores.(sessions := s.stores.sessions[session := Session(Draft, 1)]))
    case Relocate(session, to) =>
      var seen := s.stores.sessions[session];
      s.(stores := Transition(s.stores, session, seen, to, Elsewhere).st)
    case Evaluate(session, result) =>
      s.(stores := s.stores.(results := s.stores.results[session := result]))
    case Publish(event, body) => s.(outbox := s.outbox[event := Entry(body, false)])
    case Deliver(event, run) => s.(running := s.running[run := Run(event, Begun, |s.stores.moves|)])
    case Advance(run) =>
      var r := s.running[run];
      var (st, p) := Act(s.stores, s.outbox[r.event].event, r.point);
      s.(stores := st, running := s.running[run := Run(r.event, p, r.since)])
    case Cut(run) => s.(running := s.running - {run})
    case Settle(run) =>
      var r := s.running[run];
      s.(running := s.running - {run},
         outbox := if r.point.Finished? then s.outbox[r.event := s.outbox[r.event].(delivered := true)] else s.outbox)
  }

  // A run of the whole system: any steps, in any order, each possible when taken.
  ghost predicate Possible(s: System, steps: seq<Step>)
    decreases |steps|
  {
    steps == [] || (Enabled(s, steps[0]) && Possible(Apply(s, steps[0]), steps[1..]))
  }

  ghost function After(s: System, steps: seq<Step>): System
    requires Possible(s, steps)
    decreases |steps|
  {
    if steps == [] then s else After(Apply(s, steps[0]), steps[1..])
  }
}
