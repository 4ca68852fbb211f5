/**
 * The stores the worker's handlers write to, with the contracts their own code
 * states: a session moves only along the lifecycle and only from the version
 * that was read, a workflow identity starts once, and an observation row is
 * written once for each evaluation and competency.
 */
module WorkerStores {
  import opened Wrappers
  import opened WorkflowIds

  datatype State =
    | Draft | Composing | Ready | Connecting | InProgress | Reconnecting | Finalizing | Evaluating
    | ReviewReady | Archived | Cancelled | Expired | CompositionFailed | Interrupted
    | FinalizationFailed | EvaluationFailed

  // The lifecycle diagram.
  function NextStates(from: State): set<State> {
    match from
    case Draft => {Composing, Cancelled}
    case Composing => {Ready, CompositionFailed}
    case CompositionFailed => {Composing}
    case Ready => {Connecting, Expired}
    case Connecting => {InProgress, Ready}
    case InProgress => {Reconnecting, Finalizing}
    case Reconnecting => {InProgress, Finalizing}
    case Finalizing => {Evaluating, FinalizationFailed}
    case FinalizationFailed => {Finalizing}
    case Evaluating => {ReviewReady, EvaluationFailed}
    case EvaluationFailed => {Evaluating}
    case ReviewReady => {Archived}
    case _ => {}
  }

  datatype Session = Session(state: State, version: nat)

  // Who moved a session: one of the handlers modelled here, or anything else.
  datatype Mover = CompositionRoute | FailureRoute(code: string) | CompletionRoute | Elsewhere

  datatype Move = Move(session: string, from: State, to: State, mover: Mover)

  datatype Reading = Reading(competency: string, band: string)

  datatype Evaluation = Evaluation(evaluation: string, readings: seq<Reading>)

  datatype Row = Row(evaluation: string, competency: string, band: string)

  datatype Stores = Stores(
    sessions: map<string, Session>,
    moves: seq<Move>,
    starts: seq<Start>,
    results: map<string, Evaluation>,
    history: seq<Row>)

  datatype Refusal = TransitionInvalid | NotFound | StaleVersion

  // interview.Store.Transition: the machine refuses an edge that is not in the
  // diagram; the update then applies only if state and version still are what
  // the caller read.
  function Transition(st: Stores, session: string, seen: Session, to: State, mover: Mover): Outcome {
    if to !in NextStates(seen.state) then Refused(TransitionInvalid)
    else if session !in st.sessions then Refused(NotFound)
    else if st.sessions[session] != seen then Refused(StaleVersion)
    else Moved(st.(
      sessions := st.sessions[session := Session(to, seen.version + 1)],
      moves := st.moves + [Move(session, seen.state, to, mover)]))
  }

  datatype Outcome = Moved(st: Stores) | Refused(why: Refusal)

  predicate HasStarted(starts: seq<Start>, id: string) {
    exists i :: 0 <= i < |starts| && Id(starts[i]) == id
  }

  // ExecuteWorkflow under the policy that rejects duplicates: an identity seen
  // before is answered as already started, which callers treat as success.
  function Execute(st: Stores, start: Start): Stores {
    if HasStarted(st.starts, Id(start)) then st else st.(starts := st.starts + [start])
  }

  predicate HasRow(history: seq<Row>, evaluation: string, competency: string) {
    exists i :: 0 <= i < |history| && history[i].evaluation == evaluation && history[i].competency == competency
  }

  // One insert, which does nothing where the pair already has a row.
  function Insert(history: seq<Row>, row: Row): seq<Row> {
    if HasRow(history, row.evaluation, row.competency) then history else history + [row]
  }

  // progression.Store.Append: one transaction over all the readings.
  function Append(history: seq<Row>, evaluation: string, readings: seq<Reading>): seq<Row>
    decreases |readings|
  {
    if readings == [] then history
    else
      Append(Insert(history, Row(evaluation, readings[0].competency, readings[0].band)), evaluation, readings[1..])
  }

  // The reading of a competency that counts, should a result list it twice.
  function FirstReading(readings: seq<Reading>, competency: string): Option<string> {
    if readings == [] then None
    else if readings[0].competency == competency then Some(readings[0].band)
    else FirstReading(readings[1..], competency)
  }
}
