/**
 * What an acknowledged report of an evaluation says of its session: that it was
 * out of evaluating at some point while the report was being delivered.
 */
module DeliveryDecisions {
  import opened WorkerStores
  import opened Delivery
  import opened DeliverySafety
  import opened DeliveryTheorems

  // After some number of moves not smaller than this one, the session was not
  // evaluating.
  ghost predicate OutSince(moves: seq<Move>, since: nat, session: string) {
    exists k :: since <= k <= |moves| && StateOf(moves[..k], session) != Evaluating
  }

  ghost predicate Untouched(moves: seq<Move>, k: nat, session: string) {
    forall j | k <= j < |moves| :: moves[j].session != session
  }

  // The session was as it was seen after some number of moves, and still is unless
  // it has been moved.
  ghost predicate SeenAt(st: Stores, k: nat, session: string, seen: Session) {
    && k <= |st.moves| && StateOf(st.moves[..k], session) == seen.state
    && (Untouched(st.moves, k, session) ==> session in st.sessions && st.sessions[session] == seen)
  }

  ghost predicate SeenSince(st: Stores, since: nat, session: string, seen: Session) {
    exists k :: since <= k && SeenAt(st, k, session, seen)
  }

  predicate IsReport(event: Event) {
    event.EvaluationReportedFailed? || event.EvaluationReportedCompleted?
  }

  ghost predicate Decides(st: Stores, event: Event, p: Point, since: nat) {
    && since <= |st.moves|
    && (IsReport(event) ==>
          match p
          case Holding(seen) => SeenSince(st, since, event.session, seen)
          case Starting(_) => false
          case Fetching => OutSince(st.moves, since, event.session)
          case Projecting(_) => OutSince(st.moves, since, event.session)
          case Finished => OutSince(st.moves, since, event.session)
          case _ => true)
  }

  ghost predicate AllDecide(s: System) {
    forall run | run in s.running ::
      && s.running[run].event in s.outbox
      && Decides(s.stores, s.outbox[s.running[run].event].event, s.running[run].point, s.running[run].since)
  }

  // A session changes only by a move of its own.
  ghost predicate Quiet(a: Stores, b: Stores) {
    && a.moves <= b.moves
    && forall session | session in a.sessions && Untouched(b.moves, |a.moves|, session) ::
         session in b.sessions && b.sessions[session] == a.sessions[session]
  }

  lemma OutStays(a: seq<Move>, b: seq<Move>, since: nat, session: string)
    requires a <= b && OutSince(a, since, session)
    ensures OutSince(b, since, session)
  {
    var k :| since <= k <= |a| && StateOf(a[..k], session) != Evaluating;
    assert b[..k] == a[..k];
  }

  lemma SeenStays(a: Stores, b: Stores, since: nat, session: string, seen: Session)
    requires Quiet(a, b) && SeenSince(a, since, session, seen)
    ensures SeenSince(b, since, session, seen)
  {
    var k :| since <= k && SeenAt(a, k, session, seen);
    assert b.moves[..k] == a.moves[..k];
    if Untouched(b.moves, k, session) {
      forall j | k <= j < |a.moves| ensures a.moves[j].session != session { assert b.moves[j] == a.moves[j]; }
      assert Untouched(b.moves, |a.moves|, session);
    }
    assert SeenAt(b, k, session, seen);
  }

  lemma DecidesStays(a: Stores, b: Stores, event: Event, p: Point, since: nat)
    requires Quiet(a, b) && Decides(a, event, p, since)
    ensures Decides(b, event, p, since)
  {
    if IsReport(event) {
      match p
      case Holding(seen) => SeenStays(a, b, since, event.session, seen);
      case Fetching => OutStays(a.moves, b.moves, since, event.session);
      case Projecting(_) => OutStays(a.moves, b.moves, since, event.session);
      case Finished => OutStays(a.moves, b.moves, since, event.session);
      case _ =>
    }
  }

  // A session that was evaluating and has been moved since was somewhere else.
  lemma {:induction false} MovedMeansOut(moves: seq<Move>, k: nat, session: string)
    requires forall i | 0 <= i < |moves| :: MoveFollows(moves, i)
    requires k <= |moves| && !Untouched(moves, k, session)
    ensures OutSince(moves, k, session)
    decreases |moves| - k
  {
    if StateOf(moves[..k], session) == Evaluating {
      assert moves[..k + 1][..k] == moves[..k] && MoveFollows(moves, k);
      if moves[k].session == session {
        assert StateOf(moves[..k + 1], session) == moves[k].to;
      } else {
        MovedMeansOut(moves, k + 1, session);
        var out :| k + 1 <= out <= |moves| && StateOf(moves[..out], session) != Evaluating;
      }
    }
  }

  lemma TransitionIsQuiet(st: Stores, session: string, seen: Session, to: State, mover: Mover)
    ensures var t := Transition(st, session, seen, to, mover);
      t.Moved? ==>
        && Quiet(st, t.st)
        && StateOf(t.st.moves, session) == to && t.st.moves[..|t.st.moves|] == t.st.moves
  {
    var t := Transition(st, session, seen, to, mover);
    if t.Moved? { assert t.st.moves[|st.moves|].session == session; }
  }

  // A session that was seen has been out of evaluating since, or is as it was seen.
  lemma SeenOrOut(st: Stores, session: string, seen: Session, since: nat)
    requires MovesFollow(st) && SeenSince(st, since, session, seen)
    ensures OutSince(st.moves, since, session)
      || (seen.state == Evaluating && session in st.sessions && st.sessions[session] == seen)
  {
    var k :| since <= k && SeenAt(st, k, session, seen);
    if seen.state == Evaluating && !Untouched(st.moves, k, session) {
      MovedMeansOut(st.moves, k, session);
      var out :| k <= out <= |st.moves| && StateOf(st.moves[..out], session) != Evaluating;
    }
  }

  // What a report's handler does with the session leaves it decided.
  lemma ReportDecides(st: Stores, event: Event, seen: Session, since: nat)
    requires IsReport(event) && MovesFollow(st) && Decides(st, event, Holding(seen), since)
    ensures var (st', p') := Decide(st, event, seen);
      Quiet(st, st') && Decides(st', event, p', since)
  {
    SeenOrOut(st, event.session, seen, since);
    match event
    case EvaluationReportedFailed(session, failure) =>
      TransitionIsQuiet(st, session, seen, EvaluationFailed, FailureRoute(failure));
    case EvaluationReportedCompleted(session) =>
      TransitionIsQuiet(st, session, seen, ReviewReady, CompletionRoute);
  }

  lemma BeginDecides(st: Stores, event: Event, since: nat)
    requires MovesFollow(st) && Decides(st, event, Begun, since)
    ensures Decides(st, event, Begin(st, event), since)
  {
    if IsReport(event) && event.session in st.sessions {
      assert st.moves[..|st.moves|] == st.moves;
      assert SeenAt(st, |st.moves|, event.session, st.sessions[event.session]);
    }
  }

  lemma DecideDecides(st: Stores, event: Event, seen: Session, since: nat)
    requires MovesFollow(st) && PointHolds(st, event, Holding(seen)) && Decides(st, event, Holding(seen), since)
    ensures var (st', p') := Decide(st, event, seen); Quiet(st, st') && Decides(st', event, p', since)
  {
    if IsReport(event) {
      ReportDecides(st, event, seen, since);
    } else {
      TransitionIsQuiet(st, event.session, seen, Composing, CompositionRoute);
    }
  }

  // From there on nothing moves, and a report's delivery only reads and projects.
  lemma LaterIsStill(st: Stores, event: Event, p: Point)
    requires !p.Begun? && !p.Holding?
    ensures var (st', p') := Act(st, event, p);
      && st'.moves == st.moves && st'.sessions == st.sessions && !p'.Begun? && !p'.Holding?
      && (p'.Starting? ==> p.Starting?)
      && (p'.Fetching? || p'.Projecting? || p'.Finished? ==>
            p.Starting? || p.Fetching? || p.Projecting? || p.Finished?)
  {
  }

  lemma LaterDecides(st: Stores, event: Event, p: Point, since: nat)
    requires Decides(st, event, p, since) && !p.Begun? && !p.Holding?
    ensures var (st', p') := Act(st, event, p); Quiet(st, st') && Decides(st', event, p', since)
  {
    LaterIsStill(st, event, p);
    StillDecides(st, Act(st, event, p).0, event, p, Act(st, event, p).1, since);
  }

  lemma StillDecides(a: Stores, b: Stores, event: Event, p: Point, q: Point, since: nat)
    requires Decides(a, event, p, since) && !p.Begun? && !p.Holding? && !q.Begun? && !q.Holding?
    requires b.moves == a.moves && b.sessions == a.sessions
    requires q.Starting? ==> p.Starting?
    requires q.Fetching? || q.Projecting? || q.Finished? ==> p.Starting? || p.Fetching? || p.Projecting? || p.Finished?
    ensures Quiet(a, b) && Decides(b, event, q, since)
  {
  }

  lemma ActDecides(st: Stores, event: Event, p: Point, since: nat)
    requires MovesFollow(st) && PointHolds(st, event, p) && Decides(st, event, p, since)
    ensures var (st', p') := Act(st, event, p); Quiet(st, st') && Decides(st', event, p', since)
  {
    match p
    case Begun => BeginDecides(st, event, since);
    case Holding(seen) => DecideDecides(st, event, seen, since);
    case _ => LaterDecides(st, event, p, since);
  }

  lemma OthersDecide(s: System, s': System)
    requires AllDecide(s) && Quiet(s.stores, s'.stores)
    requires forall e | e in s.outbox :: e in s'.outbox && s'.outbox[e].event == s.outbox[e].event
    ensures forall run | run in s.running ::
      && s.running[run].event in s'.outbox
      && Decides(s'.stores, s'.outbox[s.running[run].event].event, s.running[run].point, s.running[run].since)
  {
    forall run | run in s.running
      ensures Decides(s'.stores, s'.outbox[s.running[run].event].event, s.running[run].point, s.running[run].since)
    {
      DecidesStays(s.stores, s'.stores, s.outbox[s.running[run].event].event, s.running[run].point, s.running[run].since);
    }
  }

  lemma StepDecides(s: System, step: Step)
    requires Inv(s) && MovesFollow(s.stores) && AllDecide(s) && Enabled(s, step)
    ensures AllDecide(Apply(s, step))
  {
    var s' := Apply(s, step);
    match step
    case Advance(run) =>
      var r := s.running[run];
      ActDecides(s.stores, s.outbox[r.event].event, r.point, r.since);
      OthersDecide(s, s');
    case Relocate(session, to) =>
      TransitionIsQuiet(s.stores, session, s.stores.sessions[session], to, Elsewhere);
      OthersDecide(s, s');
    case _ => OthersDecide(s, s');
  }

  lemma {:induction false} RunsDecide(s: System, steps: seq<Step>)
    requires Inv(s) && MovesFollow(s.stores) && AllDecide(s) && Possible(s, steps)
    ensures AllDecide(After(s, steps))
    decreases |steps|
  {
    if steps != [] {
      StepDecides(s, steps[0]);
      StepKeepsInv(s, steps[0]);
      StepFollows(s, steps[0]);
      RunsDecide(Apply(s, steps[0]), steps[1..]);
    }
  }

  // A delivery of an evaluation report that is about to be acknowledged found its
  // session out of evaluating, or took it out, or lost to something that did: at
  // some point since that delivery began the session was not evaluating.
  lemma AcknowledgedReportLeavesItDecided(steps: seq<Step>, run: nat)
    requires Possible(INITIAL, steps) && run in After(INITIAL, steps).running
    requires After(INITIAL, steps).running[run].point.Finished?
    requires After(INITIAL, steps).running[run].event in After(INITIAL, steps).outbox
    requires IsReport(After(INITIAL, steps).outbox[After(INITIAL, steps).running[run].event].event)
    ensures var s := After(INITIAL, steps);
      OutSince(s.stores.moves, s.running[run].since, s.outbox[s.running[run].event].event.session)
  {
    RunsDecide(INITIAL, steps);
  }
}
