/**
 * StartScreeningSession of cmd/api/screening_adapter.go as a sequence of atomic
 * reads and writes that may be cut off between any two of them. Starts of one
 * candidate do not overlap; those of different candidates do.
 */
module ScreeningStarts {
  import opened Wrappers
  import opened WorkerStores
  import Wrapping

  // A recruiter's decision to let a candidate try again, and the session that
  // claimed it.
  datatype Authorization = Authorization(candidate: string, campaign: string, session: Option<string>)

  datatype Screening = Screening(candidate: string, campaign: string, disclosure: string, row: Session)

  // What was written, in order.
  datatype Entry =
    | Accepted(candidate: string, campaign: string, disclosure: string)
    | Created(candidate: string, campaign: string, disclosure: string, session: string)

  datatype Records = Records(
    invited: set<(string, string)>,        // candidate and campaign of each accepted invitation
    open: set<string>,                     // campaigns
    authorizations: seq<Authorization>,    // oldest first
    log: seq<Entry>,
    sessions: map<string, Screening>)

  // One request to start, under the session identity drawn for it.
  datatype Start = Start(candidate: string, campaign: string, disclosure: string, digest: string, session: string)

  datatype Refusal = SessionMissing | CampaignNotOpen | ReInvitationRequired | DisclosureInvalid | NotMoved

  datatype Point =
    | Begun
    | Invited
    | Admitted
    | Claiming
    | Accepting
    | Creating
    | Made
    | Holding(seen: Session)
    | Started
    | Declined(why: Refusal)

  predicate Ended(p: Point) {
    p.Started? || p.Declined?
  }

  predicate IsHex(c: char) {
    '0' <= c <= '9' || 'a' <= c <= 'f'
  }

  // "sha256:" and 64 hexadecimal digits.
  predicate IsDigest(s: string) {
    |s| == 71 && s[..7] == "sha256:" && forall i | 7 <= i < 71 :: IsHex(s[i])
  }

  // What NewAcceptance does not refuse to record.
  predicate Acceptable(start: Start) {
    && !Wrapping.Blank(start.disclosure) && IsDigest(start.digest)
    && !Wrapping.Blank(start.campaign) && !Wrapping.Blank(start.candidate)
  }

  predicate HasSession(r: Records, candidate: string, campaign: string) {
    exists s :: s in r.sessions && r.sessions[s].candidate == candidate && r.sessions[s].campaign == campaign
  }

  predicate IsFree(a: Authorization, candidate: string, campaign: string) {
    a.candidate == candidate && a.campaign == campaign && a.session.None?
  }

  // The oldest authorization the candidate has not claimed, or past the end.
  function Oldest(authorizations: seq<Authorization>, candidate: string, campaign: string): (n: nat)
    ensures n <= |authorizations|
    ensures n < |authorizations| ==> IsFree(authorizations[n], candidate, campaign)
    ensures forall i | 0 <= i < n :: !IsFree(authorizations[i], candidate, campaign)
  {
    if authorizations == [] || IsFree(authorizations[0], candidate, campaign) then 0
    else Oldest(authorizations[1..], candidate, campaign) + 1
  }

  function Claim(r: Records, start: Start): Option<Records> {
    var n := Oldest(r.authorizations, start.candidate, start.campaign);
    if n == |r.authorizations| then None
    else Some(r.(authorizations := r.authorizations[n := r.authorizations[n].(session := Some(start.session))]))
  }

  function Written(r: Records, start: Start): Records {
    r.(log := r.log + [Created(start.candidate, start.campaign, start.disclosure, start.session)],
       sessions := r.sessions[start.session :=
         Screening(start.candidate, start.campaign, start.disclosure, Session(Draft, 1))])
  }

  // One atomic step of a start.
  function Act(r: Records, start: Start, p: Point): (Records, Point) {
    match p
    case Begun => (r, if (start.candidate, start.campaign) in r.invited then Invited else Declined(SessionMissing))
    case Invited => (r, if start.campaign in r.open then Admitted else Declined(CampaignNotOpen))
    case Admitted => (r, if HasSession(r, start.candidate, start.campaign) then Claiming else Accepting)
    case Claiming =>
      (match Claim(r, start)
       case Some(r') => (r', Accepting)
       case None => (r, Declined(ReInvitationRequired)))
    case Accepting =>
      if !Acceptable(start) then (r, Declined(DisclosureInvalid))
      else (r.(log := r.log + [Accepted(start.candidate, start.campaign, start.disclosure)]), Creating)
    case Creating => (Written(r, start), Made)
    case Made =>
      (r, if start.session in r.sessions then Holding(r.sessions[start.session].row) else Declined(SessionMissing))
    case Holding(seen) =>
      if Composing in NextStates(seen.state) && start.session in r.sessions && r.sessions[start.session].row == seen
      then (MovedTo(r, start.session, Composing), Started)
      else (r, Declined(NotMoved))
    case _ => (r, p)
  }

  function MovedTo(r: Records, session: string, to: State): Records
    requires session in r.sessions
  {
    var s := r.sessions[session];
    r.(sessions := r.sessions[session := s.(row := Session(to, s.row.version + 1))])
  }

  // ------------------------------------------------------------- the system

  datatype Run = Run(start: Start, point: Point)

  // Runs are held under their candidate; an identity is drawn once.
  datatype System = System(records: Records, running: map<string, Run>, drawn: set<string>)

  const INITIAL := System(Records({}, {}, [], [], map[]), map[], {})

  datatype Step =
    | Invite(candidate: string, campaign: string)
    | SetOpen(campaign: string, open: bool)
    | Authorize(candidate: string, campaign: string)
    | Relocate(session: string, to: State)
    | Begin(start: Start)
    | Advance(candidate: string)
    | Leave(candidate: string)      // the request ends, or is cut off where it stands

  ghost predicate Enabled(s: System, step: Step) {
    match step
    case Relocate(session, to) =>
      session in s.records.sessions && to in NextStates(s.records.sessions[session].row.state)
    case Begin(start) => start.candidate !in s.running && start.session !in s.drawn
    case Advance(candidate) => candidate in s.running && !Ended(s.running[candidate].point)
    case Leave(candidate) => candidate in s.running
    case _ => true
  }

  ghost function Apply(s: System, step: Step): System
    requires Enabled(s, step)
  {
    var r := s.records;
    match step
    case Invite(candidate, campaign) => s.(records := r.(invited := r.invited + {(candidate, campaign)}))
    case SetOpen(campaign, open) =>
      s.(records := r.(open := if open then r.open + {campaign} else r.open - {campaign}))
    case Authorize(candidate, campaign) =>
      s.(records := r.(authorizations := r.authorizations + [Authorization(candidate, campaign, None)]))
    case Relocate(session, to) => s.(records := MovedTo(r, session, to))
    case Begin(start) =>
      s.(running := s.running[start.candidate := Run(start, Begun)], drawn := s.drawn + {start.session})
    case Advance(candidate) =>
      var run := s.running[candidate];
      var (r', p) := Act(r, run.start, run.point);
      s.(records := r', running := s.running[candidate := Run(run.start, p)])
    case Leave(candidate) => s.(running := s.running - {candidate})
  }

  ghost predicate Possible(s: System, steps: seq<Step>)
    decreases |steps|
  {
    steps == [] || (Enabled(s, steps[0]) && Possible(Apply(s, steps[0]), steps[1..]))
  }

  ghost function After(s: System, steps: seq<Step>): System
    requires Possible(s, steps)
    decreases |steps|
  {
    if steps == [] then s else After(Apply(s, steps[0]), steps[1..])
  }

  // ------------------------------------------------------------- invariants

  // The session has an authorization of its own, naming it.
  predicate HasClaim(r: Records, session: string)
    requires session in r.sessions
  {
    Authorization(r.sessions[session].candidate, r.sessions[session].campaign, Some(session)) in r.authorizations
  }

  predicate Claimed(r: Records, start: Start) {
    Authorization(start.candidate, start.campaign, Some(start.session)) in r.authorizations
  }

  ghost predicate Named(r: Records, session: string) {
    exists a :: a in r.authorizations && a.session == Some(session)
  }

  ghost predicate SamePlace(r: Records, s: string, t: string)
    requires s in r.sessions && t in r.sessions
  {
    r.sessions[s].candidate == r.sessions[t].candidate && r.sessions[s].campaign == r.sessions[t].campaign
  }

  // Of two sessions in one place, at least one was authorized.
  ghost predicate Accounted(r: Records) {
    forall s, t | s in r.sessions && t in r.sessions && s != t && SamePlace(r, s, t) :: HasClaim(r, s) || HasClaim(r, t)
  }

  // No session claims two authorizations.
  ghost predicate ClaimsOnce(r: Records) {
    forall i, j | 0 <= i < j < |r.authorizations| && r.authorizations[i].session.Some? ::
      r.authorizations[i].session != r.authorizations[j].session
  }

  ghost predicate AcceptedBefore(log: seq<Entry>, i: nat)
    requires i < |log| && log[i].Created?
  {
    Accepted(log[i].candidate, log[i].campaign, log[i].disclosure) in log[..i]
  }

  ghost predicate InOrder(log: seq<Entry>) {
    forall i | 0 <= i < |log| && log[i].Created? :: AcceptedBefore(log, i)
  }

  ghost predicate Logged(r: Records) {
    forall s | s in r.sessions ::
      Created(r.sessions[s].candidate, r.sessions[s].campaign, r.sessions[s].disclosure, s) in r.log
  }

  ghost predicate RecordsHold(r: Records) {
    Accounted(r) && ClaimsOnce(r) && InOrder(r.log) && Logged(r)
  }

  // What holds of one run against the records.
  ghost predicate Fits(r: Records, start: Start, p: Point) {
    && ((p.Begun? || p.Invited? || p.Admitted? || p.Claiming?) ==> !Named(r, start.session))
    && ((p.Begun? || p.Invited? || p.Admitted? || p.Claiming? || p.Accepting? || p.Creating?) ==>
          start.session !in r.sessions)
    && ((p.Accepting? || p.Creating?) ==> Claimed(r, start) || !HasSession(r, start.candidate, start.campaign))
    && (p.Creating? ==> Accepted(start.candidate, start.campaign, start.disclosure) in r.log)
  }

  ghost predicate RunHolds(s: System, candidate: string)
    requires candidate in s.running
  {
    var run := s.running[candidate];
    run.start.candidate == candidate && run.start.session in s.drawn && Fits(s.records, run.start, run.point)
  }

  ghost predicate Drawn(s: System) {
    && (forall session | session in s.records.sessions :: session in s.drawn)
    && (forall a | a in s.records.authorizations && a.session.Some? :: a.session.value in s.drawn)
    && (forall a, b | a in s.running && b in s.running && a != b ::
          s.running[a].start.session != s.running[b].start.session)
  }

  ghost predicate Inv(s: System) {
    && RecordsHold(s.records) && Drawn(s)
    && forall candidate | candidate in s.running :: RunHolds(s, candidate)
  }
}
