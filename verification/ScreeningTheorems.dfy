/**
 * What starting a screening session promises, in every run.
 */
module ScreeningTheorems {
  import opened Wrappers
  import opened WorkerStores
  import opened ScreeningStarts

  // --------------------------------------------------------- one step of a run

  predicate SameOwner(a: Screening, b: Screening) {
    a.candidate == b.candidate && a.campaign == b.campaign
  }

  lemma AccountedStays(r: Records, r': Records)
    requires Accounted(r)
    requires forall s | s in r'.sessions :: s in r.sessions && SameOwner(r.sessions[s], r'.sessions[s])
    requires forall a | a in r.authorizations && a.session.Some? :: a in r'.authorizations
    ensures Accounted(r')
  {
    forall s, t | s in r'.sessions && t in r'.sessions && s != t && SamePlace(r', s, t)
      ensures HasClaim(r', s) || HasClaim(r', t)
    {
      assert SamePlace(r, s, t);
    }
  }

  // The claimed authorizations are those of before and the one just bound.
  lemma ClaimBinds(r: Records, start: Start)
    requires ClaimsOnce(r) && !Named(r, start.session) && Claim(r, start).Some?
    ensures var r' := Claim(r, start).value;
      && Claimed(r', start) && ClaimsOnce(r')
      && (forall a | a in r.authorizations && a.session.Some? :: a in r'.authorizations)
      && (forall a | a in r'.authorizations :: a in r.authorizations || a.session == Some(start.session))
  {
    var n := Oldest(r.authorizations, start.candidate, start.campaign);
    var r' := Claim(r, start).value;
    assert r'.authorizations[n] == Authorization(start.candidate, start.campaign, Some(start.session));
    forall a | a in r.authorizations && a.session.Some? ensures a in r'.authorizations {
      var i :| 0 <= i < |r.authorizations| && r.authorizations[i] == a;
      assert r'.authorizations[i] == a;
    }
    forall a | a in r'.authorizations ensures a in r.authorizations || a.session == Some(start.session) {
      var i :| 0 <= i < |r'.authorizations| && r'.authorizations[i] == a;
      if i != n { assert r.authorizations[i] == a; }
    }
    forall i, j | 0 <= i < j < |r'.authorizations| && r'.authorizations[i].session.Some?
      ensures r'.authorizations[i].session != r'.authorizations[j].session
    {
      if i == n { assert r.authorizations[j] in r.authorizations; }
      if j == n { assert r.authorizations[i] in r.authorizations; }
    }
  }

  // Claiming binds the oldest free authorization and disturbs no other.
  lemma ClaimHolds(r: Records, start: Start)
    requires RecordsHold(r) && !Named(r, start.session) && Claim(r, start).Some?
    ensures var r' := Claim(r, start).value;
      RecordsHold(r') && Claimed(r', start) && Disturbs(r, r', start)
  {
    ClaimBinds(r, start);
    AccountedStays(r, Claim(r, start).value);
  }

  // A session created now is authorized, or the first of its candidate there.
  lemma CreateAccounts(r: Records, start: Start)
    requires Accounted(r) && start.session !in r.sessions
    requires Claimed(r, start) || !HasSession(r, start.candidate, start.campaign)
    ensures Accounted(Written(r, start))
  {
    var r' := Written(r, start);
    forall s, t | s in r'.sessions && t in r'.sessions && s != t && SamePlace(r', s, t)
      ensures HasClaim(r', s) || HasClaim(r', t)
    {
      if s in r.sessions && t in r.sessions {
        assert SamePlace(r, s, t);
      } else {
        assert HasSession(r, start.candidate, start.campaign);
      }
    }
  }

  lemma CreateLogs(r: Records, start: Start)
    requires InOrder(r.log) && Logged(r)
    requires Accepted(start.candidate, start.campaign, start.disclosure) in r.log
    ensures InOrder(Written(r, start).log) && Logged(Written(r, start))
  {
    var r' := Written(r, start);
    LogGrows(r.log, Created(start.candidate, start.campaign, start.disclosure, start.session));
    assert r'.log[|r.log|] in r'.log;
  }

  lemma CreateHolds(r: Records, start: Start)
    requires RecordsHold(r) && start.session !in r.sessions
    requires Claimed(r, start) || !HasSession(r, start.candidate, start.campaign)
    requires Accepted(start.candidate, start.campaign, start.disclosure) in r.log
    ensures RecordsHold(Written(r, start)) && Disturbs(r, Written(r, start), start)
  {
    CreateAccounts(r, start);
    CreateLogs(r, start);
    HasSessionGrows(r, Written(r, start), start);
  }

  lemma HasSessionGrows(r: Records, r': Records, start: Start)
    requires forall s | s in r'.sessions :: (s in r.sessions && SameOwner(r.sessions[s], r'.sessions[s]))
                                            || r'.sessions[s].candidate == start.candidate
    ensures forall candidate, campaign | HasSession(r', candidate, campaign) ::
      HasSession(r, candidate, campaign) || candidate == start.candidate
  {
    forall candidate, campaign | HasSession(r', candidate, campaign) && candidate != start.candidate
      ensures HasSession(r, candidate, campaign)
    {
      var s :| s in r'.sessions && r'.sessions[s].candidate == candidate && r'.sessions[s].campaign == campaign;
      assert s in r.sessions;
    }
  }

  lemma LogGrows(log: seq<Entry>, entry: Entry)
    requires InOrder(log)
    requires entry.Created? ==> Accepted(entry.candidate, entry.campaign, entry.disclosure) in log
    ensures InOrder(log + [entry])
  {
    var longer := log + [entry];
    forall i | 0 <= i < |longer| && longer[i].Created? ensures AcceptedBefore(longer, i) {
      assert longer[..i] == log[..i];
      if i < |log| { assert AcceptedBefore(log, i); } else { assert log[..i] == log; }
    }
  }

  // What other runs may rely on when one run takes a step.
  ghost predicate Disturbs(a: Records, b: Records, start: Start) {
    && (forall x: Start :: Claimed(a, x) ==> Claimed(b, x))
    && (forall session :: Named(b, session) ==> Named(a, session) || session == start.session)
    && (forall entry | entry in a.log :: entry in b.log)
    && (forall session | session in b.sessions :: session in a.sessions || session == start.session)
    && (forall candidate, campaign | HasSession(b, candidate, campaign) ::
          HasSession(a, candidate, campaign) || candidate == start.candidate)
  }

  lemma MoveHolds(r: Records, session: string, to: State, start: Start)
    requires RecordsHold(r) && session in r.sessions
    ensures RecordsHold(MovedTo(r, session, to)) && Disturbs(r, MovedTo(r, session, to), start)
  {
    AccountedStays(r, MovedTo(r, session, to));
    HasSessionGrows(r, MovedTo(r, session, to), start);
  }

  lemma AcceptHolds(r: Records, start: Start)
    requires RecordsHold(r)
    ensures var r' := r.(log := r.log + [Accepted(start.candidate, start.campaign, start.disclosure)]);
      RecordsHold(r') && Disturbs(r, r', start)
      && Accepted(start.candidate, start.campaign, start.disclosure) in r'.log
  {
    LogGrows(r.log, Accepted(start.candidate, start.campaign, start.disclosure));
    var r' := r.(log := r.log + [Accepted(start.candidate, start.campaign, start.disclosure)]);
    assert r'.log[|r.log|] in r'.log;
    AccountedStays(r, r');
    HasSessionGrows(r, r', start);
  }

  lemma ActHolds(r: Records, start: Start, p: Point)
    requires RecordsHold(r) && Fits(r, start, p)
    ensures var (r', p') := Act(r, start, p);
      RecordsHold(r') && Fits(r', start, p') && Disturbs(r, r', start)
  {
    match p
    case Claiming => if Claim(r, start).Some? { ClaimHolds(r, start); }
    case Accepting => AcceptHolds(r, start);
    case Creating => CreateHolds(r, start);
    case Holding(seen) => if start.session in r.sessions { MoveHolds(r, start.session, Composing, start); }
    case _ =>
  }

  // A run goes on holding while another candidate's takes a step.
  lemma OthersFit(a: Records, b: Records, mover: Start, start: Start, p: Point)
    requires Disturbs(a, b, mover) && Fits(a, start, p)
    requires start.session != mover.session && start.candidate != mover.candidate
    ensures Fits(b, start, p)
  {
  }

  lemma AdvanceKeepsInv(s: System, candidate: string)
    requires Inv(s) && Enabled(s, Advance(candidate))
    ensures Inv(Apply(s, Advance(candidate)))
  {
    var s' := Apply(s, Advance(candidate));
    var run := s.running[candidate];
    assert RunHolds(s, candidate);
    ActHolds(s.records, run.start, run.point);
    forall other | other in s'.running ensures RunHolds(s', other) {
      assert RunHolds(s, other);
      if other != candidate {
        OthersFit(s.records, s'.records, run.start, s.running[other].start, s.running[other].point);
      }
    }
    forall a | a in s'.records.authorizations && a.session.Some? ensures a.session.value in s.drawn {
      assert Named(s'.records, a.session.value);
      if Named(s.records, a.session.value) {
        var b :| b in s.records.authorizations && b.session == a.session;
      }
    }
  }

  // Nothing but a run claims, accepts or creates.
  lemma RelocateKeepsInv(s: System, step: Step)
    requires Inv(s) && Enabled(s, step) && step.Relocate?
    ensures Inv(Apply(s, step))
  {
    var s' := Apply(s, step);
    MoveHolds(s.records, step.session, step.to, Start("", "", "", "", ""));
    forall candidate | candidate in s'.running ensures RunHolds(s', candidate) {
      assert RunHolds(s, candidate);
    }
  }

  lemma AuthorizeHolds(r: Records, added: Authorization, start: Start)
    requires RecordsHold(r) && added.session.None?
    ensures var r' := r.(authorizations := r.authorizations + [added]);
      RecordsHold(r') && Disturbs(r, r', start)
  {
    var r' := r.(authorizations := r.authorizations + [added]);
    assert forall a :: a in r'.authorizations <==> a in r.authorizations || a == added;
    AccountedStays(r, r');
    HasSessionGrows(r, r', start);
  }

  lemma AuthorizeKeepsInv(s: System, step: Step)
    requires Inv(s) && Enabled(s, step) && step.Authorize?
    ensures Inv(Apply(s, step))
  {
    var s' := Apply(s, step);
    var added := Authorization(step.candidate, step.campaign, None);
    AuthorizeHolds(s.records, added, Start("", "", "", "", ""));
    forall candidate | candidate in s'.running ensures RunHolds(s', candidate) {
      assert RunHolds(s, candidate);
      NothingNamed(s.records, added, s.running[candidate].start, s.running[candidate].point);
    }
  }

  lemma NothingNamed(r: Records, added: Authorization, start: Start, p: Point)
    requires Fits(r, start, p) && added.session.None?
    ensures Fits(r.(authorizations := r.authorizations + [added]), start, p)
  {
    var r' := r.(authorizations := r.authorizations + [added]);
    assert forall a :: a in r'.authorizations <==> a in r.authorizations || a == added;
  }

  // A drawn identity is new to the records and to every other run.
  lemma BeginKeepsInv(s: System, start: Start)
    requires Inv(s) && Enabled(s, Begin(start))
    ensures Inv(Apply(s, Begin(start)))
  {
    var s' := Apply(s, Begin(start));
    assert Fits(s.records, start, Begun);
    forall candidate | candidate in s'.running ensures RunHolds(s', candidate) {
      if candidate != start.candidate { assert RunHolds(s, candidate); }
    }
    forall a | a in s.running ensures s.running[a].start.session in s.drawn { assert RunHolds(s, a); }
  }

  // Who is invited and what is open is read when it matters; no invariant rests on it.
  lemma AdmissionKeepsInv(s: System, step: Step)
    requires Inv(s) && Enabled(s, step) && (step.Invite? || step.SetOpen?)
    ensures Inv(Apply(s, step))
  {
    var s' := Apply(s, step);
    AdmissionKeepsRecords(s.records, s'.records);
    forall candidate | candidate in s'.running ensures RunHolds(s', candidate) {
      assert RunHolds(s, candidate);
      AdmissionKeepsFit(s.records, s'.records, s.running[candidate].start, s.running[candidate].point);
    }
  }

  lemma AdmissionKeepsRecords(r: Records, r': Records)
    requires RecordsHold(r) && r' == r.(invited := r'.invited, open := r'.open)
    ensures RecordsHold(r')
  {
    forall s, t | s in r'.sessions && t in r'.sessions && s != t && SamePlace(r', s, t)
      ensures HasClaim(r', s) || HasClaim(r', t)
    {
      assert SamePlace(r, s, t);
    }
  }

  lemma AdmissionKeepsFit(r: Records, r': Records, start: Start, p: Point)
    requires Fits(r, start, p) && r' == r.(invited := r'.invited, open := r'.open)
    ensures Fits(r', start, p)
  {
    if HasSession(r', start.candidate, start.campaign) {
      var s :| s in r'.sessions && r'.sessions[s].candidate == start.candidate && r'.sessions[s].campaign == start.campaign;
      assert s in r.sessions;
    }
  }

  lemma LeavingKeepsInv(s: System, candidate: string)
    requires Inv(s) && Enabled(s, Leave(candidate))
    ensures Inv(Apply(s, Leave(candidate)))
  {
    var s' := Apply(s, Leave(candidate));
    forall other | other in s'.running ensures RunHolds(s', other) {
      assert RunHolds(s, other);
    }
  }

  lemma StepKeepsInv(s: System, step: Step)
    requires Inv(s) && Enabled(s, step)
    ensures Inv(Apply(s, step))
  {
    match step
    case Advance(candidate) => AdvanceKeepsInv(s, candidate);
    case Relocate(_, _) => RelocateKeepsInv(s, step);
    case Authorize(_, _) => AuthorizeKeepsInv(s, step);
    case Begin(start) => BeginKeepsInv(s, start);
    case Leave(candidate) => LeavingKeepsInv(s, candidate);
    case _ => AdmissionKeepsInv(s, step);
  }

  lemma {:induction false} RunsKeepInv(s: System, steps: seq<Step>)
    requires Inv(s) && Possible(s, steps)
    ensures Inv(After(s, steps))
    decreases |steps|
  {
    if steps != [] {
      StepKeepsInv(s, steps[0]);
      RunsKeepInv(Apply(s, steps[0]), steps[1..]);
    }
  }

  // ------------------------------------------------------------- the promises

  // Of any two sessions one candidate has on one campaign, at least one holds an
  // authorization of its own that names it: all but at most one do.
  lemma AllButOneAreAuthorized(steps: seq<Step>, s: string, t: string)
    requires Possible(INITIAL, steps)
    requires s in After(INITIAL, steps).records.sessions && t in After(INITIAL, steps).records.sessions
    requires s != t && SamePlace(After(INITIAL, steps).records, s, t)
    ensures HasClaim(After(INITIAL, steps).records, s) || HasClaim(After(INITIAL, steps).records, t)
  {
    RunsKeepInv(INITIAL, steps);
  }

  // An authorization names one session, and a session is named once.
  lemma OneAuthorizationEach(steps: seq<Step>, i: nat, j: nat)
    requires Possible(INITIAL, steps)
    requires i < |After(INITIAL, steps).records.authorizations| && j < |After(INITIAL, steps).records.authorizations|
    ensures var a := After(INITIAL, steps).records.authorizations;
      a[i].session.Some? && a[i].session == a[j].session ==> i == j
  {
    RunsKeepInv(INITIAL, steps);
  }

  function SessionsAt(r: Records, candidate: string, campaign: string): set<string> {
    set s | s in r.sessions && r.sessions[s].candidate == candidate && r.sessions[s].campaign == campaign
  }

  // How many times the candidate was authorized to try again.
  function TimesAuthorized(authorizations: seq<Authorization>, candidate: string, campaign: string): nat {
    if authorizations == [] then 0
    else
      var last := authorizations[|authorizations| - 1];
      TimesAuthorized(authorizations[..|authorizations| - 1], candidate, campaign)
      + if last.candidate == candidate && last.campaign == campaign then 1 else 0
  }

  lemma {:induction false} NoMoreNamesThanAuthorizations(
    authorizations: seq<Authorization>, candidate: string, campaign: string, named: set<string>)
    requires forall s | s in named :: Authorization(candidate, campaign, Some(s)) in authorizations
    ensures |named| <= TimesAuthorized(authorizations, candidate, campaign)
    decreases |authorizations|
  {
    if authorizations == [] {
      assert named == {};
    } else {
      var front, last := authorizations[..|authorizations| - 1], authorizations[|authorizations| - 1];
      assert authorizations == front + [last];
      if last.candidate == candidate && last.campaign == campaign && last.session.Some? && last.session.value in named {
        NoMoreNamesThanAuthorizations(front, candidate, campaign, named - {last.session.value});
      } else {
        NoMoreNamesThanAuthorizations(front, candidate, campaign, named);
      }
    }
  }

  function AuthorizedAt(r: Records, candidate: string, campaign: string): set<string> {
    set s | s in SessionsAt(r, candidate, campaign) && Authorization(candidate, campaign, Some(s)) in r.authorizations
  }

  lemma AllButOneAt(r: Records, candidate: string, campaign: string)
    requires Accounted(r)
    ensures |SessionsAt(r, candidate, campaign)| <= 1 + |AuthorizedAt(r, candidate, campaign)|
  {
    var all, bound := SessionsAt(r, candidate, campaign), AuthorizedAt(r, candidate, campaign);
    if s :| s in all - bound {
      forall t | t in all && t != s ensures t in bound {
        assert SamePlace(r, s, t) && !HasClaim(r, s);
      }
      AtMostOneMore(all, bound, s);
    } else {
      forall t | t in all ensures t in bound { assert t !in all - bound; }
      Smaller(all, bound);
    }
  }

  // A candidate has at most one session more than the recruiters authorized: no more
  // than one for each time they did in the run, and one.
  lemma SessionsAreBounded(steps: seq<Step>, candidate: string, campaign: string)
    requires Possible(INITIAL, steps)
    ensures var r := After(INITIAL, steps).records;
      && |SessionsAt(r, candidate, campaign)| <= 1 + TimesAuthorized(r.authorizations, candidate, campaign)
      && TimesAuthorized(r.authorizations, candidate, campaign) == AuthorizingSteps(steps, candidate, campaign)
  {
    RunsKeepInv(INITIAL, steps);
    var r := After(INITIAL, steps).records;
    AllButOneAt(r, candidate, campaign);
    NoMoreNamesThanAuthorizations(r.authorizations, candidate, campaign, AuthorizedAt(r, candidate, campaign));
    StepsAuthorize(INITIAL, steps, candidate, campaign);
  }

  // How many steps of a run authorize the candidate to try again.
  function AuthorizingSteps(steps: seq<Step>, candidate: string, campaign: string): nat {
    if steps == [] then 0
    else (if steps[0] == Authorize(candidate, campaign) then 1 else 0) + AuthorizingSteps(steps[1..], candidate, campaign)
  }

  lemma {:induction false} ClaimingCountsAlike(
    a: seq<Authorization>, b: seq<Authorization>, candidate: string, campaign: string)
    requires |a| == |b|
    requires forall i | 0 <= i < |a| :: a[i].candidate == b[i].candidate && a[i].campaign == b[i].campaign
    ensures TimesAuthorized(a, candidate, campaign) == TimesAuthorized(b, candidate, campaign)
    decreases |a|
  {
    if a != [] { ClaimingCountsAlike(a[..|a| - 1], b[..|b| - 1], candidate, campaign); }
  }

  lemma StepAuthorizes(s: System, step: Step, candidate: string, campaign: string)
    requires Enabled(s, step)
    ensures TimesAuthorized(Apply(s, step).records.authorizations, candidate, campaign)
      == TimesAuthorized(s.records.authorizations, candidate, campaign)
         + if step == Authorize(candidate, campaign) then 1 else 0
  {
    var before, after := s.records.authorizations, Apply(s, step).records.authorizations;
    if step.Authorize? {
      assert after[..|before|] == before;
    } else {
      if step.Advance? { ActKeepsOwners(s.records, s.running[step.candidate].start, s.running[step.candidate].point); }
      ClaimingCountsAlike(before, after, candidate, campaign);
    }
  }

  // A claim changes whose session an authorization names, and nothing else of it.
  lemma ActKeepsOwners(r: Records, start: Start, p: Point)
    ensures var before, after := r.authorizations, Act(r, start, p).0.authorizations;
      && |after| == |before|
      && forall i | 0 <= i < |before| :: after[i].candidate == before[i].candidate && after[i].campaign == before[i].campaign
  {
    if p.Claiming? { ClaimKeepsOwners(r, start); }
  }

  lemma ClaimKeepsOwners(r: Records, start: Start)
    ensures Claim(r, start).Some? ==>
      var before, after := r.authorizations, Claim(r, start).value.authorizations;
      && |after| == |before|
      && forall i | 0 <= i < |before| :: after[i].candidate == before[i].candidate && after[i].campaign == before[i].campaign
  {
  }

  lemma {:induction false} StepsAuthorize(s: System, steps: seq<Step>, candidate: string, campaign: string)
    requires Possible(s, steps)
    ensures TimesAuthorized(After(s, steps).records.authorizations, candidate, campaign)
      == TimesAuthorized(s.records.authorizations, candidate, campaign) + AuthorizingSteps(steps, candidate, campaign)
    decreases |steps|
  {
    if steps != [] {
      StepAuthorizes(s, steps[0], candidate, campaign);
      StepsAuthorize(Apply(s, steps[0]), steps[1..], candidate, campaign);
    }
  }

  lemma AtMostOneMore(all: set<string>, bound: set<string>, s: string)
    requires all <= bound + {s}
    ensures |all| <= |bound| + 1
  {
    assert all - {s} <= bound;
    Smaller(all - {s}, bound);
  }

  lemma {:induction false} Smaller(a: set<string>, b: set<string>)
    requires a <= b
    ensures |a| <= |b|
    decreases a
  {
    if x :| x in a { Smaller(a - {x}, b - {x}); }
  }

  // No session exists that was not preceded by an acceptance of its own
  // disclosure version, by its candidate, on its campaign.
  lemma EverySessionWasConsentedTo(steps: seq<Step>, session: string)
    requires Possible(INITIAL, steps) && session in After(INITIAL, steps).records.sessions
    ensures var r := After(INITIAL, steps).records;
      var x := r.sessions[session];
      exists i, j :: 0 <= i < j < |r.log| && r.log[i] == Accepted(x.candidate, x.campaign, x.disclosure)
                     && r.log[j] == Created(x.candidate, x.campaign, x.disclosure, session)
  {
    RunsKeepInv(INITIAL, steps);
    var r := After(INITIAL, steps).records;
    var x := r.sessions[session];
    var j :| 0 <= j < |r.log| && r.log[j] == Created(x.candidate, x.campaign, x.disclosure, session);
    assert AcceptedBefore(r.log, j);
    var i :| 0 <= i < |r.log[..j]| && r.log[..j][i] == Accepted(x.candidate, x.campaign, x.disclosure);
    assert r.log[i] == Accepted(x.candidate, x.campaign, x.disclosure);
  }

  // ------------------------------------------------------ where sessions come from

  function Requested(steps: seq<Step>): set<Start> {
    set i | 0 <= i < |steps| && steps[i].Begin? :: steps[i].start
  }

  // A session is one that was asked for.
  ghost predicate AskedFor(x: Screening, session: string, start: Start) {
    && start.session == session && start.candidate == x.candidate && start.campaign == x.campaign
    && start.disclosure == x.disclosure && Acceptable(start)
  }

  predicate PastInvitation(p: Point) {
    !p.Begun? && !p.Declined?
  }

  ghost predicate Traced(s: System, asked: set<Start>) {
    && (forall candidate | candidate in s.running ::
          var run := s.running[candidate];
          && run.start in asked
          && (PastInvitation(run.point) ==> (run.start.candidate, run.start.campaign) in s.records.invited)
          && (run.point.Creating? ==> Acceptable(run.start)))
    && (forall session | session in s.records.sessions ::
          var x := s.records.sessions[session];
          && (x.candidate, x.campaign) in s.records.invited
          && exists start :: start in asked && AskedFor(x, session, start))
  }

  lemma ActTraced(r: Records, start: Start, p: Point, asked: set<Start>)
    requires start in asked && (p.Creating? ==> Acceptable(start))
    requires PastInvitation(p) ==> (start.candidate, start.campaign) in r.invited
    requires forall session | session in r.sessions ::
      && (r.sessions[session].candidate, r.sessions[session].campaign) in r.invited
      && exists x :: x in asked && AskedFor(r.sessions[session], session, x)
    ensures var (r', p') := Act(r, start, p);
      && r'.invited == r.invited && (p'.Creating? ==> Acceptable(start))
      && (PastInvitation(p') ==> (start.candidate, start.campaign) in r.invited)
      && forall session | session in r'.sessions ::
           && (r'.sessions[session].candidate, r'.sessions[session].campaign) in r.invited
           && exists x :: x in asked && AskedFor(r'.sessions[session], session, x)
  {
    var (r', p') := Act(r, start, p);
    forall session | session in r'.sessions
      ensures (r'.sessions[session].candidate, r'.sessions[session].campaign) in r.invited
      ensures exists x :: x in asked && AskedFor(r'.sessions[session], session, x)
    {
      if p.Creating? && session == start.session {
        assert AskedFor(r'.sessions[session], session, start);
      } else {
        var x :| x in asked && AskedFor(r.sessions[session], session, x);
        assert AskedFor(r'.sessions[session], session, x);
      }
    }
  }

  lemma StepTraced(s: System, step: Step, asked: set<Start>)
    requires Traced(s, asked) && Enabled(s, step)
    ensures Traced(Apply(s, step), asked + Requested([step]))
  {
    var s', more := Apply(s, step), asked + Requested([step]);
    if step.Begin? { assert [step][0].start in Requested([step]); }
    if step.Advance? {
      ActTraced(s.records, s.running[step.candidate].start, s.running[step.candidate].point, asked);
    } else {
      forall session | session in s'.records.sessions
        ensures exists start :: start in more && AskedFor(s'.records.sessions[session], session, start)
      {
        var start :| start in asked && AskedFor(s.records.sessions[session], session, start);
        assert start in more && AskedFor(s'.records.sessions[session], session, start);
      }
    }
  }

  lemma {:induction false} RunsTraced(s: System, steps: seq<Step>, asked: set<Start>)
    requires Traced(s, asked) && Possible(s, steps)
    ensures Traced(After(s, steps), asked + Requested(steps))
    decreases |steps|
  {
    if steps == [] {
      assert asked + Requested(steps) == asked;
    } else {
      StepTraced(s, steps[0], asked);
      RunsTraced(Apply(s, steps[0]), steps[1..], asked + Requested([steps[0]]));
      RequestedSplits(steps);
      assert asked + Requested([steps[0]]) + Requested(steps[1..]) == asked + Requested(steps);
    }
  }

  lemma RequestedSplits(steps: seq<Step>)
    requires steps != []
    ensures Requested(steps) == Requested([steps[0]]) + Requested(steps[1..])
  {
    forall start ensures start in Requested(steps) <==> start in Requested([steps[0]]) || start in Requested(steps[1..]) {
      if i :| 0 <= i < |steps| && steps[i].Begin? && steps[i].start == start {
        if i == 0 { assert [steps[0]][0].start == start; } else { assert steps[1..][i - 1].start == start; }
      }
      if start in Requested(steps[1..]) {
        var i :| 0 <= i < |steps[1..]| && steps[1..][i].Begin? && steps[1..][i].start == start;
        assert steps[i + 1].start == start;
      }
    }
  }

  // No session exists that its own candidate did not ask for: under its identity, for
  // its campaign, with the disclosure it bears, which was in order. And the candidate
  // was invited there.
  lemma EverySessionWasAskedFor(steps: seq<Step>, session: string)
    requires Possible(INITIAL, steps) && session in After(INITIAL, steps).records.sessions
    ensures var r := After(INITIAL, steps).records;
      var x := r.sessions[session];
      && Invite(x.candidate, x.campaign) in steps
      && exists i :: 0 <= i < |steps| && steps[i].Begin? && steps[i].start.session == session
           && steps[i].start.candidate == x.candidate && steps[i].start.campaign == x.campaign
           && steps[i].start.disclosure == x.disclosure && Acceptable(steps[i].start)
  {
    RunsTraced(INITIAL, steps, {});
    var r := After(INITIAL, steps).records;
    assert {} + Requested(steps) == Requested(steps);
    var start :| start in Requested(steps) && AskedFor(r.sessions[session], session, start);
    var i :| 0 <= i < |steps| && steps[i].Begin? && steps[i].start == start;
    assert steps[i].start.session == session;
    InvitedByAStep(INITIAL, steps, r.sessions[session].candidate, r.sessions[session].campaign);
  }

  lemma {:induction false} InvitedByAStep(s: System, steps: seq<Step>, candidate: string, campaign: string)
    requires Possible(s, steps) && (candidate, campaign) in After(s, steps).records.invited
    ensures (candidate, campaign) in s.records.invited || Invite(candidate, campaign) in steps
    decreases |steps|
  {
    if steps != [] {
      assert steps[0] in steps;
      InvitedByAStep(Apply(s, steps[0]), steps[1..], candidate, campaign);
    }
  }
}
