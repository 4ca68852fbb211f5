/**
 * The start itself, call by call: it takes the steps of ScreeningStarts in their
 * order and stops where a call is not answered.
 */
module ScreeningAdapter {
  import opened Wrappers
  import opened WorkerStores
  import opened ScreeningStarts
  import Wrapping

  // Where the first n steps of a start lead when nothing else happens.
  function Steps(r: Records, start: Start, n: nat): (Records, Point) {
    if n == 0 then (r, Begun)
    else
      var (r', p) := Steps(r, start, n - 1);
      Act(r', start, p)
  }

  // What a start comes to: an authorization claimed if this is not the first
  // session, an acceptance, then the session, composing.
  function Concluded(r: Records, start: Start): (Records, Point) {
    if (start.candidate, start.campaign) !in r.invited then (r, Declined(SessionMissing))
    else if start.campaign !in r.open then (r, Declined(CampaignNotOpen))
    else
      var claimed := if HasSession(r, start.candidate, start.campaign) then Claim(r, start) else Some(r);
      match claimed
      case None => (r, Declined(ReInvitationRequired))
      case Some(r') => if Acceptable(start) then (Composed(r', start), Started) else (r', Declined(DisclosureInvalid))
  }

  function Composed(r: Records, start: Start): Records {
    r.(log := r.log + [Accepted(start.candidate, start.campaign, start.disclosure),
                       Created(start.candidate, start.campaign, start.disclosure, start.session)],
       sessions := r.sessions[start.session :=
         Screening(start.candidate, start.campaign, start.disclosure, Session(Composing, 2))])
  }

  lemma StepNext(r: Records, start: Start, n: nat)
    ensures Steps(r, start, n + 1) == Act(Steps(r, start, n).0, start, Steps(r, start, n).1)
  {
  }

  lemma {:induction false} EndedStays(r: Records, start: Start, n: nat, m: nat)
    requires n <= m && Ended(Steps(r, start, n).1)
    ensures Steps(r, start, m) == Steps(r, start, n)
    decreases m
  {
    if n < m { EndedStays(r, start, n, m - 1); }
  }

  // Up to the claim, or past it where none is needed.
  lemma FirstSteps(r: Records, start: Start)
    ensures Steps(r, start, 0) == (r, Begun)
    ensures Steps(r, start, 1) ==
      (r, if (start.candidate, start.campaign) in r.invited then Invited else Declined(SessionMissing))
    ensures (start.candidate, start.campaign) in r.invited ==>
      Steps(r, start, 2) == (r, if start.campaign in r.open then Admitted else Declined(CampaignNotOpen))
    ensures (start.candidate, start.campaign) in r.invited && start.campaign in r.open ==>
      Steps(r, start, 3) == (r, if HasSession(r, start.candidate, start.campaign) then Claiming else Accepting)
  {
    StepNext(r, start, 0);
    StepNext(r, start, 1);
    StepNext(r, start, 2);
  }

  // From the acceptance on.
  lemma LastSteps(r: Records, start: Start, n: nat)
    requires Steps(r, start, n).1 == Accepting
    ensures var r1 := Steps(r, start, n).0;
      var r2 := r1.(log := r1.log + [Accepted(start.candidate, start.campaign, start.disclosure)]);
      && (!Acceptable(start) ==> Steps(r, start, n + 1) == (r1, Declined(DisclosureInvalid)))
      && (Acceptable(start) ==>
            && Steps(r, start, n + 1) == (r2, Creating)
            && Steps(r, start, n + 2) == (Written(r2, start), Made)
            && Steps(r, start, n + 3) == (Written(r2, start), Holding(Session(Draft, 1)))
            && Steps(r, start, n + 4) == (Composed(r1, start), Started))
  {
    StepNext(r, start, n);
    if Acceptable(start) {
      StepNext(r, start, n + 1);
      StepNext(r, start, n + 2);
      StepNext(r, start, n + 3);
      LastMove(Steps(r, start, n).0, start);
    }
  }

  lemma LastMove(r: Records, start: Start)
    ensures var r' := r.(log := r.log + [Accepted(start.candidate, start.campaign, start.disclosure)]);
      MovedTo(Written(r', start), start.session, Composing) == Composed(r, start)
  {
    var accepted := Accepted(start.candidate, start.campaign, start.disclosure);
    var created := Created(start.candidate, start.campaign, start.disclosure, start.session);
    assert r.log + [accepted] + [created] == r.log + [accepted, created];
  }

  // Undisturbed, a start returns within eight steps, leaving what Concluded says.
  lemma UndisturbedStart(r: Records, start: Start, n: nat)
    requires n >= 8 || Ended(Steps(r, start, n).1)
    ensures Steps(r, start, n) == Concluded(r, start)
  {
    FirstSteps(r, start);
    var at := 3;
    if (start.candidate, start.campaign) !in r.invited {
      at := 1;
    } else if start.campaign !in r.open {
      at := 2;
    } else {
      if Steps(r, start, 3).1 == Claiming {
        StepNext(r, start, 3);
        at := 4;
      }
      if Steps(r, start, at).1 == Accepting {
        LastSteps(r, start, at);
        at := if Acceptable(start) then at + 4 else at + 1;
      }
    }
    if at <= n { EndedStays(r, start, at, n); } else { EndedStays(r, start, n, at); }
  }

  // A start succeeds exactly when its candidate was invited, the campaign is
  // open, the acceptance is in order, and a first session or an authorization
  // not yet claimed allows it.
  lemma StartsExactlyWhen(r: Records, start: Start)
    ensures Concluded(r, start).1 == Started <==>
      && (start.candidate, start.campaign) in r.invited && start.campaign in r.open && Acceptable(start)
      && (HasSession(r, start.candidate, start.campaign) ==>
            exists a :: a in r.authorizations && IsFree(a, start.candidate, start.campaign))
  {
    FreeExactlyWhen(r, start);
  }

  lemma FreeExactlyWhen(r: Records, start: Start)
    ensures Claim(r, start).Some? <==>
      exists a :: a in r.authorizations && IsFree(a, start.candidate, start.campaign)
  {
    var n := Oldest(r.authorizations, start.candidate, start.campaign);
    if n < |r.authorizations| {
      assert r.authorizations[n] in r.authorizations;
    }
  }

  ghost predicate OldestUnclaimed(authorizations: seq<Authorization>, candidate: string, campaign: string, i: int) {
    && 0 <= i < |authorizations| && authorizations[i] == Authorization(candidate, campaign, None)
    && forall j | 0 <= j < i :: authorizations[j] != Authorization(candidate, campaign, None)
  }

  // What an acceptance must be to be recorded: it names a disclosure version, a campaign
  // and a candidate, and its digest is "sha256:" and 64 lower-case hexadecimal digits.
  lemma AcceptableExactlyWhen(start: Start)
    ensures Acceptable(start) <==>
      && (exists c :: c in start.disclosure && !Wrapping.IsSpace(c))
      && (exists c :: c in start.campaign && !Wrapping.IsSpace(c))
      && (exists c :: c in start.candidate && !Wrapping.IsSpace(c))
      && |start.digest| == 71 && start.digest[..7] == "sha256:"
      && forall c | c in start.digest[7..] :: c in "0123456789abcdef"
  {
    forall c: char ensures IsHex(c) <==> c in "0123456789abcdef" {
      var hex := "0123456789abcdef";
      if '0' <= c <= '9' { assert hex[c as int - '0' as int] == c; }
      if 'a' <= c <= 'f' { assert hex[c as int - 'a' as int + 10] == c; }
    }
    if |start.digest| == 71 {
      forall i | 7 <= i < 71 ensures start.digest[i] == start.digest[7..][i - 7] && start.digest[i] in start.digest[7..] {}
    }
  }

  // What a start comes to: the reasons in their order, and what is written where none
  // applies.
  lemma StartComesTo(r: Records, start: Start)
    ensures var (r', p) := Concluded(r, start);
      var invited, open := (start.candidate, start.campaign) in r.invited, start.campaign in r.open;
      var again := exists s :: s in r.sessions && r.sessions[s].candidate == start.candidate
                               && r.sessions[s].campaign == start.campaign;
      var unclaimed := Authorization(start.candidate, start.campaign, None) in r.authorizations;
      && (p == Declined(SessionMissing) <==> !invited)
      && (p == Declined(CampaignNotOpen) <==> invited && !open)
      && (p == Declined(ReInvitationRequired) <==> invited && open && again && !unclaimed)
      && (p == Declined(DisclosureInvalid) <==> invited && open && (again ==> unclaimed) && !Acceptable(start))
      && (p == Started <==> invited && open && (again ==> unclaimed) && Acceptable(start))
      && (p != Started ==> r' == r.(authorizations := r'.authorizations))
      && (p == Started ==>
            && r'.invited == r.invited && r'.open == r.open
            && r'.log == r.log + [Accepted(start.candidate, start.campaign, start.disclosure),
                                  Created(start.candidate, start.campaign, start.disclosure, start.session)]
            && r'.sessions == r.sessions[start.session :=
                 Screening(start.candidate, start.campaign, start.disclosure, Session(Composing, 2))])
      && (if invited && open && again && unclaimed
          then exists i ::
            && OldestUnclaimed(r.authorizations, start.candidate, start.campaign, i)
            && r'.authorizations ==
                 r.authorizations[i := Authorization(start.candidate, start.campaign, Some(start.session))]
          else r'.authorizations == r.authorizations)
  {
    FreeExactlyWhen(r, start);
    var n := Oldest(r.authorizations, start.candidate, start.campaign);
    if n < |r.authorizations| { assert OldestUnclaimed(r.authorizations, start.candidate, start.campaign, n); }
    if a :| a in r.authorizations && IsFree(a, start.candidate, start.campaign) {
      assert a == Authorization(start.candidate, start.campaign, None);
    }
    if Authorization(start.candidate, start.campaign, None) in r.authorizations {
      assert IsFree(Authorization(start.candidate, start.campaign, None), start.candidate, start.campaign);
    }
  }

  // The claim comes before the acceptance is checked. A start that is otherwise in
  // order uses its authorization up without creating a session exactly when the
  // acceptance is refused.
  lemma ClaimIsSpentInVainExactlyWhen(r: Records, start: Start)
    requires start.session !in r.sessions && !Claimed(r, start)
    ensures var r' := Concluded(r, start).0;
      Claimed(r', start) && start.session !in r'.sessions <==>
        && (start.candidate, start.campaign) in r.invited && start.campaign in r.open
        && HasSession(r, start.candidate, start.campaign)
        && (exists a :: a in r.authorizations && IsFree(a, start.candidate, start.campaign))
        && !Acceptable(start)
  {
    FreeExactlyWhen(r, start);
    var claim := Claim(r, start);
    if claim.Some? {
      var n := Oldest(r.authorizations, start.candidate, start.campaign);
      assert claim.value.authorizations[n] in claim.value.authorizations;
    }
  }

  // ------------------------------------------------------------- the adapter

  // What a start did: the first n steps, all of them if it returned an answer of
  // its own, and as many as were answered otherwise.
  ghost predicate Took(before: Records, start: Start, after: Records, answer: Option<Point>, n: nat, calls: nat) {
    var (r, p) := Steps(before, start, n);
    after == r && (if answer.Some? then answer.value == p && Ended(p) else calls == 0)
  }

  class Adapter {
    var invited: set<(string, string)>
    var open: set<string>
    var authorizations: seq<Authorization>
    var log: seq<Entry>
    var sessions: map<string, Screening>
    // How many more of its calls are answered before the request is cut off.
    var calls: nat

    function View(): Records
      reads this
    {
      Records(invited, open, authorizations, log, sessions)
    }

    method Call() returns (answered: bool)
      modifies `calls
      ensures answered == (old(calls) > 0)
      ensures calls == if answered then old(calls) - 1 else 0
    {
      answered := calls > 0;
      if answered { calls := calls - 1; }
    }

    // Binds the oldest authorization not yet claimed.
    method ClaimReInvitation(start: Start) returns (found: bool)
      modifies `authorizations
      ensures found == Claim(old(View()), start).Some?
      ensures View() == if found then Claim(old(View()), start).value else old(View())
      ensures found ==> exists i ::
        && OldestUnclaimed(old(authorizations), start.candidate, start.campaign, i)
        && authorizations == old(authorizations)[i := Authorization(start.candidate, start.campaign, Some(start.session))]
      ensures !found ==> authorizations == old(authorizations)
      ensures !found ==> Authorization(start.candidate, start.campaign, None) !in authorizations
    {
      var i := 0;
      while i < |authorizations|
        invariant 0 <= i <= |authorizations|
        invariant forall j | 0 <= j < i :: !IsFree(authorizations[j], start.candidate, start.campaign)
      {
        if IsFree(authorizations[i], start.candidate, start.campaign) {
          assert OldestUnclaimed(authorizations, start.candidate, start.campaign, i);
          authorizations := authorizations[i := authorizations[i].(session := Some(start.session))];
          return true;
        }
        i := i + 1;
      }
      return false;
    }

    // The session under its new identity, accepted first, then created and moved
    // to composing.
    method Compose(start: Start, ghost before: Records, ghost from: nat) returns (answer: Option<Point>, ghost n: nat)
      requires Steps(before, start, from) == (View(), Accepting)
      modifies this
      ensures Took(before, start, View(), answer, n, calls)
      ensures calls + 4 >= old(calls)
    {
      LastSteps(before, start, from);
      n := from;
      if !Acceptable(start) { return Some(Declined(DisclosureInvalid)), n + 1; }
      var recorded := Call();
      if !recorded { return None, n; }
      log := log + [Accepted(start.candidate, start.campaign, start.disclosure)];
      var created := Call();
      if !created { return None, n + 1; }
      log := log + [Created(start.candidate, start.campaign, start.disclosure, start.session)];
      sessions := sessions[start.session :=
        Screening(start.candidate, start.campaign, start.disclosure, Session(Draft, 1))];
      answer, n := MoveToComposing(start, before, n + 2);
    }

    // The created session, read back and moved.
    method MoveToComposing(start: Start, ghost before: Records, ghost from: nat)
      returns (answer: Option<Point>, ghost n: nat)
      requires Steps(before, start, from) == (View(), Made)
      requires start.session in sessions && sessions[start.session].row == Session(Draft, 1)
      modifies this
      ensures Took(before, start, View(), answer, n, calls)
      ensures calls + 2 >= old(calls)
    {
      StepNext(before, start, from);
      StepNext(before, start, from + 1);
      var read := Call();
      if !read { return None, from; }
      var seen := sessions[start.session];
      var moved := Call();
      if !moved { return None, from + 1; }
      sessions := sessions[start.session := seen.(row := Session(Composing, seen.row.version + 1))];
      return Some(Started), from + 2;
    }

    method StartScreeningSession(start: Start) returns (answer: Option<Point>, ghost n: nat)
      modifies this
      ensures Took(old(View()), start, View(), answer, n, calls)
      ensures old(calls) > 8 ==> answer.Some? && (View(), answer.value) == Concluded(old(View()), start)
    {
      ghost var before := View();
      answer, n := StartStep(start);
      if old(calls) > 8 { UndisturbedStart(before, start, n); }
    }

    method StartStep(start: Start) returns (answer: Option<Point>, ghost n: nat)
      modifies this
      ensures Took(old(View()), start, View(), answer, n, calls)
      ensures calls + 8 >= old(calls)
    {
      ghost var before := View();
      FirstSteps(before, start);
      var asked := Call();
      if !asked { return None, 0; }
      if (start.candidate, start.campaign) !in invited { return Some(Declined(SessionMissing)), 1; }
      asked := Call();
      if !asked { return None, 1; }
      if start.campaign !in open { return Some(Declined(CampaignNotOpen)), 2; }
      asked := Call();
      if !asked { return None, 2; }
      n := 3;
      if HasSession(View(), start.candidate, start.campaign) {
        asked := Call();
        if !asked { return None, 3; }
        StepNext(before, start, 3);
        var claimed := ClaimReInvitation(start);
        if !claimed { return Some(Declined(ReInvitationRequired)), 4; }
        n := 4;
      }
      answer, n := Compose(start, before, n);
    }
  }

  // -------------------------------------------------------- where a candidate is

  datatype Phase = NoSession | Preparation | Underway | Complete

  function ScreeningPhase(state: State, held: bool): Phase {
    if !held then NoSession
    else
      match state
      case Draft => Preparation
      case Composing => Preparation
      case Ready => Preparation
      case Connecting => Preparation
      case InProgress => Underway
      case Reconnecting => Underway
      case _ => Complete
  }

  function PhaseRank(p: Phase): nat {
    match p case NoSession => 0 case Preparation => 1 case Underway => 2 case Complete => 3
  }

  // Along the lifecycle a candidate's phase never falls back, but for a
  // composition that failed, which reads as complete, and is composed again.
  lemma PhaseFallsBackExactlyWhen(from: State, to: State)
    requires to in NextStates(from)
    ensures PhaseRank(ScreeningPhase(to, true)) < PhaseRank(ScreeningPhase(from, true)) <==> from == CompositionFailed
  {
  }

  // What a candidate is told of each state.
  lemma PhaseIsOf(state: State)
    ensures ScreeningPhase(state, false) == NoSession
    ensures ScreeningPhase(state, true) ==
      if state in {Draft, Composing, Ready, Connecting} then Preparation
      else if state in {InProgress, Reconnecting} then Underway
      else Complete
  {
  }
}
