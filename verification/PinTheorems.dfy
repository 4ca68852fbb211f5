/**
 * What pinning promises, over every run.
 */
module PinTheorems {
  import opened Wrappers
  import opened ArtifactRegistry
  import opened Pinning
  import opened Composer
  import opened SessionBundles
  import opened PinStability
  import Ordering
  import Wrapping

  // ------------------------------------------------------------- invariants

  // A released version bears the digest, so it can always be read.
  ghost predicate Backed(r: Registry, digest: string, tenant: string) {
    exists id :: id in r.rows && Bears(r, id, digest, tenant) && Released(r.rows[id].status)
  }

  ghost predicate CampaignBacked(r: Registry, c: Campaign) {
    !Wrapping.Blank(c.tenant) && forall kind | kind in c.pins :: Backed(r, c.pins[kind].digest, c.tenant)
  }

  ghost predicate BundleBacked(r: Registry, b: Bundle) {
    forall e | e in b.inputs :: Backed(r, e.digest, b.tenant)
  }

  ghost predicate Inv(w: World) {
    && Sound(w.registry)
    && (forall c | c in w.campaigns :: CampaignBacked(w.registry, w.campaigns[c]))
    && (forall s | s in w.sessions :: BundleBacked(w.registry, w.sessions[s]))
  }

  // What one world leaves to a later one.
  ghost predicate Follows(w: World, later: World) {
    && ArtifactRegistry.Stands(w.registry, later.registry)
    && (forall s | s in w.sessions :: s in later.sessions && later.sessions[s] == w.sessions[s])
    && (forall c | c in w.campaigns && w.campaigns[c].status != Unopened ::
          && c in later.campaigns && later.campaigns[c].status != Unopened
          && later.campaigns[c].tenant == w.campaigns[c].tenant && later.campaigns[c].pins == w.campaigns[c].pins)
  }

  lemma BackedStays(a: Registry, b: Registry, digest: string, tenant: string)
    requires ArtifactRegistry.Stands(a, b) && Backed(a, digest, tenant)
    ensures Backed(b, digest, tenant)
  {
    var id :| id in a.rows && Bears(a, id, digest, tenant) && Released(a.rows[id].status);
    assert Bears(b, id, digest, tenant);
  }

  lemma BodyStays(a: Registry, b: Registry, digest: string, tenant: string)
    requires Sound(a) && Sound(b) && ArtifactRegistry.Stands(a, b) && Backed(a, digest, tenant)
    ensures Held(a, digest, tenant) && Held(b, digest, tenant)
    ensures BodyOf(a, digest, tenant) == BodyOf(b, digest, tenant)
  {
    var id :| id in a.rows && Bears(a, id, digest, tenant) && Released(a.rows[id].status);
    BodyIsTheOne(a, digest, tenant, id);
    BodyIsTheOne(b, digest, tenant, id);
  }

  // What a reference resolves to has been released.
  lemma ResolvedIsBacked(r: Registry, reference: string, tenant: string)
    requires Sound(r) && Resolve(r, reference, tenant).Some?
    ensures var a := Resolve(r, reference, tenant).value;
      Backed(r, a.digest, tenant) && a.body == BodyOf(r, a.digest, tenant)
  {
    var key := if (tenant, reference) in r.pointers then (tenant, reference) else ("", reference);
    assert PointerSound(r, key);
    var id := r.pointers[key];
    assert Bears(r, id, r.rows[id].digest, tenant);
    BodyIsTheOne(r, r.rows[id].digest, tenant, id);
  }

  // --------------------------------------------------------- steps keep them

  lemma OpeningIsBacked(r: Registry, tenant: string, status: CampaignStatus, determined: bool, requests: seq<PinRequest>)
    requires Sound(r) && Opening(r, tenant, status, determined, requests).Ok?
    ensures var pins := Opening(r, tenant, status, determined, requests).value;
      forall kind | kind in pins :: Backed(r, pins[kind].digest, tenant)
  {
    OpensExactlyWhen(r, tenant, status, determined, requests);
    var pins := Opening(r, tenant, status, determined, requests).value;
    forall kind | kind in pins ensures Backed(r, pins[kind].digest, tenant) {
      assert AskedAndPublished(r, tenant, requests, kind);
      var i :| 0 <= i < |requests| && requests[i].kind == kind
        && PublishedArtifact(r, requests[i].reference, tenant).Some?;
      ResolvedIsBacked(r, requests[i].reference, tenant);
    }
  }

  lemma FrozenUnderSomeKind(pins: map<string, Frozen>, f: Frozen)
    requires f in InKindOrder(pins)
    ensures exists kind :: kind in pins && pins[kind] == f
  {
    var read := InKindOrder(pins);
    var i :| 0 <= i < |read| && read[i] == f;
    var kind := Ordering.InOrder(pins.Keys)[i];
    assert kind in pins && pins[kind] == f;
  }

  lemma FrozenIsBacked(w: World, tenant: string, campaign: string, f: Frozen)
    requires Inv(w) && f in FrozenPins(w.campaigns, tenant, campaign)
    ensures Backed(w.registry, f.digest, tenant)
  {
    var c := w.campaigns[campaign];
    FrozenUnderSomeKind(c.pins, f);
    assert CampaignBacked(w.registry, c);
  }

  // Every pin that is sent is of a digest that can always be read back, with the
  // body it carries.
  lemma SentIsBacked(w: World, request: Request, sent: seq<Pin>, p: Pin)
    requires Inv(w) && Answers(w.registry, w.campaigns, request, Ok(sent)) && p in sent
    ensures Backed(w.registry, p.digest, request.tenant)
    ensures Held(w.registry, p.digest, request.tenant) && p.body == BodyOf(w.registry, p.digest, request.tenant)
  {
    var r, tenant := w.registry, request.tenant;
    if request.mode != SCREENING {
      var reference := if p == sent[0] then request.blueprint else if p == sent[1] then PRACTICE_RUBRIC else PRACTICE_POLICY;
      ResolvedIsBacked(r, reference, tenant);
    } else {
      var frozen := FrozenPins(w.campaigns, tenant, request.campaign);
      var i :| 0 <= i < |sent| && sent[i] == p;
      if i == |frozen| {
        ResolvedIsBacked(r, PRACTICE_POLICY, tenant);
      } else {
        FrozenIsBacked(w, tenant, request.campaign, frozen[i]);
        HeldPinIsBacked(r, frozen[i], tenant, p);
      }
    }
  }

  lemma HeldPinIsBacked(r: Registry, f: Frozen, tenant: string, p: Pin)
    requires OneBody(r) && PinHolds(r, f, tenant, p) && Backed(r, f.digest, tenant)
    ensures p.digest == f.digest && Held(r, p.digest, tenant) && p.body == BodyOf(r, p.digest, tenant)
  {
    var id :| id in r.rows && Bears(r, id, f.digest, tenant) && p == PinOf(r.rows[id]);
    BodyIsTheOne(r, f.digest, tenant, id);
  }

  lemma OperateKeepsInv(w: World, op: Operation)
    requires Inv(w) && Allowed(w.registry, op)
    ensures Inv(Apply(w, Operate(op))) && Follows(w, Apply(w, Operate(op)))
  {
    var w' := Apply(w, Operate(op));
    OperationKeepsSound(w.registry, op);
    forall c, kind | c in w.campaigns && kind in w.campaigns[c].pins
      ensures Backed(w'.registry, w.campaigns[c].pins[kind].digest, w.campaigns[c].tenant)
    {
      assert CampaignBacked(w.registry, w.campaigns[c]);
      BackedStays(w.registry, w'.registry, w.campaigns[c].pins[kind].digest, w.campaigns[c].tenant);
    }
    forall s, e | s in w.sessions && e in w.sessions[s].inputs
      ensures Backed(w'.registry, e.digest, w.sessions[s].tenant)
    {
      assert BundleBacked(w.registry, w.sessions[s]);
      BackedStays(w.registry, w'.registry, e.digest, w.sessions[s].tenant);
    }
  }

  lemma ComposeKeepsInv(w: World, step: Step)
    requires Inv(w) && Enabled(w, step) && step.Compose?
    ensures Inv(Apply(w, step)) && Follows(w, Apply(w, step))
  {
    forall e | e in Kept(step.sent) ensures Backed(w.registry, e.digest, step.request.tenant) {
      KeptWasSent(step.sent, e);
      var p :| p in step.sent && EntryOf(p) == e;
      SentIsBacked(w, step.request, step.sent, p);
    }
  }

  // Only the campaign a step names changes, and its pins stay backed.
  lemma CampaignKeepsInv(w: World, w': World, campaign: string)
    requires Inv(w) && w' == w.(campaigns := w'.campaigns)
    requires campaign in w'.campaigns && w'.campaigns == w.campaigns[campaign := w'.campaigns[campaign]]
    requires CampaignBacked(w.registry, w'.campaigns[campaign])
    ensures Inv(w')
  {
    forall c | c in w'.campaigns ensures CampaignBacked(w'.registry, w'.campaigns[c]) {
      if c != campaign { assert CampaignBacked(w.registry, w.campaigns[c]); }
    }
  }

  lemma CampaignFollows(w: World, w': World, campaign: string)
    requires w' == w.(campaigns := w'.campaigns)
    requires campaign in w'.campaigns && w'.campaigns == w.campaigns[campaign := w'.campaigns[campaign]]
    requires campaign in w.campaigns && w.campaigns[campaign].status != Unopened ==>
      w'.campaigns[campaign].(status := w.campaigns[campaign].status) == w.campaigns[campaign]
      && w'.campaigns[campaign].status != Unopened
    ensures Follows(w, w')
  {
  }

  lemma OpenKeepsInv(w: World, step: Step)
    requires Inv(w) && Enabled(w, step) && step.OpenUp?
    ensures Inv(Apply(w, step)) && Follows(w, Apply(w, step))
  {
    var c := w.campaigns[step.campaign];
    assert CampaignBacked(w.registry, c);
    OpeningIsBacked(w.registry, c.tenant, c.status, step.determined, step.requests);
    CampaignKeepsInv(w, Apply(w, step), step.campaign);
    CampaignFollows(w, Apply(w, step), step.campaign);
  }

  lemma DraftKeepsInv(w: World, step: Step)
    requires Inv(w) && Enabled(w, step) && step.DraftUp?
    ensures Inv(Apply(w, step)) && Follows(w, Apply(w, step))
  {
    CampaignKeepsInv(w, Apply(w, step), step.campaign);
    CampaignFollows(w, Apply(w, step), step.campaign);
  }

  lemma CloseKeepsInv(w: World, step: Step)
    requires Inv(w) && Enabled(w, step) && step.Close?
    ensures Inv(Apply(w, step)) && Follows(w, Apply(w, step))
  {
    assert CampaignBacked(w.registry, w.campaigns[step.campaign]);
    CampaignKeepsInv(w, Apply(w, step), step.campaign);
    CampaignFollows(w, Apply(w, step), step.campaign);
  }

  lemma StepKeepsInv(w: World, step: Step)
    requires Inv(w) && Enabled(w, step)
    ensures Inv(Apply(w, step)) && Follows(w, Apply(w, step))
  {
    match step
    case Operate(op) => OperateKeepsInv(w, op);
    case Compose(_, _, _, _) => ComposeKeepsInv(w, step);
    case OpenUp(_, _, _) => OpenKeepsInv(w, step);
    case DraftUp(_, _) => DraftKeepsInv(w, step);
    case Close(_) => CloseKeepsInv(w, step);
  }

  lemma {:induction false} RunsKeepInv(w: World, steps: seq<Step>)
    requires Inv(w) && Possible(w, steps)
    ensures Inv(After(w, steps)) && Follows(w, After(w, steps))
    decreases |steps|
  {
    if steps != [] {
      var next := Apply(w, steps[0]);
      StepKeepsInv(w, steps[0]);
      RunsKeepInv(next, steps[1..]);
      FollowsOn(w, next, After(next, steps[1..]));
    }
  }

  lemma FollowsOn(a: World, b: World, c: World)
    requires Follows(a, b) && Follows(b, c)
    ensures Follows(a, c)
  {
  }

  // ---------------------------------------------------------- pin stability

  // The session a composition made, named as the store knows it.
  function RefOf(step: Step): SessionRef
    requires step.Compose?
  {
    SessionRef(step.session, step.request.mode, step.candidate, step.request.tenant)
  }

  function BundleMade(step: Step): Bundle
    requires step.Compose?
  {
    Bundle(step.request.mode, step.candidate, step.request.tenant, Kept(step.sent))
  }

  lemma BundleStays(w: World, step: Step, steps: seq<Step>)
    requires Inv(w) && Enabled(w, step) && step.Compose? && Possible(Apply(w, step), steps)
    ensures var later := After(Apply(w, step), steps);
      && Inv(later) && ArtifactRegistry.Stands(w.registry, later.registry)
      && step.session in later.sessions && later.sessions[step.session] == BundleMade(step)
  {
    var next := Apply(w, step);
    StepKeepsInv(w, step);
    RunsKeepInv(next, steps);
    assert step.session in next.sessions;
  }

  // The session is readable under its own mode, candidate and tenant.
  lemma OwnRefReads(w: World, step: Step)
    requires step.Compose? && Storable(step.candidate, step.request.mode, step.request.tenant)
    requires step.session in w.sessions && w.sessions[step.session] == BundleMade(step)
    ensures FetchBundle(w, RefOf(step)) == Ok(BundleMade(step))
  {
    assert PRACTICE[0] == 'p' && SCREENING[0] == 's';
  }

  lemma PlanIsHeld(w: World, session: string, body: string)
    requires Inv(w) && session in w.sessions
    requires var b := w.sessions[session];
      LastOf(b.inputs, PLAN).Some? && Held(w.registry, LastOf(b.inputs, PLAN).value.digest, b.tenant)
      && BodyOf(w.registry, LastOf(b.inputs, PLAN).value.digest, b.tenant) == body
    ensures PlanRead(w.registry, w.sessions[session].inputs, w.sessions[session].tenant) == Ok(Some(body))
  {
    var b := w.sessions[session];
    forall e | e in b.inputs ensures Held(w.registry, e.digest, b.tenant) {
      assert BundleBacked(w.registry, b) && Backed(w.registry, e.digest, b.tenant);
    }
  }

  ghost predicate ReadsAs(reading: Reading, digest: string, body: string) {
    reading.Read? && reading.digest == digest && reading.body == body
  }

  // A session is read back with the pin that leads its kind, whatever happens to
  // the registry, the campaigns and the other sessions afterwards.
  lemma SessionKeepsItsPins(w: World, step: Step, steps: seq<Step>, kind: string, i: nat)
    requires Inv(w) && Enabled(w, step) && step.Compose? && Possible(Apply(w, step), steps)
    requires Leads(step.sent, kind, i)
    ensures Pinned(After(Apply(w, step), steps), RefOf(step), kind)
      == Read(step.sent[i].reference, step.sent[i].version, step.sent[i].digest, step.sent[i].body)
  {
    var later := After(Apply(w, step), steps);
    BundleStays(w, step, steps);
    OwnRefReads(later, step);
    ReadExactlyWhenItLeads(step.sent, kind, EntryOf(step.sent[i]));
    SentBodyStays(w, later, step, step.sent[i]);
  }

  // What is sent is a version of the registry, each part in its place.
  lemma SentIsARow(w: World, step: Step, p: Pin)
    requires Inv(w) && Enabled(w, step) && step.Compose? && p in step.sent
    ensures SomeRow(w.registry, step.request.tenant, p)
  {
    var tenant := step.request.tenant;
    if step.request.mode == SCREENING {
      FrozenSentIsARow(w.registry, FrozenPins(w.campaigns, tenant, step.request.campaign), tenant, step.sent, p);
    } else {
      CurrentSentIsARow(w.registry, step.request.blueprint, tenant, step.sent, p);
    }
  }

  lemma FrozenSentIsARow(r: Registry, frozen: seq<Frozen>, tenant: string, sent: seq<Pin>, p: Pin)
    requires Sound(r) && ScreeningAnswer(r, frozen, tenant, Ok(sent)) && p in sent
    ensures SomeRow(r, tenant, p)
  {
    AnswerCarries(r, frozen, tenant, sent);
    var policy := RowResolved(r, PRACTICE_POLICY, tenant);
    assert CarriesRow(sent[|frozen|], r.rows[policy]);
  }

  lemma CurrentSentIsARow(r: Registry, blueprint: string, tenant: string, sent: seq<Pin>, p: Pin)
    requires Sound(r) && PracticePins(r, blueprint, tenant) == Ok(sent) && p in sent
    ensures SomeRow(r, tenant, p)
  {
    var reference := if p == sent[0] then blueprint else if p == sent[1] then PRACTICE_RUBRIC else PRACTICE_POLICY;
    var id := RowResolved(r, reference, tenant);
    assert CarriesRow(p, r.rows[id]);
  }

  lemma RowResolved(r: Registry, reference: string, tenant: string) returns (id: nat)
    requires Sound(r) && Resolve(r, reference, tenant).Some?
    ensures id in r.rows && Resolve(r, reference, tenant) == Some(r.rows[id])
    ensures r.rows[id].tenant == "" || r.rows[id].tenant == tenant
  {
    var key := if (tenant, reference) in r.pointers then (tenant, reference) else ("", reference);
    assert PointerSound(r, key);
    id := r.pointers[key];
  }

  // So whatever a session reads for a kind is a version of that kind, as it stood in
  // the registry when the session was composed; and it reads one exactly when one of
  // that kind was sent.
  lemma WhatIsReadWasAVersion(w: World, step: Step, steps: seq<Step>, kind: string)
    requires Inv(w) && Enabled(w, step) && step.Compose? && Possible(Apply(w, step), steps)
    ensures var reading := Pinned(After(Apply(w, step), steps), RefOf(step), kind);
      if NoneOf(step.sent, kind) then reading == NotPinned
      else exists id :: id in w.registry.rows && IsReadAs(w.registry.rows[id], kind, step.request.tenant, reading)
  {
    var i := LeaderIsRead(step.sent, kind);
    if NoneOf(step.sent, kind) {
      NothingIsRead(w, step, steps, kind);
    } else {
      SessionKeepsItsPins(w, step, steps, kind, i);
      SentIsARow(w, step, step.sent[i]);
      var id :| id in w.registry.rows && CarriesRow(step.sent[i], w.registry.rows[id])
        && (w.registry.rows[id].tenant == "" || w.registry.rows[id].tenant == step.request.tenant);
      assert IsReadAs(w.registry.rows[id], kind, step.request.tenant,
                      Pinned(After(Apply(w, step), steps), RefOf(step), kind));
    }
  }

  // A version, as a reader under a tenant is given it.
  ghost predicate IsReadAs(a: Artifact, kind: string, tenant: string, reading: Reading) {
    && a.kind == kind && (a.tenant == "" || a.tenant == tenant)
    && reading == Read(a.reference, a.version, a.digest, a.body)
  }

  // And the plan that trails reaches the interviewer exactly when the interviewer
  // asks in the practice mode: every other mode is read under a tenant, and none
  // is given.
  lemma BriefKeepsThePlanExactlyWhen(w: World, step: Step, steps: seq<Step>, i: nat, mode: string)
    requires Inv(w) && Enabled(w, step) && step.Compose? && Possible(Apply(w, step), steps)
    requires Trails(step.sent, PLAN, i)
    ensures BriefOf(After(Apply(w, step), steps), step.session, step.candidate, mode) == Briefed(Some(step.sent[i].body))
      <==> mode == PRACTICE
  {
    var later := After(Apply(w, step), steps);
    BundleStays(w, step, steps);
    NoTenantNoBrief(later, step.session, step.candidate, mode);
    ReadExactlyWhenItLeads(step.sent, PLAN, EntryOf(step.sent[i]));
    SentBodyStays(w, later, step, step.sent[i]);
    PlanIsHeld(later, step.session, step.sent[i].body);
  }

  lemma NoTenantNoBrief(w: World, session: string, candidate: string, mode: string)
    ensures mode != PRACTICE ==> BriefOf(w, session, candidate, mode) == Unscoped(NoTenant)
  {
    assert Wrapping.Blank("");
  }

  // A screening session asked for in its own mode is never briefed, in any run
  // and whatever it pinned.
  lemma AScreeningRoomIsNeverBriefed(w: World, step: Step, steps: seq<Step>)
    requires Enabled(w, step) && step.Compose? && step.request.mode == SCREENING && Possible(Apply(w, step), steps)
    ensures BriefOf(After(Apply(w, step), steps), step.session, step.candidate, step.request.mode) == Unscoped(NoTenant)
  {
    assert PRACTICE[0] == 'p' && SCREENING[0] == 's';
    NoTenantNoBrief(After(Apply(w, step), steps), step.session, step.candidate, SCREENING);
  }

  // Nobody is briefed on another candidate's session.
  lemma OnlyItsOwnCandidateIsBriefed(w: World, step: Step, steps: seq<Step>, candidate: string, mode: string)
    requires Inv(w) && Enabled(w, step) && step.Compose? && Possible(Apply(w, step), steps)
    requires candidate != step.candidate
    ensures BriefOf(After(Apply(w, step), steps), step.session, candidate, mode).Unscoped?
  {
    BundleStays(w, step, steps);
    NoTenantNoBrief(After(Apply(w, step), steps), step.session, candidate, mode);
  }

  lemma SentIsHeld(w: World, step: Step, p: Pin)
    requires Inv(w) && Enabled(w, step) && step.Compose? && p in step.sent
    ensures Backed(w.registry, p.digest, step.request.tenant)
    ensures Held(w.registry, p.digest, step.request.tenant) && p.body == BodyOf(w.registry, p.digest, step.request.tenant)
  {
    SentIsBacked(w, step.request, step.sent, p);
  }

  lemma SentBodyStays(w: World, later: World, step: Step, p: Pin)
    requires Inv(w) && Inv(later) && ArtifactRegistry.Stands(w.registry, later.registry)
    requires Enabled(w, step) && step.Compose? && p in step.sent
    ensures Held(later.registry, p.digest, step.request.tenant)
    ensures BodyOf(later.registry, p.digest, step.request.tenant) == p.body
  {
    SentIsHeld(w, step, p);
    BodyStays(w.registry, later.registry, p.digest, step.request.tenant);
  }

  lemma ReachedInv(steps: seq<Step>)
    requires Possible(NEW, steps)
    ensures Inv(After(NEW, steps))
  {
    RunsKeepInv(NEW, steps);
  }

  // What a campaign froze can always be resolved again: composition is never
  // refused for a pin that has gone.
  lemma NoFrozenPinIsEverGone(steps: seq<Step>, request: Request, answer: Result<seq<Pin>, Failure>)
    requires Possible(NEW, steps)
    requires Answers(After(NEW, steps).registry, After(NEW, steps).campaigns, request, answer)
    ensures answer.Err? ==> !answer.error.PinGone?
  {
    ReachedInv(steps);
    var w := After(NEW, steps);
    if request.mode == SCREENING {
      FrozenAreHeld(w, request.tenant, request.campaign);
      NoneIsGone(w.registry, FrozenPins(w.campaigns, request.tenant, request.campaign), request.tenant, answer);
    }
  }

  lemma NoneIsGone(r: Registry, frozen: seq<Frozen>, tenant: string, answer: Result<seq<Pin>, Failure>)
    requires ScreeningAnswer(r, frozen, tenant, answer) && forall f | f in frozen :: Held(r, f.digest, tenant)
    ensures answer.Err? ==> !answer.error.PinGone?
  {
  }

  lemma FrozenAreHeld(w: World, tenant: string, campaign: string)
    requires Inv(w)
    ensures forall f | f in FrozenPins(w.campaigns, tenant, campaign) :: Held(w.registry, f.digest, tenant)
  {
    forall f | f in FrozenPins(w.campaigns, tenant, campaign) ensures Held(w.registry, f.digest, tenant) {
      FrozenIsBacked(w, tenant, campaign, f);
      assert Backed(w.registry, f.digest, tenant);
    }
  }

  // ------------------------------------------------------- what practice keeps

  // What a practice session is composed of. The other side only takes a blueprint
  // that is a plan.
  lemma PracticeSends(w: World, step: Step)
    requires Inv(w) && Enabled(w, step) && step.Compose? && step.request.mode != SCREENING
    ensures var r, tenant := w.registry, step.request.tenant;
      var plan, rubric, policy :=
        Resolve(r, step.request.blueprint, tenant), Resolve(r, PRACTICE_RUBRIC, tenant), Resolve(r, PRACTICE_POLICY, tenant);
      && plan.Some? && rubric.Some? && policy.Some?
      && step.sent == [PinOf(plan.value), PinOf(rubric.value), PinOf(policy.value)]
      && plan.value.kind == PLAN && plan.value.reference == step.request.blueprint
      && rubric.value.reference == PRACTICE_RUBRIC && policy.value.reference == PRACTICE_POLICY
  {
    var r, tenant := w.registry, step.request.tenant;
    ResolvedIsNamed(r, step.request.blueprint, tenant);
    ResolvedIsNamed(r, PRACTICE_RUBRIC, tenant);
    ResolvedIsNamed(r, PRACTICE_POLICY, tenant);
    PlanAmong(step.sent, step.request.blueprint, r, tenant);
  }

  lemma PlanAmong(sent: seq<Pin>, blueprint: string, r: Registry, tenant: string)
    requires Sound(r) && PracticePins(r, blueprint, tenant) == Ok(sent) && HasPlan(sent, blueprint)
    ensures Resolve(r, blueprint, tenant).Some? && Resolve(r, blueprint, tenant).value.kind == PLAN
  {
    ResolvedIsNamed(r, PRACTICE_RUBRIC, tenant);
    ResolvedIsNamed(r, PRACTICE_POLICY, tenant);
  }

  lemma ResolvedIsNamed(r: Registry, reference: string, tenant: string)
    requires Sound(r)
    ensures Resolve(r, reference, tenant).Some? ==> Resolve(r, reference, tenant).value.reference == reference
  {
    var key := if (tenant, reference) in r.pointers then (tenant, reference) else ("", reference);
    if key in r.pointers { assert PointerSound(r, key); }
  }

  // The policy's reference sorts before the rubric's.
  lemma PolicySortsFirst()
    ensures Ordering.StringLess(PRACTICE_POLICY, PRACTICE_RUBRIC) && !Ordering.StringLess(PRACTICE_RUBRIC, PRACTICE_POLICY)
    ensures PLAN != RUBRIC && PLAN != POLICY && RUBRIC != POLICY
  {
    assert PRACTICE_POLICY[0] == 'p' && PRACTICE_RUBRIC[0] == 'r';
    assert PLAN[0] == 'p' && RUBRIC[0] == 'r' && POLICY[0] == 'm';
  }

  // Of the three, which leads a kind that is not the plan's.
  lemma PracticeLeader(sent: seq<Pin>, kind: string)
    requires |sent| == 3 && sent[0].kind == PLAN && kind != PLAN
    requires sent[1].reference == PRACTICE_RUBRIC && sent[2].reference == PRACTICE_POLICY
    ensures if sent[2].kind == kind then Leads(sent, kind, 2)
            else if sent[1].kind == kind then Leads(sent, kind, 1)
            else NoneOf(sent, kind)
  {
    PolicySortsFirst();
  }

  // A practice session goes on being judged by the rubric that was current when it
  // was composed, and by the model policy, exactly when the current policy does not
  // stand in for the rubric, nor the rubric for the policy.
  lemma PracticeIsJudgedExactlyWhen(steps: seq<Step>, step: Step, more: seq<Step>)
    requires Possible(NEW, steps) && Enabled(After(NEW, steps), step)
    requires step.Compose? && step.request.mode != SCREENING
    requires Possible(Apply(After(NEW, steps), step), more)
    ensures var r := After(NEW, steps).registry;
      var tenant := step.request.tenant;
      var later := After(Apply(After(NEW, steps), step), more);
      var rubric, policy := Resolve(r, PRACTICE_RUBRIC, tenant), Resolve(r, PRACTICE_POLICY, tenant);
      && rubric.Some? && policy.Some?
      && (ReadsAs(Pinned(later, RefOf(step), RUBRIC), rubric.value.digest, rubric.value.body) <==>
            if policy.value.kind == RUBRIC then policy.value.digest == rubric.value.digest
            else rubric.value.kind == RUBRIC)
      && (ReadsAs(Pinned(later, RefOf(step), POLICY), policy.value.digest, policy.value.body) <==>
            || policy.value.kind == POLICY
            || (rubric.value.kind == POLICY && rubric.value.digest == policy.value.digest))
      && (IsReadAs(rubric.value, RUBRIC, tenant, Pinned(later, RefOf(step), RUBRIC)) <==>
            rubric.value.kind == RUBRIC && policy.value.kind != RUBRIC)
      && (IsReadAs(policy.value, POLICY, tenant, Pinned(later, RefOf(step), POLICY)) <==> policy.value.kind == POLICY)
  {
    ReachedInv(steps);
    var w := After(NEW, steps);
    PracticeSends(w, step);
    PolicySortsFirst();
    PracticeReads(w, step, more, RUBRIC);
    PracticeReads(w, step, more, POLICY);
    SentIsHeld(w, step, step.sent[1]);
    SentIsHeld(w, step, step.sent[2]);
    var rubric := RowResolved(w.registry, PRACTICE_RUBRIC, step.request.tenant);
    var policy := RowResolved(w.registry, PRACTICE_POLICY, step.request.tenant);
  }

  predicate SaysPin(reading: Reading, p: Pin) {
    reading == Read(p.reference, p.version, p.digest, p.body)
  }

  // What is read of a practice session for a kind that is not the plan's.
  lemma PracticeReads(w: World, step: Step, more: seq<Step>, kind: string)
    requires Inv(w) && Enabled(w, step) && step.Compose? && step.request.mode != SCREENING
    requires Possible(Apply(w, step), more) && kind != PLAN
    ensures |step.sent| == 3
    ensures var reading := Pinned(After(Apply(w, step), more), RefOf(step), kind);
      if step.sent[2].kind == kind then SaysPin(reading, step.sent[2])
      else if step.sent[1].kind == kind then SaysPin(reading, step.sent[1])
      else !reading.Read?
  {
    PracticeSends(w, step);
    PracticeLeader(step.sent, kind);
    if step.sent[2].kind == kind {
      SessionKeepsItsPins(w, step, more, kind, 2);
    } else if step.sent[1].kind == kind {
      SessionKeepsItsPins(w, step, more, kind, 1);
    } else {
      NothingIsRead(w, step, more, kind);
    }
  }

  lemma NothingIsRead(w: World, step: Step, more: seq<Step>, kind: string)
    requires Inv(w) && Enabled(w, step) && step.Compose? && Possible(Apply(w, step), more)
    requires NoneOf(step.sent, kind)
    ensures Pinned(After(Apply(w, step), more), RefOf(step), kind) == NotPinned
  {
    BundleStays(w, step, more);
    OwnRefReads(After(Apply(w, step), more), step);
    var k := LeaderIsRead(step.sent, kind);
  }

  // And where the platform's two are of their kinds, the brief is of the plan that
  // was current too.
  lemma PracticeKeepsWhatWasCurrent(steps: seq<Step>, step: Step, more: seq<Step>)
    requires Possible(NEW, steps) && Enabled(After(NEW, steps), step)
    requires step.Compose? && step.request.mode != SCREENING
    requires Possible(Apply(After(NEW, steps), step), more)
    requires var r := After(NEW, steps).registry;
      var tenant := step.request.tenant;
      OfKind(Resolve(r, PRACTICE_RUBRIC, tenant), RUBRIC) && OfKind(Resolve(r, PRACTICE_POLICY, tenant), POLICY)
    ensures var r := After(NEW, steps).registry;
      var tenant := step.request.tenant;
      var later := After(Apply(After(NEW, steps), step), more);
      var plan, rubric, policy :=
        Resolve(r, step.request.blueprint, tenant), Resolve(r, PRACTICE_RUBRIC, tenant), Resolve(r, PRACTICE_POLICY, tenant);
      && plan.Some? && rubric.Some? && policy.Some? && plan.value.kind == "plan"
      && Pinned(later, RefOf(step), "rubric")
         == Read(rubric.value.reference, rubric.value.version, rubric.value.digest, rubric.value.body)
      && Pinned(later, RefOf(step), "model_policy")
         == Read(policy.value.reference, policy.value.version, policy.value.digest, policy.value.body)
      && rubric.value.reference == "rubric/practice-default" && policy.value.reference == "policy/practice-default"
      && BriefOf(later, step.session, step.candidate, "practice") == Briefed(Some(plan.value.body))
  {
    ReachedInv(steps);
    PracticeIsJudgedExactlyWhen(steps, step, more);
    PolicySortsFirst();
    PracticeSends(After(NEW, steps), step);
    PracticePlanIsBriefed(After(NEW, steps), step, more);
  }

  lemma PracticePlanIsBriefed(w: World, step: Step, more: seq<Step>)
    requires Inv(w) && Enabled(w, step) && step.Compose? && Possible(Apply(w, step), more)
    requires |step.sent| == 3 && step.sent[0].kind == PLAN && step.sent[1].kind == RUBRIC && step.sent[2].kind == POLICY
    ensures BriefOf(After(Apply(w, step), more), step.session, step.candidate, PRACTICE)
      == Briefed(Some(step.sent[0].body))
  {
    OnlyPlanTrails(step.sent);
    BriefKeepsThePlanExactlyWhen(w, step, more, 0, PRACTICE);
  }

  lemma OnlyPlanTrails(sent: seq<Pin>)
    requires |sent| == 3 && sent[0].kind == PLAN && sent[1].kind == RUBRIC && sent[2].kind == POLICY
    ensures Trails(sent, PLAN, 0)
  {
    PolicySortsFirst();
  }

  ghost predicate OfKind(a: Option<Artifact>, kind: string) {
    a.Some? ==> a.value.kind == kind
  }

  // A practice session can be composed exactly when its identity is new, somebody asks for
  // it, its blueprint's reference resolves to a plan, and the platform's rubric and policy
  // resolve, whatever their kinds.
  lemma PracticeComposesExactlyWhen(w: World, session: string, candidate: string, blueprint: string)
    requires Inv(w)
    ensures (exists sent :: Enabled(w, Compose(session, candidate, Request("practice", blueprint, "", ""), sent))) <==>
      && session != "" && session !in w.sessions && !Wrapping.Blank(candidate) && blueprint != ""
      && Resolve(w.registry, blueprint, "").Some? && Resolve(w.registry, blueprint, "").value.kind == "plan"
      && Resolve(w.registry, "rubric/practice-default", "").Some?
      && Resolve(w.registry, "policy/practice-default", "").Some?
  {
    var r, request := w.registry, Request("practice", blueprint, "", "");
    var pins := PracticePins(r, blueprint, "");
    PracticeIsNoScreening();
    if sent :| Enabled(w, Compose(session, candidate, request, sent)) {
      PlanAmong(sent, blueprint, r, "");
    }
    if blueprint != "" && pins.Ok? && Resolve(r, blueprint, "").value.kind == PLAN {
      ResolvedIsNamed(r, blueprint, "");
      assert HasPlan(pins.value, blueprint) by { assert pins.value[0].kind == PLAN; }
      if session != "" && session !in w.sessions && !Wrapping.Blank(candidate) {
        assert Enabled(w, Compose(session, candidate, request, pins.value));
      }
    }
  }

  lemma PracticeIsNoScreening()
    ensures PRACTICE != SCREENING
  {
    assert PRACTICE[0] == 'p' && SCREENING[0] == 's';
  }

  // ------------------------------------------------------------- whose they are

  // A practice session has no tenant, a screening session has one, each has a
  // candidate, and there is no other kind.
  ghost predicate Shaped(w: World) {
    forall s | s in w.sessions ::
      && (exists c :: c in w.sessions[s].candidate && !Wrapping.IsSpace(c))
      && if w.sessions[s].mode == "practice" then w.sessions[s].tenant == ""
         else w.sessions[s].mode == "screening" && exists c :: c in w.sessions[s].tenant && !Wrapping.IsSpace(c)
  }

  lemma NotBlank(s: string)
    requires !Wrapping.Blank(s)
    ensures exists c :: c in s && !Wrapping.IsSpace(c)
  {
    var i :| 0 <= i < |s| && !Wrapping.IsSpace(s[i]);
    assert s[i] in s;
  }

  lemma StepShapes(w: World, step: Step)
    requires Shaped(w) && Enabled(w, step)
    ensures Shaped(Apply(w, step))
  {
    if step.Compose? {
      NotBlank(step.candidate);
      if step.request.mode != PRACTICE { NotBlank(step.request.tenant); }
    }
  }

  lemma {:induction false} RunsShape(w: World, steps: seq<Step>)
    requires Shaped(w) && Possible(w, steps)
    ensures Shaped(After(w, steps))
    decreases |steps|
  {
    if steps != [] {
      StepShapes(w, steps[0]);
      RunsShape(Apply(w, steps[0]), steps[1..]);
    }
  }

  lemma SessionsAreShaped(steps: seq<Step>)
    requires Possible(NEW, steps)
    ensures Shaped(After(NEW, steps))
  {
    RunsShape(NEW, steps);
  }
}
