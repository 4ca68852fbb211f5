/**
 * Which pins a screening session is judged by: what its campaign froze, exactly
 * when no other pin that may be sent comes before it.
 */
module ScreeningPins {
  import opened Wrappers
  import opened ArtifactRegistry
  import opened Pinning
  import opened Composer
  import opened SessionBundles
  import opened PinStability
  import opened PinTheorems
  import Ordering
  import Wrapping

  // What a screening composition is made from: the registry, what the campaign
  // froze, in order, and the blueprint the other side looks for.
  datatype Setting = Setting(registry: Registry, frozen: seq<Frozen>, tenant: string, blueprint: string)

  // What may be sent in each place: for a frozen digest any visible version bearing
  // it, and last the model policy.
  ghost predicate MayAnswer(x: Setting, i: nat, p: Pin) {
    var policy := Resolve(x.registry, PRACTICE_POLICY, x.tenant);
    if i < |x.frozen| then PinHolds(x.registry, x.frozen[i], x.tenant, p)
    else i == |x.frozen| && policy.Some? && p == PinOf(policy.value)
  }

  // A plan the blueprint names, in one of the places. Without one there is no bundle.
  ghost predicate Carries(x: Setting, place: nat, plan: Pin) {
    && x.frozen != [] && Resolve(x.registry, PRACTICE_POLICY, x.tenant).Some?
    && MayAnswer(x, place, plan) && plan.kind == PLAN && plan.reference == x.blueprint
  }

  // What may be sent in the other places then.
  ghost predicate May(x: Setting, place: nat, plan: Pin, i: nat, p: Pin) {
    MayAnswer(x, i, p) && (i == place ==> p == plan)
  }

  // A place where nothing but the digest can be sent, and as of the kind.
  ghost predicate Sure(x: Setting, place: nat, plan: Pin, kind: string, digest: string, i: nat) {
    i <= |x.frozen| && forall p | May(x, place, plan, i, p) :: p.kind == kind && p.digest == digest
  }

  // Something else that may be sent as of the kind.
  ghost predicate Rivals(x: Setting, place: nat, plan: Pin, kind: string, digest: string, j: nat, q: Pin) {
    May(x, place, plan, j, q) && q.kind == kind && q.digest != digest
  }

  // A sure place that comes before it, whatever is sent there.
  ghost predicate Guards(
      x: Setting, place: nat, plan: Pin, kind: string, digest: string, j: nat, q: Pin, i: nat)
  {
    && i <= |x.frozen|
    && forall p | May(x, place, plan, i, p) :: p.kind == kind && p.digest == digest && Sooner(p, i, q, j)
  }

  ghost predicate PrevailsBeside(x: Setting, place: nat, plan: Pin, kind: string, digest: string) {
    && (exists i: nat :: Sure(x, place, plan, kind, digest, i))
    && forall j: nat, q | Rivals(x, place, plan, kind, digest, j, q) ::
         exists i: nat :: Guards(x, place, plan, kind, digest, j, q, i)
  }

  // A digest prevails for a kind: beside any plan that makes a bundle, some place is
  // sure to hold it, and whatever else may be sent as of the kind comes after one.
  ghost predicate Prevails(x: Setting, kind: string, digest: string) {
    forall place: nat, plan | Carries(x, place, plan) :: PrevailsBeside(x, place, plan, kind, digest)
  }

  // ------------------------------------------------------ in one composition

  // Some pins that make a bundle.
  ghost predicate Makes(x: Setting, sent: seq<Pin>) {
    ScreeningAnswer(x.registry, x.frozen, x.tenant, Ok(sent)) && HasPlan(sent, x.blueprint)
  }

  lemma MadeOfAnswers(x: Setting, sent: seq<Pin>)
    ensures ScreeningAnswer(x.registry, x.frozen, x.tenant, Ok(sent)) <==>
      && x.frozen != [] && Resolve(x.registry, PRACTICE_POLICY, x.tenant).Some? && |sent| == |x.frozen| + 1
      && forall i | 0 <= i < |sent| :: MayAnswer(x, i, sent[i])
  {
  }

  lemma PrevailingLeads(x: Setting, sent: seq<Pin>, kind: string, digest: string) returns (i: nat)
    requires Makes(x, sent) && Prevails(x, kind, digest)
    ensures Leads(sent, kind, i) && sent[i].digest == digest
  {
    MadeOfAnswers(x, sent);
    var place :| 0 <= place < |sent| && sent[place].kind == PLAN && sent[place].reference == x.blueprint;
    assert Carries(x, place, sent[place]);
    forall k | 0 <= k < |sent| ensures May(x, place, sent[place], k, sent[k]) {}
    var sure: nat :| Sure(x, place, sent[place], kind, digest, sure);
    assert sent[sure].kind == kind;
    i := LeaderIsRead(sent, kind);
    if sent[i].digest != digest {
      assert Rivals(x, place, sent[place], kind, digest, i, sent[i]);
      var guard: nat :| Guards(x, place, sent[place], kind, digest, i, sent[i], guard);
      BothSooner(sent[guard], guard, sent[i], i);
    }
  }

  // Where there is a bundle, no two digests prevail.
  lemma OnePrevails(x: Setting, sent: seq<Pin>, kind: string, one: string, other: string)
    requires Makes(x, sent) && Prevails(x, kind, one) && Prevails(x, kind, other)
    ensures one == other
  {
    var i := PrevailingLeads(x, sent, kind, one);
    var j := PrevailingLeads(x, sent, kind, other);
    OneLeads(sent, kind, i, j);
  }

  // Where it does not prevail, some pins make a bundle in which another leads, or
  // none does.
  lemma NotPrevailingIsMissed(x: Setting, kind: string, digest: string) returns (sent: seq<Pin>)
    requires !Prevails(x, kind, digest)
    ensures Makes(x, sent) && forall i: nat | Leads(sent, kind, i) :: sent[i].digest != digest
  {
    var place: nat, plan :| Carries(x, place, plan) && !PrevailsBeside(x, place, plan, kind, digest);
    if j: nat, q :| Unguarded(x, place, plan, kind, digest, j, q) {
      sent := Outranked(x, place, plan, kind, digest, j, q);
    } else {
      forall j: nat, q | Rivals(x, place, plan, kind, digest, j, q)
        ensures exists i: nat :: Guards(x, place, plan, kind, digest, j, q, i)
      {
        assert !Unguarded(x, place, plan, kind, digest, j, q);
      }
      sent := Unsure(x, place, plan, kind, digest);
    }
  }

  ghost predicate Unguarded(x: Setting, place: nat, plan: Pin, kind: string, digest: string, j: nat, q: Pin) {
    && Rivals(x, place, plan, kind, digest, j, q)
    && forall i: nat :: !Guards(x, place, plan, kind, digest, j, q, i)
  }

  // What may be sent in a place includes something that fails a test.
  ghost predicate MayFail(x: Setting, place: nat, plan: Pin, good: (nat, Pin) -> bool, i: nat) {
    exists p :: May(x, place, plan, i, p) && !good(i, p)
  }

  // Pins sent in each place that fail it.
  lemma FailingEverywhere(x: Setting, place: nat, plan: Pin, good: (nat, Pin) -> bool) returns (sent: seq<Pin>)
    requires Carries(x, place, plan)
    requires forall i: nat | i <= |x.frozen| :: MayFail(x, place, plan, good, i)
    ensures Makes(x, sent) && |sent| == |x.frozen| + 1
    ensures forall i | 0 <= i < |sent| :: May(x, place, plan, i, sent[i]) && !good(i, sent[i])
  {
    sent := seq(|x.frozen| + 1, i requires 0 <= i <= |x.frozen| && MayFail(x, place, plan, good, i) =>
      Failing(x, place, plan, good, i));
    MadeOfAnswers(x, sent);
    assert sent[place] == plan;
  }

  ghost function Failing(x: Setting, place: nat, plan: Pin, good: (nat, Pin) -> bool, i: nat): (p: Pin)
    requires MayFail(x, place, plan, good, i)
    ensures May(x, place, plan, i, p) && !good(i, p)
  {
    var p :| May(x, place, plan, i, p) && !good(i, p); p
  }

  lemma Unsure(x: Setting, place: nat, plan: Pin, kind: string, digest: string) returns (sent: seq<Pin>)
    requires Carries(x, place, plan) && forall i: nat :: !Sure(x, place, plan, kind, digest, i)
    ensures Makes(x, sent) && forall i: nat | Leads(sent, kind, i) :: sent[i].digest != digest
  {
    var good := (i: nat, p: Pin) => p.kind == kind && p.digest == digest;
    forall i: nat | i <= |x.frozen| ensures MayFail(x, place, plan, good, i) {
      assert !Sure(x, place, plan, kind, digest, i);
      var p :| May(x, place, plan, i, p) && !(p.kind == kind && p.digest == digest);
      assert !good(i, p);
    }
    sent := FailingEverywhere(x, place, plan, good);
  }

  lemma Outranked(x: Setting, place: nat, plan: Pin, kind: string, digest: string, j: nat, q: Pin)
    returns (sent: seq<Pin>)
    requires Carries(x, place, plan) && Unguarded(x, place, plan, kind, digest, j, q)
    ensures Makes(x, sent) && forall i: nat | Leads(sent, kind, i) :: sent[i].digest != digest
  {
    var good := (i: nat, p: Pin) =>
      if i == j then p != q else p.kind == kind && p.digest == digest && Sooner(p, i, q, j);
    forall i: nat | i <= |x.frozen| ensures MayFail(x, place, plan, good, i) {
      if i == j {
        assert !good(i, q);
      } else {
        assert !Guards(x, place, plan, kind, digest, j, q, i);
        var p :| May(x, place, plan, i, p) && !(p.kind == kind && p.digest == digest && Sooner(p, i, q, j));
        assert !good(i, p);
      }
    }
    sent := FailingEverywhere(x, place, plan, good);
    assert sent[j] == q;
  }

  // What is plain to see: every version that may answer in one place is of the kind
  // and under one reference, and every rival's reference sorts after it.
  ghost predicate SortsFirst(x: Setting, kind: string, i: nat, reference: string) {
    && i < |x.frozen|
    && (forall p | MayAnswer(x, i, p) :: p.kind == kind && p.reference == reference)
    && forall j: nat, q | MayAnswer(x, j, q) && q.kind == kind && q.digest != x.frozen[i].digest ::
         Ordering.StringLess(reference, q.reference)
  }

  lemma WhatSortsFirstPrevails(x: Setting, kind: string, i: nat, reference: string)
    requires SortsFirst(x, kind, i, reference)
    ensures Prevails(x, kind, x.frozen[i].digest)
  {
    var digest := x.frozen[i].digest;
    forall place: nat, plan | Carries(x, place, plan) ensures PrevailsBeside(x, place, plan, kind, digest) {
      assert Sure(x, place, plan, kind, digest, i);
      forall j: nat, q | Rivals(x, place, plan, kind, digest, j, q)
        ensures exists k: nat :: Guards(x, place, plan, kind, digest, j, q, k)
      {
        assert Guards(x, place, plan, kind, digest, j, q, i);
      }
    }
  }

  // ----------------------------------------------------- in every composition

  ghost function SettingOf(w: World, campaign: string): Setting
    requires campaign in w.campaigns
  {
    Setting(w.registry, InKindOrder(w.campaigns[campaign].pins), w.campaigns[campaign].tenant, CampaignBlueprint(campaign))
  }

  // A screening session composed now for a campaign, and what follows it.
  ghost predicate Composes(w: World, campaign: string, composed: Step, more: seq<Step>) {
    && composed.Compose? && Enabled(w, composed) && Possible(Apply(w, composed), more)
    && composed.request.mode == SCREENING && composed.request.campaign == campaign
    && campaign in w.campaigns && composed.request.tenant == w.campaigns[campaign].tenant
  }

  // What is read then has a digest and a body, and is a version of the kind, under its
  // own reference and number.
  ghost predicate ReadsBack(w: World, composed: Step, more: seq<Step>, kind: string, digest: string, body: string)
    requires composed.Compose? && Enabled(w, composed) && Possible(Apply(w, composed), more)
  {
    var reading := Pinned(After(Apply(w, composed), more), RefOf(composed), kind);
    && ReadsAs(reading, digest, body)
    && exists id :: id in w.registry.rows && IsReadAs(w.registry.rows[id], kind, composed.request.tenant, reading)
  }

  // However a campaign's session is composed now and whenever it is read.
  ghost predicate AlwaysReadsBack(w: World, campaign: string, kind: string, digest: string, body: string) {
    forall composed, more | Composes(w, campaign, composed, more) :: ReadsBack(w, composed, more, kind, digest, body)
  }

  lemma ComposedMakes(w: World, campaign: string, composed: Step, more: seq<Step>)
    requires Composes(w, campaign, composed, more)
    ensures Makes(SettingOf(w, campaign), composed.sent)
  {
  }

  const SOMEBODY := "x"

  function Composed(w: World, campaign: string, session: string, sent: seq<Pin>): Step
    requires campaign in w.campaigns
  {
    var request := Request(SCREENING, CampaignBlueprint(campaign), w.campaigns[campaign].tenant, campaign);
    Compose(session, SOMEBODY, request, sent)
  }

  // Whatever makes a bundle makes a session.
  lemma CanCompose(w: World, campaign: string, sent: seq<Pin>) returns (composed: Step)
    requires Inv(w) && campaign in w.campaigns && Makes(SettingOf(w, campaign), sent)
    ensures Composes(w, campaign, composed, []) && composed.sent == sent
  {
    var session := Ordering.FreshName(w.sessions.Keys);
    composed := Composed(w, campaign, session, sent);
    SomebodyIsStorable(w, campaign);
    MadeIsBundled(session, campaign, sent);
    MadeIsAnswered(w, composed);
    EnabledWhenBundled(w, composed);
  }

  lemma EnabledWhenBundled(w: World, composed: Step)
    requires composed.Compose? && composed.session !in w.sessions
    requires var request := composed.request;
      && Storable(composed.candidate, request.mode, request.tenant)
      && request.blueprint == CampaignBlueprint(request.campaign)
      && Answers(w.registry, w.campaigns, request, Ok(composed.sent))
      && Bundled(composed.session, request.blueprint, request.mode, composed.sent).Ok?
    ensures Enabled(w, composed)
  {
  }

  lemma MadeIsAnswered(w: World, composed: Step)
    requires composed.Compose? && composed.request.campaign in w.campaigns
    requires var request, campaign := composed.request, composed.request.campaign;
      && request == Request(SCREENING, CampaignBlueprint(campaign), w.campaigns[campaign].tenant, campaign)
      && Makes(SettingOf(w, campaign), composed.sent)
    ensures Answers(w.registry, w.campaigns, composed.request, Ok(composed.sent))
  {
  }

  lemma SomebodyIsStorable(w: World, campaign: string)
    requires Inv(w) && campaign in w.campaigns
    ensures Storable(SOMEBODY, SCREENING, w.campaigns[campaign].tenant)
  {
    assert CampaignBacked(w.registry, w.campaigns[campaign]);
    assert !Wrapping.IsSpace(SOMEBODY[0]);
  }

  lemma MadeIsBundled(session: string, campaign: string, sent: seq<Pin>)
    requires session != "" && HasPlan(sent, CampaignBlueprint(campaign))
    ensures Bundled(session, CampaignBlueprint(campaign), SCREENING, sent).Ok?
  {
    assert CampaignBlueprint(campaign)[0] == 'c';
  }

  lemma PinsAreHeld(w: World, campaign: string)
    requires Inv(w) && campaign in w.campaigns
    ensures var x := SettingOf(w, campaign); forall f | f in x.frozen :: Held(w.registry, f.digest, x.tenant)
  {
    FrozenAreHeld(w, w.campaigns[campaign].tenant, campaign);
  }

  // A plan named after the campaign may answer for one of its pins.
  ghost predicate PlanNamedAfter(w: World, campaign: string)
    requires campaign in w.campaigns
  {
    var c := w.campaigns[campaign];
    exists kind, id :: kind in c.pins && id in w.registry.rows && Bears(w.registry, id, c.pins[kind].digest, c.tenant)
      && w.registry.rows[id].kind == "plan" && w.registry.rows[id].reference == "campaign/" + campaign
  }

  // A campaign's session can be composed at all exactly when such a plan may be
  // sent, and there is a policy.
  lemma ScreeningComposesExactlyWhen(w: World, campaign: string)
    requires Inv(w) && campaign in w.campaigns
    ensures (exists composed :: Composes(w, campaign, composed, [])) <==>
      PlanNamedAfter(w, campaign) && Resolve(w.registry, PRACTICE_POLICY, w.campaigns[campaign].tenant).Some?
  {
    if composed :| Composes(w, campaign, composed, []) {
      ComposedMakes(w, campaign, composed, []);
      MadeCarriesPlan(w, campaign, composed.sent);
    }
    if PlanNamedAfter(w, campaign) && Resolve(w.registry, PRACTICE_POLICY, w.campaigns[campaign].tenant).Some? {
      var sent := PlanMakes(w, campaign);
      var composed := CanCompose(w, campaign, sent);
    }
  }

  lemma MadeCarriesPlan(w: World, campaign: string, sent: seq<Pin>)
    requires Inv(w) && campaign in w.campaigns && Makes(SettingOf(w, campaign), sent)
    ensures PlanNamedAfter(w, campaign)
    ensures Resolve(w.registry, PRACTICE_POLICY, w.campaigns[campaign].tenant).Some?
  {
    var x, c := SettingOf(w, campaign), w.campaigns[campaign];
    MadeOfAnswers(x, sent);
    var i :| 0 <= i < |sent| && sent[i].kind == PLAN && sent[i].reference == x.blueprint;
    PolicyIsNotNamedAfter(w, campaign);
    assert MayAnswer(x, i, sent[i]);
    FrozenUnderSomeKind(c.pins, x.frozen[i]);
  }

  lemma PolicyIsNotNamedAfter(w: World, campaign: string)
    requires Inv(w) && campaign in w.campaigns
    ensures var policy := Resolve(w.registry, PRACTICE_POLICY, w.campaigns[campaign].tenant);
      policy.Some? ==> policy.value.reference != CampaignBlueprint(campaign)
  {
    ResolvedIsNamed(w.registry, PRACTICE_POLICY, w.campaigns[campaign].tenant);
    assert PRACTICE_POLICY[0] == 'p' && CampaignBlueprint(campaign)[0] == 'c';
  }

  lemma PlanMakes(w: World, campaign: string) returns (sent: seq<Pin>)
    requires Inv(w) && campaign in w.campaigns && PlanNamedAfter(w, campaign)
    requires Resolve(w.registry, PRACTICE_POLICY, w.campaigns[campaign].tenant).Some?
    ensures Makes(SettingOf(w, campaign), sent)
  {
    var x, c, r := SettingOf(w, campaign), w.campaigns[campaign], w.registry;
    var kind, id :| kind in c.pins && id in r.rows && Bears(r, id, c.pins[kind].digest, c.tenant)
      && r.rows[id].kind == PLAN && r.rows[id].reference == x.blueprint;
    var place := PlaceOf(c.pins, kind);
    var plan := PinOf(r.rows[id]);
    assert PinHolds(r, x.frozen[place], x.tenant, plan);
    var never := (i: nat, p: Pin) => false;
    forall i: nat | i <= |x.frozen| ensures MayFail(x, place, plan, never, i) {
      var p := SomeAnswer(w, campaign, place, plan, i);
      assert !never(i, p);
    }
    sent := FailingEverywhere(x, place, plan, never);
  }

  lemma SomeAnswer(w: World, campaign: string, place: nat, plan: Pin, i: nat) returns (p: Pin)
    requires Inv(w) && campaign in w.campaigns && Carries(SettingOf(w, campaign), place, plan)
    requires i <= |SettingOf(w, campaign).frozen|
    ensures May(SettingOf(w, campaign), place, plan, i, p)
  {
    var x := SettingOf(w, campaign);
    p := plan;
    if i == |x.frozen| && i != place {
      p := PinOf(Resolve(x.registry, PRACTICE_POLICY, x.tenant).value);
    } else if i != place {
      PinsAreHeld(w, campaign);
      assert x.frozen[i] in x.frozen;
      var id :| id in x.registry.rows && Bears(x.registry, id, x.frozen[i].digest, x.tenant);
      p := PinOf(x.registry.rows[id]);
    }
  }

  lemma PlaceOf(pins: map<string, Frozen>, kind: string) returns (k: nat)
    requires kind in pins
    ensures k < |InKindOrder(pins)| && InKindOrder(pins)[k] == pins[kind]
  {
    Listed(pins.Keys);
    k :| 0 <= k < |InKindOrder(pins)| && Ordering.InOrder(pins.Keys)[k] == kind;
  }

  lemma PrevailingReadsBack(w: World, campaign: string, composed: Step, more: seq<Step>, kind: string, digest: string)
    requires Inv(w) && Composes(w, campaign, composed, more) && Prevails(SettingOf(w, campaign), kind, digest)
    ensures Held(w.registry, digest, w.campaigns[campaign].tenant)
    ensures ReadsBack(w, composed, more, kind, digest, BodyOf(w.registry, digest, w.campaigns[campaign].tenant))
  {
    ComposedMakes(w, campaign, composed, more);
    var i := PrevailingLeads(SettingOf(w, campaign), composed.sent, kind, digest);
    SentIsHeld(w, composed, composed.sent[i]);
    SessionKeepsItsPins(w, composed, more, kind, i);
    WhatIsReadWasAVersion(w, composed, more, kind);
  }

  // Where a digest does not prevail, there is a composition that is judged by
  // something else, or by nothing.
  lemma NotPrevailingIsMisjudged(w: World, campaign: string, kind: string, digest: string) returns (composed: Step)
    requires Inv(w) && campaign in w.campaigns && !Prevails(SettingOf(w, campaign), kind, digest)
    ensures Composes(w, campaign, composed, [])
    ensures forall body :: !ReadsAs(Pinned(After(Apply(w, composed), []), RefOf(composed), kind), digest, body)
  {
    var sent := NotPrevailingIsMissed(SettingOf(w, campaign), kind, digest);
    composed := CanCompose(w, campaign, sent);
    MissedReadsOther(w, composed, kind, digest);
  }

  lemma MissedReadsOther(w: World, composed: Step, kind: string, digest: string)
    requires composed.Compose? && Enabled(w, composed)
    requires forall i: nat | Leads(composed.sent, kind, i) :: composed.sent[i].digest != digest
    ensures forall body :: !ReadsAs(Pinned(After(Apply(w, composed), []), RefOf(composed), kind), digest, body)
  {
    var next := Apply(w, composed);
    assert After(next, []) == next;
    OwnRefReads(next, composed);
    var k := LeaderIsRead(composed.sent, kind);
  }

  // Composed in any way and read at any later time, the screening sessions of a
  // campaign are judged, for a kind, by a given digest exactly when it prevails.
  lemma JudgedExactlyWhenItPrevails(w: World, campaign: string, kind: string, digest: string, body: string)
    requires Inv(w) && campaign in w.campaigns
    requires Held(w.registry, digest, w.campaigns[campaign].tenant)
    requires body == BodyOf(w.registry, digest, w.campaigns[campaign].tenant)
    ensures Prevails(SettingOf(w, campaign), kind, digest) <==> AlwaysReadsBack(w, campaign, kind, digest, body)
  {
    if Prevails(SettingOf(w, campaign), kind, digest) {
      forall composed, more | Composes(w, campaign, composed, more)
        ensures ReadsBack(w, composed, more, kind, digest, body)
      {
        PrevailingReadsBack(w, campaign, composed, more, kind, digest);
      }
    } else {
      var composed := NotPrevailingIsMisjudged(w, campaign, kind, digest);
      assert !ReadsAs(Pinned(After(Apply(w, composed), []), RefOf(composed), kind), digest, body);
      assert Composes(w, campaign, composed, []) && !ReadsBack(w, composed, [], kind, digest, body);
    }
  }

  // From opening to reading: the screening sessions of a campaign, composed at any
  // time after it opened and read at any time after that, are judged by what its
  // reference for a kind pointed at when it opened, exactly when that prevails.
  lemma ScreeningKeepsWhatTheCampaignFroze(
    steps: seq<Step>, w0: World, opening: Step, between: seq<Step>, w: World, i: nat)
    requires Possible(NEW, steps) && w0 == After(NEW, steps)
    requires opening.OpenUp? && Enabled(w0, opening)
    requires Possible(Apply(w0, opening), between) && w == After(Apply(w0, opening), between)
    requires i < |opening.requests| && opening.requests[i].kind in REQUIRED
    ensures var tenant, kind := w0.campaigns[opening.campaign].tenant, opening.requests[i].kind;
      var chosen := Resolve(w0.registry, opening.requests[i].reference, tenant);
      && chosen.Some? && opening.campaign in w.campaigns
      && (Prevails(SettingOf(w, opening.campaign), kind, chosen.value.digest)
          <==> AlwaysReadsBack(w, opening.campaign, kind, chosen.value.digest, chosen.value.body))
  {
    ReachedInv(steps);
    FreezeAndCarry(w0, opening, between, w, i);
    var c := w.campaigns[opening.campaign];
    var chosen := Resolve(w0.registry, opening.requests[i].reference, c.tenant).value;
    JudgedExactlyWhenItPrevails(w, opening.campaign, opening.requests[i].kind, chosen.digest, chosen.body);
  }

  // And by the model policy that is current when they are composed, exactly when
  // that one prevails.
  lemma ScreeningKeepsThePolicy(steps: seq<Step>, w: World, campaign: string)
    requires Possible(NEW, steps) && w == After(NEW, steps)
    requires campaign in w.campaigns
    requires Resolve(w.registry, PRACTICE_POLICY, w.campaigns[campaign].tenant).Some?
    ensures var policy := Resolve(w.registry, PRACTICE_POLICY, w.campaigns[campaign].tenant).value;
      Prevails(SettingOf(w, campaign), POLICY, policy.digest)
      <==> AlwaysReadsBack(w, campaign, POLICY, policy.digest, policy.body)
  {
    ReachedInv(steps);
    var c := w.campaigns[campaign];
    var policy := Resolve(w.registry, PRACTICE_POLICY, c.tenant).value;
    ResolvedIsBacked(w.registry, PRACTICE_POLICY, c.tenant);
    assert Backed(w.registry, policy.digest, c.tenant);
    JudgedExactlyWhenItPrevails(w, campaign, POLICY, policy.digest, policy.body);
  }

  // What an opening freezes is what the references point at, and stays so.
  lemma FreezeAndCarry(w0: World, opening: Step, between: seq<Step>, w: World, i: nat)
    requires Inv(w0) && opening.OpenUp? && Enabled(w0, opening)
    requires Possible(Apply(w0, opening), between) && w == After(Apply(w0, opening), between)
    requires i < |opening.requests| && opening.requests[i].kind in REQUIRED
    ensures Inv(w)
    ensures opening.campaign in w.campaigns
    ensures w.campaigns[opening.campaign].tenant == w0.campaigns[opening.campaign].tenant
    ensures var c := w.campaigns[opening.campaign];
      var chosen := Resolve(w0.registry, opening.requests[i].reference, c.tenant);
      && (forall kind :: kind in c.pins <==> kind in REQUIRED)
      && chosen.Some? && c.pins[opening.requests[i].kind].digest == chosen.value.digest
      && Held(w.registry, chosen.value.digest, c.tenant)
      && BodyOf(w.registry, chosen.value.digest, c.tenant) == chosen.value.body
  {
    var next := Apply(w0, opening);
    StepKeepsInv(w0, opening);
    RunsKeepInv(next, between);
    Freezes(w0, opening, i);
    var c := next.campaigns[opening.campaign];
    var chosen := Resolve(w0.registry, opening.requests[i].reference, c.tenant).value;
    ResolvedIsBacked(w0.registry, opening.requests[i].reference, c.tenant);
    BodyStays(w0.registry, w.registry, chosen.digest, c.tenant);
  }

  lemma Freezes(w: World, opening: Step, i: nat)
    requires Enabled(w, opening) && opening.OpenUp?
    requires i < |opening.requests| && opening.requests[i].kind in REQUIRED
    ensures var c := Apply(w, opening).campaigns[opening.campaign];
      var chosen := Resolve(w.registry, opening.requests[i].reference, c.tenant);
      && c.status == Open && c.tenant == w.campaigns[opening.campaign].tenant
      && (forall kind :: kind in c.pins <==> kind in REQUIRED)
      && chosen.Some? && c.pins[opening.requests[i].kind].digest == chosen.value.digest
  {
    var c := w.campaigns[opening.campaign];
    OpensExactlyWhen(w.registry, c.tenant, c.status, opening.determined, opening.requests);
  }
}
