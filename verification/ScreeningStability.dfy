/**
 * What keeps the outcome of a campaign's opening: which later steps leave standing
 * what its sessions are judged by.
 */
module ScreeningStability {
  import opened ArtifactRegistry
  import opened Pinning
  import opened Composer
  import opened SessionBundles
  import opened PinStability
  import opened PinTheorems
  import opened ScreeningPins

  // Pins no reader's choice can tell apart.
  predicate Alike(p: Pin, q: Pin) {
    p.kind == q.kind && p.reference == q.reference && p.digest == q.digest
  }

  // A pin that is neither read for the kind, nor a plan, nor of the digest.
  predicate Neutral(p: Pin, kind: string, digest: string) {
    p.kind != kind && p.kind != PLAN && p.digest != digest
  }

  // The policy is as it was, or stands aside from the kind as before.
  ghost predicate PolicyLeft(r: Registry, r': Registry, tenant: string, kind: string) {
    var before, after := Resolve(r, PRACTICE_POLICY, tenant), Resolve(r', PRACTICE_POLICY, tenant);
    after.Some? ==>
      && before.Some?
      && (|| Alike(PinOf(before.value), PinOf(after.value))
          || (before.value.kind != kind && after.value.kind != kind && after.value.kind != PLAN))
  }

  // Nothing new may be sent that matters.
  ghost predicate Covers(x: Setting, r': Registry, kind: string, digest: string) {
    && PolicyLeft(x.registry, r', x.tenant, kind)
    && forall i, p' | 0 <= i < |x.frozen| && PinHolds(r', x.frozen[i], x.tenant, p') ::
         Neutral(p', kind, digest) || WasThere(x, i, p')
  }

  ghost predicate WasThere(x: Setting, i: nat, p': Pin) {
    exists p :: MayAnswer(x, i, p) && Alike(p, p')
  }

  ghost predicate AllHeld(x: Setting) {
    forall f | f in x.frozen :: Held(x.registry, f.digest, x.tenant)
  }

  // In a place that was sure, what may be sent now is like something that might be
  // sent before.
  lemma SureWasThere(x: Setting, r': Registry, kind: string, digest: string, place: nat, plan: Pin, plan': Pin, i: nat, p': Pin)
    requires AllHeld(x) && Covers(x, r', kind, digest) && MayAnswer(x, place, plan) && Alike(plan, plan')
    requires Sure(x, place, plan, kind, digest, i) && May(x.(registry := r'), place, plan', i, p')
    ensures exists p :: May(x, place, plan, i, p) && Alike(p, p')
  {
    if i == place {
      assert May(x, place, plan, i, plan);
    } else if i < |x.frozen| {
      assert x.frozen[i] in x.frozen;
      var id :| id in x.registry.rows && Bears(x.registry, id, x.frozen[i].digest, x.tenant);
      assert May(x, place, plan, i, PinOf(x.registry.rows[id]));
      assert WasThere(x, i, p');
      var p :| MayAnswer(x, i, p) && Alike(p, p');
      assert May(x, place, plan, i, p);
    } else {
      var policy := PinOf(Resolve(x.registry, PRACTICE_POLICY, x.tenant).value);
      assert May(x, place, plan, i, policy);
    }
  }

  lemma SureStays(x: Setting, r': Registry, kind: string, digest: string, place: nat, plan: Pin, plan': Pin, i: nat)
    requires AllHeld(x) && Covers(x, r', kind, digest) && MayAnswer(x, place, plan) && Alike(plan, plan')
    requires Sure(x, place, plan, kind, digest, i)
    ensures Sure(x.(registry := r'), place, plan', kind, digest, i)
  {
    forall p' | May(x.(registry := r'), place, plan', i, p') ensures p'.kind == kind && p'.digest == digest {
      SureWasThere(x, r', kind, digest, place, plan, plan', i, p');
    }
  }

  lemma GuardStays(
    x: Setting, r': Registry, kind: string, digest: string, place: nat, plan: Pin, plan': Pin,
    j: nat, q: Pin, q': Pin, i: nat)
    requires AllHeld(x) && Covers(x, r', kind, digest) && MayAnswer(x, place, plan) && Alike(plan, plan')
    requires Guards(x, place, plan, kind, digest, j, q, i) && Alike(q, q')
    ensures Guards(x.(registry := r'), place, plan', kind, digest, j, q', i)
  {
    assert Sure(x, place, plan, kind, digest, i);
    forall p' | May(x.(registry := r'), place, plan', i, p')
      ensures p'.kind == kind && p'.digest == digest && Sooner(p', i, q', j)
    {
      SureWasThere(x, r', kind, digest, place, plan, plan', i, p');
      var p :| May(x, place, plan, i, p) && Alike(p, p');
    }
  }

  // A rival now was one before.
  lemma RivalWasThere(x: Setting, r': Registry, kind: string, digest: string, place: nat, plan: Pin, plan': Pin, j: nat, q': Pin)
    returns (q: Pin)
    requires Covers(x, r', kind, digest) && MayAnswer(x, place, plan) && Alike(plan, plan')
    requires Rivals(x.(registry := r'), place, plan', kind, digest, j, q')
    ensures Rivals(x, place, plan, kind, digest, j, q) && Alike(q, q')
  {
    if j == place {
      q := plan;
    } else if j < |x.frozen| {
      assert WasThere(x, j, q');
      q :| MayAnswer(x, j, q) && Alike(q, q');
    } else {
      q := PinOf(Resolve(x.registry, PRACTICE_POLICY, x.tenant).value);
    }
  }

  lemma CarrierWasThere(x: Setting, r': Registry, kind: string, digest: string, place: nat, plan': Pin) returns (plan: Pin)
    requires Covers(x, r', kind, digest) && Carries(x.(registry := r'), place, plan')
    ensures Carries(x, place, plan) && Alike(plan, plan')
  {
    if place < |x.frozen| {
      assert WasThere(x, place, plan');
      plan :| MayAnswer(x, place, plan) && Alike(plan, plan');
    } else {
      plan := PinOf(Resolve(x.registry, PRACTICE_POLICY, x.tenant).value);
    }
  }

  lemma CoveredPrevails(x: Setting, r': Registry, kind: string, digest: string)
    requires AllHeld(x) && Covers(x, r', kind, digest) && Prevails(x, kind, digest)
    ensures Prevails(x.(registry := r'), kind, digest)
  {
    var y := x.(registry := r');
    forall place: nat, plan' | Carries(y, place, plan') ensures PrevailsBeside(y, place, plan', kind, digest) {
      var plan := CarrierWasThere(x, r', kind, digest, place, plan');
      var i: nat :| Sure(x, place, plan, kind, digest, i);
      SureStays(x, r', kind, digest, place, plan, plan', i);
      forall j: nat, q' | Rivals(y, place, plan', kind, digest, j, q')
        ensures exists i: nat :: Guards(y, place, plan', kind, digest, j, q', i)
      {
        var q := RivalWasThere(x, r', kind, digest, place, plan, plan', j, q');
        var guard: nat :| Guards(x, place, plan, kind, digest, j, q, guard);
        GuardStays(x, r', kind, digest, place, plan, plan', j, q, q', guard);
      }
    }
  }

  // ------------------------------------------------------------ along a run

  // A draft that nobody of the campaign sees, of no digest it froze, like a version
  // that is there already, or neither of the kind nor a plan.
  ghost predicate Harmless(w: World, c: Campaign, draft: Artifact, kind: string, digest: string) {
    || !Visible(draft, c.tenant)
    || (forall k | k in c.pins :: c.pins[k].digest != draft.digest)
    || (exists id :: id in w.registry.rows && Bears(w.registry, id, draft.digest, c.tenant)
                     && Alike(PinOf(w.registry.rows[id]), PinOf(draft)))
    || Neutral(PinOf(draft), kind, digest)
  }

  // The steps that leave a campaign's outcome alone: all but a draft that is not
  // harmless, and a publication or rollback that moves the policy.
  ghost predicate Leaves(w: World, step: Step, c: Campaign, kind: string, digest: string)
    requires Enabled(w, step)
  {
    step.Operate? ==>
      && (step.op.CreateDraft? ==> Harmless(w, c, step.op.draft, kind, digest))
      && (step.op.Publish? || step.op.Rollback? ==> PolicyLeft(w.registry, Perform(w.registry, step.op), c.tenant, kind))
  }

  lemma OperationLeavesPolicy(r: Registry, op: Operation, tenant: string, kind: string)
    requires Sound(r) && Allowed(r, op) && !op.Publish? && !op.Rollback?
    ensures PolicyLeft(r, Perform(r, op), tenant, kind)
  {
    var at := PointedAt(r, PRACTICE_POLICY, tenant);
    assert Perform(r, op).pointers == r.pointers;
    if at.Some? {
      var key := if (tenant, PRACTICE_POLICY) in r.pointers then (tenant, PRACTICE_POLICY) else ("", PRACTICE_POLICY);
      assert PointerSound(r, key) && at.value == r.pointers[key];
      assert at.value in Perform(r, op).rows;
      OperationBrings(r, op, at.value);
    }
  }

  // What bears a digest afterwards bore it before, but for a new draft.
  lemma OperationBrings(r: Registry, op: Operation, id: nat)
    requires Sound(r) && Allowed(r, op) && id in Perform(r, op).rows
    ensures (op.CreateDraft? && id == op.id && Perform(r, op).rows[id] == op.draft)
      || (id in r.rows && PinOf(Perform(r, op).rows[id]) == PinOf(r.rows[id]) && Perform(r, op).rows[id].tenant == r.rows[id].tenant)
  {
  }

  lemma OperationCovers(w: World, op: Operation, campaign: string, kind: string, digest: string)
    requires Inv(w) && Enabled(w, Operate(op)) && campaign in w.campaigns
    requires Leaves(w, Operate(op), w.campaigns[campaign], kind, digest)
    ensures Covers(SettingOf(w, campaign), Perform(w.registry, op), kind, digest)
  {
    var x, r, c := SettingOf(w, campaign), w.registry, w.campaigns[campaign];
    var r' := Perform(r, op);
    if !op.Publish? && !op.Rollback? { OperationLeavesPolicy(r, op, c.tenant, kind); }
    forall i, p' | 0 <= i < |x.frozen| && PinHolds(r', x.frozen[i], c.tenant, p')
      ensures Neutral(p', kind, digest) || WasThere(x, i, p')
    {
      var id :| id in r'.rows && Bears(r', id, x.frozen[i].digest, c.tenant) && p' == PinOf(r'.rows[id]);
      OperationBrings(r, op, id);
      if id in r.rows && PinOf(r'.rows[id]) == PinOf(r.rows[id]) && r'.rows[id].tenant == r.rows[id].tenant {
        assert Bears(r, id, x.frozen[i].digest, c.tenant) && MayAnswer(x, i, p');
      } else {
        DraftWasThere(w, campaign, i, op.draft, kind, digest);
      }
    }
  }

  lemma DraftWasThere(w: World, campaign: string, i: nat, draft: Artifact, kind: string, digest: string)
    requires campaign in w.campaigns && Harmless(w, w.campaigns[campaign], draft, kind, digest)
    requires i < |SettingOf(w, campaign).frozen| && SettingOf(w, campaign).frozen[i].digest == draft.digest
    requires Visible(draft, w.campaigns[campaign].tenant)
    ensures Neutral(PinOf(draft), kind, digest) || WasThere(SettingOf(w, campaign), i, PinOf(draft))
  {
    var x, c := SettingOf(w, campaign), w.campaigns[campaign];
    FrozenUnderSomeKind(c.pins, x.frozen[i]);
    if !Neutral(PinOf(draft), kind, digest) {
      var id :| id in w.registry.rows && Bears(w.registry, id, draft.digest, c.tenant)
        && Alike(PinOf(w.registry.rows[id]), PinOf(draft));
      assert MayAnswer(x, i, PinOf(w.registry.rows[id]));
    }
  }

  lemma StepKeepsPrevailing(w: World, step: Step, campaign: string, kind: string, digest: string)
    requires Inv(w) && Enabled(w, step) && campaign in w.campaigns && w.campaigns[campaign].status != Unopened
    requires Leaves(w, step, w.campaigns[campaign], kind, digest) && Prevails(SettingOf(w, campaign), kind, digest)
    ensures campaign in Apply(w, step).campaigns && Prevails(SettingOf(Apply(w, step), campaign), kind, digest)
  {
    StepKeepsInv(w, step);
    var x := SettingOf(w, campaign);
    if step.Operate? {
      OperationCovers(w, step.op, campaign, kind, digest);
      PinsAreHeld(w, campaign);
      CoveredPrevails(x, Perform(w.registry, step.op), kind, digest);
      assert SettingOf(Apply(w, step), campaign) == x.(registry := Perform(w.registry, step.op));
    } else {
      assert SettingOf(Apply(w, step), campaign) == x;
    }
  }

  ghost predicate Undisturbed(w: World, steps: seq<Step>, campaign: string, kind: string, digest: string)
    requires Possible(w, steps)
    decreases |steps|
  {
    steps == [] ||
      (&& campaign in w.campaigns && Leaves(w, steps[0], w.campaigns[campaign], kind, digest)
       && Undisturbed(Apply(w, steps[0]), steps[1..], campaign, kind, digest))
  }

  lemma {:induction false} RunKeepsPrevailing(w: World, steps: seq<Step>, campaign: string, kind: string, digest: string)
    requires Inv(w) && Possible(w, steps) && campaign in w.campaigns && w.campaigns[campaign].status != Unopened
    requires Undisturbed(w, steps, campaign, kind, digest) && Prevails(SettingOf(w, campaign), kind, digest)
    ensures campaign in After(w, steps).campaigns
    ensures Prevails(SettingOf(After(w, steps), campaign), kind, digest)
    decreases |steps|
  {
    if steps != [] {
      StepKeepsPrevailing(w, steps[0], campaign, kind, digest);
      StepKeepsInv(w, steps[0]);
      RunKeepsPrevailing(Apply(w, steps[0]), steps[1..], campaign, kind, digest);
    }
  }

  // What prevails when a campaign opens judges every session composed for it later,
  // unless a step in between creates a version that may answer for one of its pins
  // as something new, or moves the policy into or out of the kind.
  lemma OpeningDecidesWhatJudges(
    steps: seq<Step>, w0: World, opening: Step, between: seq<Step>, w: World, i: nat)
    requires Possible(NEW, steps) && w0 == After(NEW, steps)
    requires opening.OpenUp? && Enabled(w0, opening)
    requires Possible(Apply(w0, opening), between) && w == After(Apply(w0, opening), between)
    requires i < |opening.requests| && opening.requests[i].kind in REQUIRED
    requires var next, kind := Apply(w0, opening), opening.requests[i].kind;
      var chosen := Resolve(w0.registry, opening.requests[i].reference, w0.campaigns[opening.campaign].tenant);
      chosen.Some? ==>
        && Prevails(SettingOf(next, opening.campaign), kind, chosen.value.digest)
        && Undisturbed(next, between, opening.campaign, kind, chosen.value.digest)
    ensures var tenant, kind := w0.campaigns[opening.campaign].tenant, opening.requests[i].kind;
      var chosen := Resolve(w0.registry, opening.requests[i].reference, tenant);
      && chosen.Some? && AlwaysReadsBack(w, opening.campaign, kind, chosen.value.digest, chosen.value.body)
  {
    ReachedInv(steps);
    StepKeepsInv(w0, opening);
    Freezes(w0, opening, i);
    ScreeningKeepsWhatTheCampaignFroze(steps, w0, opening, between, w, i);
    var chosen := Resolve(w0.registry, opening.requests[i].reference, w0.campaigns[opening.campaign].tenant).value;
    RunKeepsPrevailing(Apply(w0, opening), between, opening.campaign, opening.requests[i].kind, chosen.digest);
  }
}
