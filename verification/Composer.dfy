/**
 * resolvePins and screeningPins of cmd/worker/composer.go: which artifacts the
 * composition of a session is sent.
 */
module Composer {
  import opened Wrappers
  import opened ArtifactRegistry
  import opened Pinning
  import Ordering

  datatype Request = Request(mode: string, blueprint: string, tenant: string, campaign: string)

  datatype Pin = Pin(kind: string, reference: string, version: string, digest: string, body: string)

  // Why a composition is refused before it is sent.
  datatype Failure =
    | NoBlueprint(blueprint: string)
    | NoPracticeRubric
    | NoModelPolicy
    | NothingPinned
    | PinGone(reference: string, digest: string)

  function PinOf(a: Artifact): Pin {
    Pin(a.kind, a.reference, a.version, a.digest, a.body)
  }

  // A practice session reads what is current: the plan its blueprint names, the
  // platform's practice rubric and the model policy.
  function PracticePins(r: Registry, blueprint: string, tenant: string): Result<seq<Pin>, Failure> {
    if blueprint == "" then Ok([]) // the other side refuses it
    else
      match Resolve(r, blueprint, tenant)
      case None => Err(NoBlueprint(blueprint))
      case Some(plan) =>
        match Resolve(r, PRACTICE_RUBRIC, tenant)
        case None => Err(NoPracticeRubric)
        case Some(rubric) =>
          match Resolve(r, PRACTICE_POLICY, tenant)
          case None => Err(NoModelPolicy)
          case Some(policy) => Ok([PinOf(plan), PinOf(rubric), PinOf(policy)])
  }

  // What a campaign froze, read back in the order of the kinds.
  ghost function FrozenPins(campaigns: map<string, Campaign>, tenant: string, campaign: string): seq<Frozen> {
    if campaign in campaigns && campaigns[campaign].tenant == tenant then InKindOrder(campaigns[campaign].pins) else []
  }

  ghost function InKindOrder(pins: map<string, Frozen>): (r: seq<Frozen>)
    ensures |r| == |Ordering.InOrder(pins.Keys)|
    ensures forall i | 0 <= i < |r| :: Ordering.InOrder(pins.Keys)[i] in pins && r[i] == pins[Ordering.InOrder(pins.Keys)[i]]
  {
    var kinds := Ordering.InOrder(pins.Keys);
    assert forall i | 0 <= i < |kinds| :: kinds[i] in pins.Keys by { Listed(pins.Keys); }
    seq(|kinds|, i requires 0 <= i < |kinds| => pins[kinds[i]])
  }

  lemma Listed(names: set<string>)
    ensures forall name :: name in Ordering.InOrder(names) <==> name in names
  {
    var r := Ordering.InOrder(names);
    forall name ensures name in r <==> name in names {
      assert name in r <==> name in multiset(r);
    }
  }

  // The pin carries some version bearing the frozen digest.
  ghost predicate PinHolds(r: Registry, frozen: Frozen, tenant: string, pin: Pin) {
    exists id :: id in r.rows && Bears(r, id, frozen.digest, tenant) && pin == PinOf(r.rows[id])
  }

  ghost predicate FirstGone(r: Registry, frozen: seq<Frozen>, tenant: string, i: nat)
    requires i < |frozen|
  {
    && !Held(r, frozen[i].digest, tenant)
    && forall j | 0 <= j < i :: Held(r, frozen[j].digest, tenant)
  }

  // A screening session reads what its campaign froze, by digest, and the model
  // policy as it is now.
  ghost predicate ScreeningAnswer(r: Registry, frozen: seq<Frozen>, tenant: string, answer: Result<seq<Pin>, Failure>) {
    var policy := Resolve(r, PRACTICE_POLICY, tenant);
    if frozen == [] then answer == Err(NothingPinned)
    else
      match answer
      case Err(PinGone(reference, digest)) =>
        exists i :: 0 <= i < |frozen| && FirstGone(r, frozen, tenant, i)
                    && frozen[i].reference == reference && frozen[i].digest == digest
      case Err(NoModelPolicy) => policy.None? && forall f | f in frozen :: Held(r, f.digest, tenant)
      case Err(_) => false
      case Ok(pins) =>
        && |pins| == |frozen| + 1
        && (forall i | 0 <= i < |frozen| :: PinHolds(r, frozen[i], tenant, pins[i]))
        && policy.Some? && pins[|frozen|] == PinOf(policy.value)
  }

  ghost predicate Answers(
    r: Registry, campaigns: map<string, Campaign>, request: Request, answer: Result<seq<Pin>, Failure>)
  {
    if request.mode == SCREENING
    then ScreeningAnswer(r, FrozenPins(campaigns, request.tenant, request.campaign), request.tenant, answer)
    else answer == PracticePins(r, request.blueprint, request.tenant)
  }

  method CampaignPins(campaigns: map<string, Campaign>, tenant: string, campaign: string) returns (pins: seq<Frozen>)
    ensures pins == FrozenPins(campaigns, tenant, campaign)
  {
    pins := [];
    if campaign in campaigns && campaigns[campaign].tenant == tenant {
      pins := ReadInKindOrder(campaigns[campaign].pins);
    }
  }

  method ReadInKindOrder(frozen: map<string, Frozen>) returns (pins: seq<Frozen>)
    ensures pins == InKindOrder(frozen)
  {
    var kinds := Ordering.SortedNames(frozen.Keys);
    ghost var all := InKindOrder(frozen);
    pins := [];
    for i := 0 to |kinds|
      invariant pins == all[..i]
    {
      assert kinds[i] in frozen && all[i] == frozen[kinds[i]];
      pins := pins + [frozen[kinds[i]]];
    }
  }

  method ResolvePins(r: Registry, campaigns: map<string, Campaign>, request: Request)
    returns (answer: Result<seq<Pin>, Failure>)
    ensures Answers(r, campaigns, request, answer)
  {
    if request.mode == SCREENING {
      answer := ScreeningPins(r, campaigns, request);
      return;
    }
    if request.blueprint == "" { return Ok([]); }
    var plan := Resolve(r, request.blueprint, request.tenant);
    if plan.None? { return Err(NoBlueprint(request.blueprint)); }
    var pins := [PinOf(plan.value)];
    var rubric := Resolve(r, PRACTICE_RUBRIC, request.tenant);
    if rubric.None? { return Err(NoPracticeRubric); }
    pins := pins + [PinOf(rubric.value)];
    var policy := Resolve(r, PRACTICE_POLICY, request.tenant);
    if policy.None? { return Err(NoModelPolicy); }
    pins := pins + [PinOf(policy.value)];
    assert pins == [PinOf(plan.value), PinOf(rubric.value), PinOf(policy.value)];
    return Ok(pins);
  }

  method ScreeningPins(r: Registry, campaigns: map<string, Campaign>, request: Request)
    returns (answer: Result<seq<Pin>, Failure>)
    ensures ScreeningAnswer(r, FrozenPins(campaigns, request.tenant, request.campaign), request.tenant, answer)
  {
    var frozen := CampaignPins(campaigns, request.tenant, request.campaign);
    if frozen == [] { return Err(NothingPinned); }
    var resolved: seq<Pin> := [];
    var i := 0;
    while i < |frozen|
      invariant 0 <= i <= |frozen| && |resolved| == i
      invariant forall j | 0 <= j < i :: Held(r, frozen[j].digest, request.tenant)
      invariant forall j | 0 <= j < i :: PinHolds(r, frozen[j], request.tenant, resolved[j])
    {
      var artifact, id := GetByDigest(r, frozen[i].digest, request.tenant);
      if artifact.None? {
        assert FirstGone(r, frozen, request.tenant, i);
        return Err(PinGone(frozen[i].reference, frozen[i].digest));
      }
      assert PinHolds(r, frozen[i], request.tenant, PinOf(r.rows[id]));
      resolved := resolved + [PinOf(artifact.value)];
      i := i + 1;
    }
    var policy := Resolve(r, PRACTICE_POLICY, request.tenant);
    if policy.None? { return Err(NoModelPolicy); }
    return Ok(resolved + [PinOf(policy.value)]);
  }

  // ------------------------------------------------------ what is sent, read

  // A practice composition, by what resolves: the reasons in their order, and the
  // plan, the rubric and the policy in theirs.
  lemma PracticeSendsExactlyWhen(r: Registry, blueprint: string, tenant: string)
    ensures var answer := PracticePins(r, blueprint, tenant);
      var plan, rubric, policy := Resolve(r, blueprint, tenant),
        Resolve(r, "rubric/practice-default", tenant), Resolve(r, "policy/practice-default", tenant);
      && (blueprint == "" ==> answer == Ok([]))
      && (blueprint != "" && plan.None? ==> answer == Err(NoBlueprint(blueprint)))
      && (blueprint != "" && plan.Some? && rubric.None? ==> answer == Err(NoPracticeRubric))
      && (blueprint != "" && plan.Some? && rubric.Some? && policy.None? ==> answer == Err(NoModelPolicy))
      && (blueprint != "" && plan.Some? && rubric.Some? && policy.Some? ==>
            && answer.Ok? && |answer.value| == 3
            && CarriesRow(answer.value[0], plan.value) && CarriesRow(answer.value[1], rubric.value)
            && CarriesRow(answer.value[2], policy.value))
  {
  }

  // A pin carries a version, each part in its place.
  ghost predicate CarriesRow(p: Pin, a: Artifact) {
    && p.kind == a.kind && p.reference == a.reference && p.version == a.version
    && p.digest == a.digest && p.body == a.body
  }

  // Of a version the tenant sees.
  ghost predicate SomeRow(r: Registry, tenant: string, p: Pin) {
    exists id :: id in r.rows && (r.rows[id].tenant == "" || r.rows[id].tenant == tenant) && CarriesRow(p, r.rows[id])
  }

  // A campaign's session is sent versions of what was frozen as calibration, persona,
  // plan and rubric, in this order, and then the policy that is current.
  lemma ScreeningSends(
    r: Registry, campaigns: map<string, Campaign>, tenant: string, campaign: string, sent: seq<Pin>)
    requires Answers(r, campaigns, Request("screening", "", tenant, campaign), Ok(sent))
    requires campaign in campaigns && campaigns[campaign].tenant == tenant
    requires campaigns[campaign].pins.Keys == {"rubric", "calibration", "persona", "plan"}
    ensures |sent| == 5
    ensures var pins := campaigns[campaign].pins;
      && sent[0].digest == pins["calibration"].digest && sent[1].digest == pins["persona"].digest
      && sent[2].digest == pins["plan"].digest && sent[3].digest == pins["rubric"].digest
    ensures forall i | 0 <= i < 4 :: SomeRow(r, tenant, sent[i])
    ensures Resolve(r, "policy/practice-default", tenant).Some?
    ensures CarriesRow(sent[4], Resolve(r, "policy/practice-default", tenant).value)
  {
    var pins := campaigns[campaign].pins;
    FrozenByKind(pins);
    AnswerCarries(r, InKindOrder(pins), tenant, sent);
  }

  lemma FrozenByKind(pins: map<string, Frozen>)
    requires pins.Keys == {"rubric", "calibration", "persona", "plan"}
    ensures InKindOrder(pins) == [pins["calibration"], pins["persona"], pins["plan"], pins["rubric"]]
  {
    KindsSorted(pins.Keys);
    var kinds := Ordering.InOrder(pins.Keys);
    assert kinds[0] == "calibration" && kinds[1] == "persona" && kinds[2] == "plan" && kinds[3] == "rubric";
  }

  lemma AnswerCarries(r: Registry, frozen: seq<Frozen>, tenant: string, sent: seq<Pin>)
    requires ScreeningAnswer(r, frozen, tenant, Ok(sent))
    ensures |sent| == |frozen| + 1
    ensures forall i | 0 <= i < |frozen| :: sent[i].digest == frozen[i].digest && SomeRow(r, tenant, sent[i])
    ensures Resolve(r, "policy/practice-default", tenant).Some?
    ensures CarriesRow(sent[|frozen|], Resolve(r, "policy/practice-default", tenant).value)
  {
    forall i | 0 <= i < |frozen|
      ensures sent[i].digest == frozen[i].digest
      ensures SomeRow(r, tenant, sent[i])
    {
      HeldPinCarries(r, frozen[i], tenant, sent[i]);
    }
  }

  lemma HeldPinCarries(r: Registry, frozen: Frozen, tenant: string, p: Pin)
    requires PinHolds(r, frozen, tenant, p)
    ensures p.digest == frozen.digest
    ensures SomeRow(r, tenant, p)
  {
    var id :| id in r.rows && Bears(r, id, frozen.digest, tenant) && p == PinOf(r.rows[id]);
    assert CarriesRow(p, r.rows[id]);
  }

  lemma KindsSorted(kinds: set<string>)
    requires kinds == {"rubric", "calibration", "persona", "plan"}
    ensures Ordering.InOrder(kinds) == ["calibration", "persona", "plan", "rubric"]
  {
    assert "calibration"[0] == 'c' && "persona"[0] == 'p' && "plan"[0] == 'p' && "rubric"[0] == 'r';
    assert "persona"[1..][0] == 'e' && "plan"[1..][0] == 'l';
    assert Ordering.StringLess("persona"[1..], "plan"[1..]);
    FourSorted(kinds, "calibration", "persona", "plan", "rubric");
  }

  lemma FourSorted(kinds: set<string>, a: string, b: string, c: string, d: string)
    requires kinds == {a, b, c, d}
    requires Ordering.StringLess(a, b) && Ordering.StringLess(b, c) && Ordering.StringLess(c, d)
    ensures Ordering.InOrder(kinds) == [a, b, c, d]
  {
    FourIncrease(a, b, c, d);
    forall name ensures name in [a, b, c, d] <==> name in kinds {}
    Ordering.InOrderExactlyWhen(kinds, [a, b, c, d]);
  }

  lemma FourIncrease(a: string, b: string, c: string, d: string)
    requires Ordering.StringLess(a, b) && Ordering.StringLess(b, c) && Ordering.StringLess(c, d)
    ensures Ordering.Increasing([a, b, c, d])
  {
    ThreeIncrease(b, c, d);
    var rest, all := [b, c, d], [a, b, c, d];
    Ordering.StringLessTransitive(a, b, c);
    Ordering.StringLessTransitive(a, c, d);
    forall i, j | 0 <= i < j < 4 ensures Ordering.StringLess(all[i], all[j]) {
      if i > 0 { assert all[i] == rest[i - 1] && all[j] == rest[j - 1]; }
    }
  }

  lemma ThreeIncrease(a: string, b: string, c: string)
    requires Ordering.StringLess(a, b) && Ordering.StringLess(b, c)
    ensures Ordering.Increasing([a, b, c])
  {
    Ordering.StringLessTransitive(a, b, c);
  }

  // A version the tenant sees bears the digest.
  ghost predicate Borne(r: Registry, tenant: string, digest: string) {
    exists id :: id in r.rows && r.rows[id].digest == digest && (r.rows[id].tenant == "" || r.rows[id].tenant == tenant)
  }

  ghost predicate FirstUnborne(r: Registry, frozen: seq<Frozen>, tenant: string, i: int) {
    && 0 <= i < |frozen| && !Borne(r, tenant, frozen[i].digest)
    && forall j | 0 <= j < i :: Borne(r, tenant, frozen[j].digest)
  }

  // When a campaign's session is sent anything, and why it is not otherwise: nothing
  // frozen, the first digest nothing bears, then the policy.
  lemma ScreeningSendsExactlyWhen(
    r: Registry, frozen: seq<Frozen>, tenant: string, answer: Result<seq<Pin>, Failure>)
    requires ScreeningAnswer(r, frozen, tenant, answer)
    ensures var borne := forall f | f in frozen :: Borne(r, tenant, f.digest);
      var policy := Resolve(r, "policy/practice-default", tenant);
      && (answer == Err(NothingPinned) <==> frozen == [])
      && (answer == Err(NoModelPolicy) <==> frozen != [] && borne && policy.None?)
      && (answer.Ok? <==> frozen != [] && borne && policy.Some?)
    ensures answer.Err? && answer.error.PinGone? ==>
      exists i :: FirstUnborne(r, frozen, tenant, i) && answer == Err(PinGone(frozen[i].reference, frozen[i].digest))
  {
    forall f: Frozen ensures Held(r, f.digest, tenant) <==> Borne(r, tenant, f.digest) {
      if id :| id in r.rows && r.rows[id].digest == f.digest && (r.rows[id].tenant == "" || r.rows[id].tenant == tenant) {
        assert Bears(r, id, f.digest, tenant);
      }
    }
    if answer.Err? && answer.error.PinGone? {
      var i :| 0 <= i < |frozen| && FirstGone(r, frozen, tenant, i)
        && frozen[i].reference == answer.error.reference && frozen[i].digest == answer.error.digest;
      assert FirstUnborne(r, frozen, tenant, i) && frozen[i] in frozen;
    }
    if answer.Ok? { AllSentAreBorne(r, frozen, tenant, answer.value); }
  }

  lemma AllSentAreBorne(r: Registry, frozen: seq<Frozen>, tenant: string, sent: seq<Pin>)
    requires ScreeningAnswer(r, frozen, tenant, Ok(sent))
    ensures forall f | f in frozen :: Borne(r, tenant, f.digest)
  {
    forall f | f in frozen ensures Borne(r, tenant, f.digest) {
      var i :| 0 <= i < |frozen| && frozen[i] == f;
      HeldPinCarries(r, frozen[i], tenant, sent[i]);
    }
  }

  // Nothing is pinned under another tenant, nor for a campaign nobody knows.
  lemma AnotherTenantPinsNothing(
    r: Registry, campaigns: map<string, Campaign>, request: Request, answer: Result<seq<Pin>, Failure>)
    requires request.mode == "screening" && Answers(r, campaigns, request, answer)
    requires request.campaign in campaigns ==> campaigns[request.campaign].tenant != request.tenant
    ensures answer == Err(NothingPinned)
  {
  }
}
