/**
 * Campaigns in a small registry: the registry has no artifacts of a calibration
 * kind, so a campaign pins something else as its calibration, and which decides
 * what its sessions are judged by.
 */
module ScreeningExamples {
  import opened Wrappers
  import opened ArtifactRegistry
  import opened Pinning
  import opened Composer
  import opened SessionBundles
  import opened PinStability
  import opened PinTheorems
  import opened ScreeningPins
  import Ordering

  const TENANT := "t"
  const CAMPAIGN := "1"

  const SOME_RUBRIC := Artifact("rubric", "b-rubric", "1", "b", "B", "", Published)
  const SOME_PERSONA := Artifact("persona", "c-persona", "1", "c", "C", "", Published)
  const SOME_PLAN := Artifact("plan", "campaign/1", "1", "d", "D", "", Published)
  const SOME_POLICY := Artifact("model_policy", PRACTICE_POLICY, "1", "e", "E", "", Published)

  const SOME_RULES := Artifact("rule_pack", "a-rules", "1", "a", "A", "", Published)

  // Some other published artifact to pin as the calibration.
  predicate Another(a: Artifact) {
    && a.tenant == "" && a.status == Published && a.digest !in {"b", "c", "d", "e"}
    && a.reference !in {"b-rubric", "c-persona", "campaign/1", PRACTICE_POLICY}
  }

  function Catalogue(calibration: Artifact): Registry {
    Registry(
      map[0 := calibration, 1 := SOME_RUBRIC, 2 := SOME_PERSONA, 3 := SOME_PLAN, 4 := SOME_POLICY],
      map[("", calibration.reference) := 0, ("", "b-rubric") := 1, ("", "c-persona") := 2, ("", "campaign/1") := 3,
          ("", PRACTICE_POLICY) := 4])
  }

  function Asked(calibration: Artifact): seq<PinRequest> {
    [PinRequest("rubric", "b-rubric"), PinRequest("calibration", calibration.reference),
     PinRequest("persona", "c-persona"), PinRequest("plan", "campaign/1")]
  }

  lemma NamesDiffer()
    ensures |{"b", "c", "d", "e"}| == 4 && |{"b-rubric", "c-persona", "campaign/1", PRACTICE_POLICY}| == 4
    ensures TENANT != "" && CampaignBlueprint(CAMPAIGN) == "campaign/1"
    ensures RUBRIC != "persona" && RUBRIC != PLAN && RUBRIC != POLICY && PLAN != "persona" && PLAN != POLICY
  {
    assert "b"[0] == 'b' && "c"[0] == 'c' && "d"[0] == 'd' && "e"[0] == 'e';
    assert "b-rubric"[0] == 'b' && "c-persona"[1] == '-' && "campaign/1"[1] == 'a' && "c-persona"[0] == 'c';
    assert "campaign/1"[0] == 'c' && PRACTICE_POLICY[0] == 'p' && TENANT[0] == 't';
    assert CampaignBlueprint(CAMPAIGN) == "campaign/1";
    assert RUBRIC[0] == 'r' && "persona"[1] == 'e' && PLAN[1] == 'l' && POLICY[0] == 'm' && PLAN[0] == 'p';
  }

  lemma CatalogueResolves(calibration: Artifact)
    requires Another(calibration)
    ensures var r := Catalogue(calibration);
      && Resolve(r, calibration.reference, TENANT) == Some(calibration)
      && Resolve(r, "b-rubric", TENANT) == Some(SOME_RUBRIC) && Resolve(r, "c-persona", TENANT) == Some(SOME_PERSONA)
      && Resolve(r, "campaign/1", TENANT) == Some(SOME_PLAN) && Resolve(r, PRACTICE_POLICY, TENANT) == Some(SOME_POLICY)
  {
    NamesDiffer();
    assert "b-rubric"[0] == 'b' && "c-persona"[1] == '-' && "campaign/1"[1] == 'a' && PRACTICE_POLICY[0] == 'p';
  }

  lemma AskedKinds(calibration: Artifact)
    ensures OneOfAKind(Asked(calibration))
    ensures forall kind :: kind in REQUIRED <==> exists i :: 0 <= i < 4 && Asked(calibration)[i].kind == kind
  {
    var asked := Asked(calibration);
    assert "rubric"[0] == 'r' && "calibration"[0] == 'c' && |"persona"| == 7 && |"plan"| == 4 && |"rubric"| == 6;
    assert asked[0].kind == REQUIRED[0] && asked[1].kind == REQUIRED[1];
    assert asked[2].kind == REQUIRED[2] && asked[3].kind == REQUIRED[3];
    forall kind ensures kind in REQUIRED <==> exists i :: 0 <= i < 4 && asked[i].kind == kind {
      if kind in REQUIRED {
        var i :| 0 <= i < |REQUIRED| && REQUIRED[i] == kind;
        assert asked[i].kind == kind;
      }
    }
  }

  ghost predicate Froze(pins: map<string, Frozen>, calibration: Artifact) {
    && (forall kind :: kind in pins <==> kind in REQUIRED)
    && RUBRIC in pins && "calibration" in pins && "persona" in pins && PLAN in pins
    && pins[RUBRIC].digest == "b" && pins["calibration"].digest == calibration.digest
    && pins["persona"].digest == "c" && pins[PLAN].digest == "d"
  }

  // Opening does not ask whether an artifact is of the kind it is pinned as.
  lemma AnyCalibrationOpens(calibration: Artifact)
    requires Another(calibration)
    ensures var opening := Opening(Catalogue(calibration), TENANT, Unopened, true, Asked(calibration));
      opening.Ok? && Froze(opening.value, calibration)
  {
    var r, asked := Catalogue(calibration), Asked(calibration);
    CatalogueResolves(calibration);
    AskedKinds(calibration);
    OpensExactlyWhen(r, TENANT, Unopened, true, asked);
    forall kind | kind in REQUIRED ensures AskedAndPublished(r, TENANT, asked, kind) {
      var i :| 0 <= i < 4 && asked[i].kind == kind;
      assert PublishedArtifact(r, asked[i].reference, TENANT).Some?;
    }
    assert REQUIRED[0] in REQUIRED && REQUIRED[1] in REQUIRED && REQUIRED[2] in REQUIRED && REQUIRED[3] in REQUIRED;
    assert asked[0].kind in REQUIRED && asked[1].kind in REQUIRED && asked[2].kind in REQUIRED && asked[3].kind in REQUIRED;
  }

  // --------------------------------------------------- what its sessions read

  ghost function SettingIn(r: Registry, pins: map<string, Frozen>): Setting {
    Setting(r, InKindOrder(pins), TENANT, CampaignBlueprint(CAMPAIGN))
  }

  lemma WhatMayAnswer(calibration: Artifact, pins: map<string, Frozen>, i: nat, p: Pin)
    requires Another(calibration) && Froze(pins, calibration)
    requires MayAnswer(SettingIn(Catalogue(calibration), pins), i, p)
    ensures p == PinOf(calibration) || p == PinOf(SOME_RUBRIC) || p == PinOf(SOME_PERSONA) || p == PinOf(SOME_PLAN)
      || p == PinOf(SOME_POLICY)
    ensures i < |InKindOrder(pins)| ==> p.digest == InKindOrder(pins)[i].digest
  {
    if i >= |InKindOrder(pins)| { CatalogueResolves(calibration); }
  }

  lemma OnlyTwoAreRubrics(calibration: Artifact, pins: map<string, Frozen>, i: nat, p: Pin)
    requires Another(calibration) && Froze(pins, calibration)
    requires MayAnswer(SettingIn(Catalogue(calibration), pins), i, p)
    ensures p.digest == "b" ==> p == PinOf(SOME_RUBRIC)
    ensures p.digest == calibration.digest ==> p == PinOf(calibration)
    ensures p.kind == RUBRIC ==> p == PinOf(SOME_RUBRIC) || p == PinOf(calibration)
  {
    WhatMayAnswer(calibration, pins, i, p);
    NamesDiffer();
    assert "b"[0] == 'b' && "c"[0] == 'c' && "d"[0] == 'd' && "e"[0] == 'e';
  }

  // A row answers for the place it was frozen in.
  lemma RowAnswers(calibration: Artifact, pins: map<string, Frozen>, i: nat) returns (p: Pin)
    requires Another(calibration) && Froze(pins, calibration) && i <= |InKindOrder(pins)|
    ensures MayAnswer(SettingIn(Catalogue(calibration), pins), i, p)
  {
    var r, frozen := Catalogue(calibration), InKindOrder(pins);
    if i == |frozen| {
      CatalogueResolves(calibration);
      p := PinOf(SOME_POLICY);
    } else {
      var kind := Ordering.InOrder(pins.Keys)[i];
      assert kind in pins && frozen[i] == pins[kind];
      p := KindAnswers(calibration, pins, kind);
    }
  }

  lemma KindAnswers(calibration: Artifact, pins: map<string, Frozen>, kind: string) returns (p: Pin)
    requires Another(calibration) && Froze(pins, calibration) && kind in pins
    ensures PinHolds(Catalogue(calibration), pins[kind], TENANT, p)
  {
    var r := Catalogue(calibration);
    var id := if kind == "calibration" then 0 else if kind == RUBRIC then 1 else if kind == "persona" then 2 else 3;
    assert Bears(r, id, pins[kind].digest, TENANT);
    p := PinOf(r.rows[id]);
  }

  lemma PlanCarries(calibration: Artifact, pins: map<string, Frozen>) returns (place: nat)
    requires Another(calibration) && Froze(pins, calibration)
    ensures Carries(SettingIn(Catalogue(calibration), pins), place, PinOf(SOME_PLAN))
  {
    place := PlaceOf(pins, PLAN);
    CatalogueResolves(calibration);
    NamesDiffer();
    assert Bears(Catalogue(calibration), 3, "d", TENANT);
  }

  lemma SomeBundle(calibration: Artifact, pins: map<string, Frozen>) returns (sent: seq<Pin>)
    requires Another(calibration) && Froze(pins, calibration)
    ensures Makes(SettingIn(Catalogue(calibration), pins), sent)
  {
    var x := SettingIn(Catalogue(calibration), pins);
    var place := PlanCarries(calibration, pins);
    var never := (i: nat, p: Pin) => false;
    forall i: nat | i <= |x.frozen| ensures MayFail(x, place, PinOf(SOME_PLAN), never, i) {
      var p := RowAnswers(calibration, pins, i);
      assert May(x, place, PinOf(SOME_PLAN), i, if i == place then PinOf(SOME_PLAN) else p);
      assert !never(i, if i == place then PinOf(SOME_PLAN) else p);
    }
    sent := FailingEverywhere(x, place, PinOf(SOME_PLAN), never);
  }

  // Whatever the calibration is, the campaign's rubric judges its sessions exactly
  // unless the calibration is itself a rubric, and sorts before it; and then that
  // one does.
  lemma TheCalibrationMisjudgesExactlyWhen(calibration: Artifact, pins: map<string, Frozen>)
    requires Another(calibration) && Froze(pins, calibration)
    ensures var x := SettingIn(Catalogue(calibration), pins);
      var misjudges := calibration.kind == RUBRIC && Ordering.StringLess(calibration.reference, "b-rubric");
      && (Prevails(x, RUBRIC, "b") <==> !misjudges)
      && (Prevails(x, RUBRIC, calibration.digest) <==> misjudges)
  {
    var x := SettingIn(Catalogue(calibration), pins);
    var sent := SomeBundle(calibration, pins);
    if Prevails(x, RUBRIC, "b") && Prevails(x, RUBRIC, calibration.digest) {
      OnePrevails(x, sent, RUBRIC, "b", calibration.digest);
    }
    if calibration.kind == RUBRIC && Ordering.StringLess(calibration.reference, "b-rubric") {
      TheCalibrationPrevails(calibration, pins);
    } else {
      TheRubricPrevails(calibration, pins);
    }
  }

  lemma TheRubricPrevails(calibration: Artifact, pins: map<string, Frozen>)
    requires Another(calibration) && Froze(pins, calibration)
    requires calibration.kind == RUBRIC ==> !Ordering.StringLess(calibration.reference, "b-rubric")
    ensures Prevails(SettingIn(Catalogue(calibration), pins), RUBRIC, "b")
  {
    var x := SettingIn(Catalogue(calibration), pins);
    var i := PlaceOf(pins, RUBRIC);
    forall j: nat, q | MayAnswer(x, j, q)
      ensures j == i ==> q.kind == RUBRIC && q.reference == "b-rubric"
      ensures q.kind == RUBRIC && q.digest != "b" ==> Ordering.StringLess("b-rubric", q.reference)
    {
      OnlyTwoAreRubrics(calibration, pins, j, q);
      Ordering.StringLessTotal("b-rubric", calibration.reference);
      if j == i { WhatMayAnswer(calibration, pins, j, q); }
    }
    WhatSortsFirstPrevails(x, RUBRIC, i, "b-rubric");
  }

  lemma TheCalibrationPrevails(calibration: Artifact, pins: map<string, Frozen>)
    requires Another(calibration) && Froze(pins, calibration)
    requires calibration.kind == RUBRIC && Ordering.StringLess(calibration.reference, "b-rubric")
    ensures Prevails(SettingIn(Catalogue(calibration), pins), RUBRIC, calibration.digest)
  {
    var x := SettingIn(Catalogue(calibration), pins);
    var i := PlaceOf(pins, "calibration");
    forall j: nat, q | MayAnswer(x, j, q)
      ensures j == i ==> q.kind == RUBRIC && q.reference == calibration.reference
      ensures q.kind == RUBRIC && q.digest != calibration.digest ==> Ordering.StringLess(calibration.reference, q.reference)
    {
      OnlyTwoAreRubrics(calibration, pins, j, q);
      if j == i { WhatMayAnswer(calibration, pins, j, q); }
    }
    WhatSortsFirstPrevails(x, RUBRIC, i, calibration.reference);
  }

  // --------------------------------------------- a draft made after the opening

  // A rubric of the same content as the rule pack, in the tenant's own catalogue.
  const LATE_DRAFT := Artifact("rubric", "a-rubric", "1", "a", "A", TENANT, Draft)

  lemma RulesAreAnother()
    ensures Another(SOME_RULES) && SOME_RULES.kind != RUBRIC
    ensures Ordering.StringLess("a-rubric", "b-rubric")
  {
    assert "a"[0] == 'a' && "b"[0] == 'b' && "c"[0] == 'c' && "d"[0] == 'd' && "e"[0] == 'e';
    assert "a-rules"[0] == 'a' && "b-rubric"[0] == 'b' && "c-persona"[0] == 'c' && "campaign/1"[0] == 'c';
    assert PRACTICE_POLICY[0] == 'p' && "rule_pack"[2] == 'l' && RUBRIC[2] == 'b' && "a-rubric"[0] == 'a';
  }

  // A campaign in order stops being so when somebody drafts that rubric: nothing
  // about a draft keeps it from answering for a frozen digest.
  lemma ALaterDraftMisjudges(w: World) returns (composed: Step)
    requires Inv(w) && w.registry == Catalogue(SOME_RULES)
    requires CAMPAIGN in w.campaigns && w.campaigns[CAMPAIGN].tenant == TENANT && Froze(w.campaigns[CAMPAIGN].pins, SOME_RULES)
    ensures var drafted := Operate(CreateDraft(5, LATE_DRAFT));
      && Prevails(SettingOf(w, CAMPAIGN), RUBRIC, "b")
      && Enabled(w, drafted) && Composes(Apply(w, drafted), CAMPAIGN, composed, [])
      && forall body :: !ReadsAs(Pinned(After(Apply(Apply(w, drafted), composed), []), RefOf(composed), RUBRIC), "b", body)
  {
    var drafted := Operate(CreateDraft(5, LATE_DRAFT));
    var pins := w.campaigns[CAMPAIGN].pins;
    RulesAreAnother();
    TheRubricPrevails(SOME_RULES, pins);
    DraftIsAllowed();
    StepKeepsInv(w, drafted);
    TheDraftPrevailsNot(pins);
    composed := NotPrevailingIsMisjudged(Apply(w, drafted), CAMPAIGN, RUBRIC, "b");
  }

  lemma DraftIsAllowed()
    ensures Allowed(Catalogue(SOME_RULES), CreateDraft(5, LATE_DRAFT))
  {
    NamesDiffer();
    assert "a"[0] == 'a' && "b"[0] == 'b' && "c"[0] == 'c' && "d"[0] == 'd' && "e"[0] == 'e';
  }

  function Drafted(): Registry {
    Registry(Catalogue(SOME_RULES).rows[5 := LATE_DRAFT], Catalogue(SOME_RULES).pointers)
  }

  lemma StillAnswers(pins: map<string, Frozen>, i: nat, p: Pin)
    requires MayAnswer(SettingIn(Catalogue(SOME_RULES), pins), i, p)
    ensures MayAnswer(SettingIn(Drafted(), pins), i, p)
  {
    var r, frozen := Catalogue(SOME_RULES), InKindOrder(pins);
    if i < |frozen| {
      var id :| id in r.rows && Bears(r, id, frozen[i].digest, TENANT) && p == PinOf(r.rows[id]);
      assert Bears(Drafted(), id, frozen[i].digest, TENANT) && p == PinOf(Drafted().rows[id]);
    }
  }

  // The rubric that was there does not come before the draft.
  lemma NothingIsSooner(pins: map<string, Frozen>, i: nat, p: Pin, j: nat)
    requires Froze(pins, SOME_RULES) && MayAnswer(SettingIn(Catalogue(SOME_RULES), pins), i, p)
    ensures !(p.kind == RUBRIC && p.digest == "b" && Sooner(p, i, PinOf(LATE_DRAFT), j))
  {
    RulesAreAnother();
    OnlyTwoAreRubrics(SOME_RULES, pins, i, p);
    Ordering.StringLessAsymmetric("a-rubric", "b-rubric");
  }

  lemma TheDraftRivals(pins: map<string, Frozen>) returns (place: nat, j: nat)
    requires Froze(pins, SOME_RULES)
    ensures var x := SettingIn(Drafted(), pins);
      && Carries(x, place, PinOf(SOME_PLAN))
      && Rivals(x, place, PinOf(SOME_PLAN), RUBRIC, "b", j, PinOf(LATE_DRAFT))
  {
    RulesAreAnother();
    place := PlanCarries(SOME_RULES, pins);
    StillAnswers(pins, place, PinOf(SOME_PLAN));
    CatalogueResolves(SOME_RULES);
    j := PlaceOf(pins, "calibration");
    assert Bears(Drafted(), 5, "a", TENANT);
    if j == place { WhatMayAnswer(SOME_RULES, pins, place, PinOf(SOME_PLAN)); }
    assert "a"[0] == 'a' && "b"[0] == 'b' && "d"[0] == 'd';
  }

  lemma TheDraftPrevailsNot(pins: map<string, Frozen>)
    requires Froze(pins, SOME_RULES)
    ensures !Prevails(SettingIn(Drafted(), pins), RUBRIC, "b")
  {
    var x, plan := SettingIn(Drafted(), pins), PinOf(SOME_PLAN);
    var place, j := TheDraftRivals(pins);
    forall i: nat ensures !Guards(x, place, plan, RUBRIC, "b", j, PinOf(LATE_DRAFT), i) {
      if i <= |x.frozen| {
        var p := NotSooner(pins, place, j, i);
      }
    }
    assert Carries(x, place, plan) && !PrevailsBeside(x, place, plan, RUBRIC, "b");
  }

  // Whatever place is asked about, something that does not come first may be in it.
  lemma NotSooner(pins: map<string, Frozen>, place: nat, j: nat, i: nat) returns (p: Pin)
    requires Froze(pins, SOME_RULES) && i <= |InKindOrder(pins)|
    requires Carries(SettingIn(Drafted(), pins), place, PinOf(SOME_PLAN))
    ensures May(SettingIn(Drafted(), pins), place, PinOf(SOME_PLAN), i, p)
    ensures !(p.kind == RUBRIC && p.digest == "b" && Sooner(p, i, PinOf(LATE_DRAFT), j))
  {
    RulesAreAnother();
    NamesDiffer();
    p := PinOf(SOME_PLAN);
    if i != place {
      p := RowAnswers(SOME_RULES, pins, i);
      StillAnswers(pins, i, p);
      NothingIsSooner(pins, i, p, j);
    }
  }
}
