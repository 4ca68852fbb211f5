/**
 * Reading pins back (cmd/worker/rubric_source.go, Brief in
 * cmd/api/interview_adapter.go), over any run of publications, rollbacks,
 * openings and compositions. A session goes on being judged by what it pinned.
 */
module PinStability {
  import opened Wrappers
  import opened ArtifactRegistry
  import opened Pinning
  import opened Composer
  import opened SessionBundles
  import Wrapping

  // A composed session: whose it is, and what its bundle pinned.
  datatype Bundle = Bundle(mode: string, candidate: string, tenant: string, inputs: seq<Entry>)

  datatype World = World(registry: Registry, campaigns: map<string, Campaign>, sessions: map<string, Bundle>)

  const NEW := World(EMPTY, map[], map[])

  datatype Step =
    | Operate(op: Operation)
    | DraftUp(campaign: string, tenant: string)
    | OpenUp(campaign: string, determined: bool, requests: seq<PinRequest>)
    | Close(campaign: string)
    | Compose(session: string, candidate: string, request: Request, sent: seq<Pin>)

  // The shape of a session row: it has a candidate, a practice session has no
  // tenant, and a screening session has one.
  predicate Storable(candidate: string, mode: string, tenant: string) {
    && !Wrapping.Blank(candidate)
    && ((mode == PRACTICE && tenant == "") || (mode == SCREENING && !Wrapping.Blank(tenant)))
  }

  // What a screening session is created with for a blueprint.
  function CampaignBlueprint(campaign: string): string {
    "campaign/" + campaign
  }

  ghost predicate Enabled(w: World, step: Step) {
    match step
    case Operate(op) => Allowed(w.registry, op)
    case DraftUp(campaign, tenant) => campaign !in w.campaigns && !Wrapping.Blank(tenant)
    case OpenUp(campaign, determined, requests) =>
      && campaign in w.campaigns
      && var c := w.campaigns[campaign];
         Opening(w.registry, c.tenant, c.status, determined, requests).Ok?
    case Close(campaign) => campaign in w.campaigns && w.campaigns[campaign].status == Open
    case Compose(session, candidate, request, sent) =>
      && session !in w.sessions // a bundle is written once
      && Storable(candidate, request.mode, request.tenant)
      && (request.mode == SCREENING ==> request.blueprint == CampaignBlueprint(request.campaign))
      && Answers(w.registry, w.campaigns, request, Ok(sent))
      && Bundled(session, request.blueprint, request.mode, sent).Ok?
  }

  ghost function Apply(w: World, step: Step): World
    requires Enabled(w, step)
  {
    match step
    case Operate(op) => w.(registry := Perform(w.registry, op))
    case DraftUp(campaign, tenant) => w.(campaigns := w.campaigns[campaign := Campaign(tenant, Unopened, map[])])
    case OpenUp(campaign, determined, requests) =>
      var c := w.campaigns[campaign];
      var pins := Opening(w.registry, c.tenant, c.status, determined, requests).value;
      w.(campaigns := w.campaigns[campaign := c.(status := Open, pins := pins)])
    case Close(campaign) => w.(campaigns := w.campaigns[campaign := w.campaigns[campaign].(status := Closed)])
    case Compose(session, candidate, request, sent) =>
      w.(sessions := w.sessions[session := Bundle(request.mode, candidate, request.tenant, Kept(sent))])
  }

  ghost predicate Possible(w: World, steps: seq<Step>)
    decreases |steps|
  {
    steps == [] || (Enabled(w, steps[0]) && Possible(Apply(w, steps[0]), steps[1..]))
  }

  ghost function After(w: World, steps: seq<Step>): World
    requires Possible(w, steps)
    decreases |steps|
  {
    if steps == [] then w else After(Apply(w, steps[0]), steps[1..])
  }

  // ------------------------------------------------------------ the readers

  // How a session is named to the store that holds it.
  datatype SessionRef = SessionRef(session: string, mode: string, candidate: string, tenant: string)

  datatype ReadError = NoUser | NoTenant | NotFound

  // interview.Store.Bundle. Practice acts as the candidate, outside any tenant,
  // and sees the candidate's own sessions; any other mode acts under the tenant,
  // refuses to act under none, and sees that tenant's.
  function FetchBundle(w: World, ref: SessionRef): Result<Bundle, ReadError> {
    if ref.mode == PRACTICE then
      if Wrapping.Blank(ref.candidate) then Err(NoUser)
      else if ref.session in w.sessions && w.sessions[ref.session].candidate == ref.candidate
      then Ok(w.sessions[ref.session])
      else Err(NotFound)
    else if Wrapping.Blank(ref.tenant) then Err(NoTenant)
    else if ref.session in w.sessions && w.sessions[ref.session].tenant == ref.tenant
    then Ok(w.sessions[ref.session])
    else Err(NotFound)
  }

  datatype Reading =
    | Unread(why: ReadError)
    | NotPinned
    | Gone
    | Read(reference: string, version: string, digest: string, body: string)

  ghost function BodyOf(r: Registry, digest: string, tenant: string): string
    requires Held(r, digest, tenant)
  {
    var id :| id in r.rows && Bears(r, id, digest, tenant);
    r.rows[id].body
  }

  // The pin of a kind, with the body its digest names; what is current is never
  // consulted.
  ghost function Pinned(w: World, ref: SessionRef, kind: string): Reading {
    match FetchBundle(w, ref)
    case Err(why) => Unread(why)
    case Ok(bundle) =>
      match FirstOf(bundle.inputs, kind)
      case None => NotPinned
      case Some(e) =>
        if Held(w.registry, e.digest, ref.tenant)
        then Read(e.reference, e.version, e.digest, BodyOf(w.registry, e.digest, ref.tenant))
        else Gone
  }

  method PinnedArtifact(w: World, ref: SessionRef, kind: string) returns (reading: Reading)
    requires OneBody(w.registry)
    ensures reading == Pinned(w, ref, kind)
  {
    var bundle := FetchBundle(w, ref);
    if bundle.Err? { return Unread(bundle.error); }
    var pin := FirstOf(bundle.value.inputs, kind);
    if pin.None? { return NotPinned; }
    var artifact, id := GetByDigest(w.registry, pin.value.digest, ref.tenant);
    if artifact.None? { return Gone; }
    BodyIsTheOne(w.registry, pin.value.digest, ref.tenant, id);
    return Read(pin.value.reference, pin.value.version, pin.value.digest, artifact.value.body);
  }

  lemma BodyIsTheOne(r: Registry, digest: string, tenant: string, id: nat)
    requires OneBody(r) && Bears(r, id, digest, tenant)
    ensures Held(r, digest, tenant) && BodyOf(r, digest, tenant) == r.rows[id].body
  {
    assert Held(r, digest, tenant);
    var other :| other in r.rows && Bears(r, other, digest, tenant)
      && r.rows[other].body == BodyOf(r, digest, tenant);
    assert SameDigestSameBody(r.rows[other], r.rows[id]);
  }

  // The plan among some inputs: that of the last pinned plan, unless the digest
  // of any pinned plan names nothing.
  ghost function PlanRead(r: Registry, inputs: seq<Entry>, tenant: string): Result<Option<string>, string> {
    if exists i :: 0 <= i < |inputs| && inputs[i].kind == PLAN && !Held(r, inputs[i].digest, tenant)
    then Err(FirstUnheld(r, inputs, tenant))
    else
      match LastOf(inputs, PLAN)
      case None => Ok(None)
      case Some(e) => LastIsListed(inputs, PLAN); Ok(Some(BodyOf(r, e.digest, tenant)))
  }

  ghost function FirstUnheld(r: Registry, inputs: seq<Entry>, tenant: string): string
    requires exists i :: 0 <= i < |inputs| && inputs[i].kind == PLAN && !Held(r, inputs[i].digest, tenant)
  {
    if inputs[0].kind == PLAN && !Held(r, inputs[0].digest, tenant) then inputs[0].digest
    else
      var rest := inputs[1..];
      assert exists i :: 0 <= i < |rest| && rest[i].kind == PLAN && !Held(r, rest[i].digest, tenant) by {
        var i :| 0 <= i < |inputs| && inputs[i].kind == PLAN && !Held(r, inputs[i].digest, tenant);
        assert rest[i - 1] == inputs[i];
      }
      FirstUnheld(r, rest, tenant)
  }

  datatype Briefing =
    | Unscoped(why: ReadError)
    | PlanGone(digest: string)
    | Briefed(plan: Option<string>)

  // What the interviewer is told of the plan. The session and then its bundle are
  // read under the mode that was asked with and no tenant: the same scope twice.
  ghost function BriefOf(w: World, session: string, candidate: string, mode: string): Briefing {
    match FetchBundle(w, SessionRef(session, mode, candidate, ""))
    case Err(why) => Unscoped(why)
    case Ok(bundle) =>
      match PlanRead(w.registry, bundle.inputs, bundle.tenant)
      case Err(digest) => PlanGone(digest)
      case Ok(plan) => Briefed(plan)
  }

  method Brief(w: World, session: string, candidate: string, mode: string) returns (brief: Briefing)
    requires OneBody(w.registry)
    ensures brief == BriefOf(w, session, candidate, mode)
  {
    var bundle := FetchBundle(w, SessionRef(session, mode, candidate, ""));
    if bundle.Err? { return Unscoped(bundle.error); }
    var plan := ReadPlan(w.registry, bundle.value.inputs, bundle.value.tenant);
    if plan.Err? { return PlanGone(plan.error); }
    return Briefed(plan.value);
  }

  method ReadPlan(r: Registry, inputs: seq<Entry>, tenant: string) returns (plan: Result<Option<string>, string>)
    requires OneBody(r)
    ensures plan == PlanRead(r, inputs, tenant)
  {
    var body: Option<string> := None;
    for i := 0 to |inputs|
      invariant forall j | 0 <= j < i && inputs[j].kind == PLAN :: Held(r, inputs[j].digest, tenant)
      invariant PlanRead(r, inputs[..i], tenant) == Ok(body)
    {
      assert inputs[..i + 1][..i] == inputs[..i];
      if inputs[i].kind == PLAN {
        var artifact, id := GetByDigest(r, inputs[i].digest, tenant);
        if artifact.None? {
          UnheldIsFirst(r, inputs, tenant, i);
          return Err(inputs[i].digest);
        }
        BodyIsTheOne(r, inputs[i].digest, tenant, id);
        body := Some(artifact.value.body);
      }
    }
    assert inputs[..|inputs|] == inputs;
    return Ok(body);
  }

  lemma {:induction false} UnheldIsFirst(r: Registry, inputs: seq<Entry>, tenant: string, i: nat)
    requires i < |inputs| && inputs[i].kind == PLAN && !Held(r, inputs[i].digest, tenant)
    requires forall j | 0 <= j < i && inputs[j].kind == PLAN :: Held(r, inputs[j].digest, tenant)
    ensures FirstUnheld(r, inputs, tenant) == inputs[i].digest
    decreases i
  {
    if i > 0 {
      assert inputs[1..][i - 1] == inputs[i];
      UnheldIsFirst(r, inputs[1..], tenant, i - 1);
    }
  }

  // Who may read a session: its own candidate in the practice mode, and in any other
  // mode the tenant it belongs to.
  lemma FetchesExactlyWhen(w: World, ref: SessionRef, b: Bundle)
    ensures FetchBundle(w, ref) == Ok(b) <==>
      && ref.session in w.sessions && w.sessions[ref.session] == b
      && if ref.mode == "practice" then !Wrapping.Blank(ref.candidate) && b.candidate == ref.candidate
         else !Wrapping.Blank(ref.tenant) && b.tenant == ref.tenant
    ensures FetchBundle(w, ref) == Err(NoUser) <==> ref.mode == "practice" && Wrapping.Blank(ref.candidate)
    ensures FetchBundle(w, ref) == Err(NoTenant) <==> ref.mode != "practice" && Wrapping.Blank(ref.tenant)
  {
  }

  ghost predicate FirstPlanGone(r: Registry, inputs: seq<Entry>, tenant: string, i: int) {
    && 0 <= i < |inputs| && inputs[i].kind == "plan" && !Borne(r, tenant, inputs[i].digest)
    && forall j | 0 <= j < i && inputs[j].kind == "plan" :: Borne(r, tenant, inputs[j].digest)
  }

  ghost predicate LastPlan(inputs: seq<Entry>, i: int) {
    0 <= i < |inputs| && inputs[i].kind == "plan" && forall j | i < j < |inputs| :: inputs[j].kind != "plan"
  }

  // What is read of a plan: the first of the pinned plans whose digest no version bears,
  // nothing where none is pinned, and otherwise the body a version bearing the last
  // one's digest has.
  lemma PlanReadsAs(r: Registry, inputs: seq<Entry>, tenant: string)
    ensures match PlanRead(r, inputs, tenant)
      case Err(digest) => exists i :: FirstPlanGone(r, inputs, tenant, i) && inputs[i].digest == digest
      case Ok(None) => forall e | e in inputs :: e.kind != "plan"
      case Ok(Some(body)) =>
        && (forall e | e in inputs && e.kind == "plan" :: Borne(r, tenant, e.digest))
        && exists i, id :: LastPlan(inputs, i) && id in r.rows && r.rows[id].digest == inputs[i].digest
             && (r.rows[id].tenant == "" || r.rows[id].tenant == tenant) && r.rows[id].body == body
  {
    forall e: Entry ensures Held(r, e.digest, tenant) <==> Borne(r, tenant, e.digest) {
      HeldIsBorne(r, e.digest, tenant);
    }
    if exists i :: 0 <= i < |inputs| && inputs[i].kind == PLAN && !Held(r, inputs[i].digest, tenant) {
      var i := SomePlanIsGoneFirst(r, inputs, tenant);
    } else {
      forall e | e in inputs && e.kind == "plan" ensures Borne(r, tenant, e.digest) {
        var i :| 0 <= i < |inputs| && inputs[i] == e;
      }
      LastIsListed(inputs, PLAN);
      if LastOf(inputs, PLAN).Some? {
        var i := LastIsLast(inputs);
        var digest := inputs[i].digest;
        var id :| id in r.rows && Bears(r, id, digest, tenant) && r.rows[id].body == BodyOf(r, digest, tenant);
      }
    }
  }

  lemma HeldIsBorne(r: Registry, digest: string, tenant: string)
    ensures Held(r, digest, tenant) <==> Borne(r, tenant, digest)
  {
    if id :| id in r.rows && r.rows[id].digest == digest && (r.rows[id].tenant == "" || r.rows[id].tenant == tenant) {
      assert Bears(r, id, digest, tenant);
    }
  }

  lemma {:induction false} LastIsLast(inputs: seq<Entry>) returns (i: nat)
    requires LastOf(inputs, PLAN).Some?
    ensures LastPlan(inputs, i) && LastOf(inputs, PLAN) == Some(inputs[i])
    decreases |inputs|
  {
    i := |inputs| - 1;
    if inputs[i].kind != PLAN { i := LastIsLast(inputs[..i]); }
  }

  lemma {:induction false} SomePlanIsGoneFirst(r: Registry, inputs: seq<Entry>, tenant: string) returns (i: nat)
    requires exists k :: 0 <= k < |inputs| && inputs[k].kind == PLAN && !Held(r, inputs[k].digest, tenant)
    ensures FirstPlanGone(r, inputs, tenant, i) && FirstUnheld(r, inputs, tenant) == inputs[i].digest
    decreases |inputs|
  {
    HeldIsBorne(r, inputs[0].digest, tenant);
    if inputs[0].kind == PLAN && !Held(r, inputs[0].digest, tenant) {
      i := 0;
    } else {
      var k :| 0 <= k < |inputs| && inputs[k].kind == PLAN && !Held(r, inputs[k].digest, tenant);
      assert inputs[1..][k - 1] == inputs[k];
      var j := SomePlanIsGoneFirst(r, inputs[1..], tenant);
      i := j + 1;
      forall n | 0 <= n < i && inputs[n].kind == "plan" ensures Borne(r, tenant, inputs[n].digest) {
        if n > 0 { assert inputs[1..][n - 1] == inputs[n]; }
      }
    }
  }
}
