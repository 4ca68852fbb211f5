/**
 * checkRoles in tools/authzgen/main.go: the role model the generator accepts,
 * and the isolation every accepted one has.
 */
module RoleModel {
  import opened Wrappers
  import opened Wrapping

  // A capability, as far as the check reads it.
  datatype Capability = Capability(name: string, owner: bool, platform: bool)

  datatype Role = Role(name: string, membership: bool, reason: string, capabilities: seq<string>)

  datatype Contract = Contract(capabilities: seq<Capability>, roles: seq<Role>, unbundled: seq<string>)

  type Catalogue = map<string, Capability>

  datatype Refusal =
    | RoleWithoutReason(role: string)
    | RoleGrantsNothing(role: string)
    | UnknownCapability(role: string, name: string)
    | GrantsPlatform(role: string, name: string)
    | GrantsBeyondOwner(role: string, name: string)
    | GrantsOwner(role: string, name: string)
    | UnknownUnbundled(name: string)
    | ReachesNobody(name: string)
    | BundledAndNot(name: string)

  // The catalogue by name. A name listed twice keeps its last entry.
  function Known(capabilities: seq<Capability>): Catalogue {
    if capabilities == [] then map[]
    else
      var last := capabilities[|capabilities| - 1];
      Known(capabilities[..|capabilities| - 1])[last.name := last]
  }

  function Bundled(roles: seq<Role>): set<string> {
    set role, name | role in roles && name in role.capabilities :: name
  }

  function Listed(names: seq<string>): set<string> {
    set name | name in names
  }

  // ------------------------------------------------------- the stated rules

  predicate GrantSound(known: Catalogue, role: Role, name: string) {
    && name in known
    && !known[name].platform
    && (role.membership <==> !known[name].owner)
  }

  predicate RoleSound(known: Catalogue, role: Role) {
    && !Blank(role.reason)
    && role.capabilities != []
    && forall name | name in role.capabilities :: GrantSound(known, role, name)
  }

  ghost predicate Acceptable(doc: Contract) {
    var known := Known(doc.capabilities);
    && (forall role | role in doc.roles :: RoleSound(known, role))
    && Listed(doc.unbundled) <= known.Keys
    && forall name | name in known :: name in Bundled(doc.roles) <==> name !in Listed(doc.unbundled)
  }

  // Whether a refusal names the first thing wrong with one grant of one role.
  ghost predicate GrantBlamed(known: Catalogue, role: Role, name: string, refusal: Refusal) {
    match refusal
    case UnknownCapability(r, n) => r == role.name && n == name && name !in known
    case GrantsPlatform(r, n) => r == role.name && n == name && name in known && known[name].platform
    case GrantsBeyondOwner(r, n) =>
      r == role.name && n == name && name in known && !known[name].platform && !role.membership && !known[name].owner
    case GrantsOwner(r, n) =>
      r == role.name && n == name && name in known && !known[name].platform && role.membership && known[name].owner
    case _ => false
  }

  ghost predicate RoleBlamed(known: Catalogue, role: Role, refusal: Refusal) {
    if Blank(role.reason) then refusal == RoleWithoutReason(role.name)
    else if role.capabilities == [] then refusal == RoleGrantsNothing(role.name)
    else exists k :: 0 <= k < |role.capabilities| && FirstBadGrant(known, role, k, refusal)
  }

  ghost predicate FirstBadGrant(known: Catalogue, role: Role, k: nat, refusal: Refusal)
    requires k < |role.capabilities|
  {
    && GrantBlamed(known, role, role.capabilities[k], refusal)
    && forall j | 0 <= j < k :: GrantSound(known, role, role.capabilities[j])
  }

  ghost predicate FirstBadRole(known: Catalogue, roles: seq<Role>, i: nat, refusal: Refusal)
    requires i < |roles|
  {
    RoleBlamed(known, roles[i], refusal) && forall j | 0 <= j < i :: RoleSound(known, roles[j])
  }

  ghost predicate FirstBadName(known: Catalogue, names: seq<string>, i: nat, refusal: Refusal)
    requires i < |names|
  {
    names[i] !in known && refusal == UnknownUnbundled(names[i]) && Listed(names[..i]) <= known.Keys
  }

  // A refusal is about the first role that is unsound, in the document's order;
  // failing that the first unbundled name nobody declared; failing that some
  // capability, in no fixed order.
  ghost predicate Blamed(doc: Contract, refusal: Refusal) {
    var known := Known(doc.capabilities);
    || (exists i :: 0 <= i < |doc.roles| && FirstBadRole(known, doc.roles, i, refusal))
    || ((forall role | role in doc.roles :: RoleSound(known, role)) && UnbundledBlamed(doc, known, refusal))
  }

  ghost predicate UnbundledBlamed(doc: Contract, known: Catalogue, refusal: Refusal) {
    match refusal
    case UnknownUnbundled(_) =>
      exists i :: 0 <= i < |doc.unbundled| && FirstBadName(known, doc.unbundled, i, refusal)
    case ReachesNobody(name) =>
      && Listed(doc.unbundled) <= known.Keys
      && name in known && name !in Bundled(doc.roles) && name !in Listed(doc.unbundled)
    case BundledAndNot(name) =>
      && Listed(doc.unbundled) <= known.Keys
      && name in known && name in Bundled(doc.roles) && name in Listed(doc.unbundled)
    case _ => false
  }

  // -------------------------------------------------------------- the check

  method ReadKnown(capabilities: seq<Capability>) returns (known: Catalogue)
    ensures known == Known(capabilities)
  {
    known := map[];
    for i := 0 to |capabilities|
      invariant known == Known(capabilities[..i])
    {
      assert capabilities[..i + 1][..i] == capabilities[..i];
      known := known[capabilities[i].name := capabilities[i]];
    }
    assert capabilities[..|capabilities|] == capabilities;
  }

  method CheckRole(known: Catalogue, role: Role) returns (bundled: set<string>, refusal: Option<Refusal>)
    ensures refusal.None? <==> RoleSound(known, role)
    ensures refusal.Some? ==> RoleBlamed(known, role, refusal.value)
    ensures refusal.None? ==> bundled == Listed(role.capabilities)
  {
    bundled := {};
    if Blank(role.reason) { return {}, Some(RoleWithoutReason(role.name)); }
    if |role.capabilities| == 0 { return {}, Some(RoleGrantsNothing(role.name)); }
    for k := 0 to |role.capabilities|
      invariant bundled == Listed(role.capabilities[..k])
      invariant forall j | 0 <= j < k :: GrantSound(known, role, role.capabilities[j])
    {
      var name := role.capabilities[k];
      assert role.capabilities[..k + 1] == role.capabilities[..k] + [name];
      if name !in known {
        refusal := Some(UnknownCapability(role.name, name));
        assert FirstBadGrant(known, role, k, refusal.value) && name in role.capabilities;
        return;
      }
      bundled := bundled + {name};
      if known[name].platform {
        refusal := Some(GrantsPlatform(role.name, name));
        assert FirstBadGrant(known, role, k, refusal.value) && name in role.capabilities;
        return;
      }
      if !role.membership && !known[name].owner {
        refusal := Some(GrantsBeyondOwner(role.name, name));
        assert FirstBadGrant(known, role, k, refusal.value) && name in role.capabilities;
        return;
      }
      if role.membership && known[name].owner {
        refusal := Some(GrantsOwner(role.name, name));
        assert FirstBadGrant(known, role, k, refusal.value) && name in role.capabilities;
        return;
      }
    }
    assert role.capabilities[..|role.capabilities|] == role.capabilities;
    refusal := None;
  }

  method CheckEachRole(known: Catalogue, roles: seq<Role>) returns (bundled: set<string>, refusal: Option<Refusal>)
    ensures refusal.None? <==> forall role | role in roles :: RoleSound(known, role)
    ensures refusal.None? ==> bundled == Bundled(roles)
    ensures refusal.Some? ==> exists i :: 0 <= i < |roles| && FirstBadRole(known, roles, i, refusal.value)
  {
    bundled := {};
    for i := 0 to |roles|
      invariant forall j | 0 <= j < i :: RoleSound(known, roles[j])
      invariant bundled == Bundled(roles[..i])
    {
      var granted;
      granted, refusal := CheckRole(known, roles[i]);
      if refusal.Some? {
        assert FirstBadRole(known, roles, i, refusal.value) && roles[i] in roles;
        return;
      }
      BundledSnoc(roles[..i], roles[i]);
      assert roles[..i + 1] == roles[..i] + [roles[i]];
      bundled := bundled + granted;
    }
    assert roles[..|roles|] == roles;
    refusal := None;
  }

  lemma BundledSnoc(roles: seq<Role>, role: Role)
    ensures Bundled(roles + [role]) == Bundled(roles) + Listed(role.capabilities)
  {
    forall name ensures name in Bundled(roles + [role]) <==> name in Bundled(roles) || name in role.capabilities {
      if name in role.capabilities { assert role in roles + [role]; }
      if r :| r in roles && name in r.capabilities { assert r in roles + [role]; }
    }
  }

  method ReadUnbundled(known: Catalogue, names: seq<string>) returns (unbundled: set<string>, refusal: Option<Refusal>)
    ensures refusal.None? <==> Listed(names) <= known.Keys
    ensures refusal.None? ==> unbundled == Listed(names)
    ensures refusal.Some? ==> exists i :: 0 <= i < |names| && FirstBadName(known, names, i, refusal.value)
  {
    unbundled := {};
    for i := 0 to |names|
      invariant unbundled == Listed(names[..i]) && unbundled <= known.Keys
    {
      if names[i] !in known {
        refusal := Some(UnknownUnbundled(names[i]));
        assert FirstBadName(known, names, i, refusal.value) && names[i] in Listed(names);
        return;
      }
      assert names[..i + 1] == names[..i] + [names[i]];
      unbundled := unbundled + {names[i]};
    }
    assert names[..|names|] == names;
    refusal := None;
  }

  method CheckRoles(doc: Contract) returns (refusal: Option<Refusal>)
    ensures refusal.None? <==> Acceptable(doc)
    ensures refusal.Some? ==> Blamed(doc, refusal.value)
  {
    var known := ReadKnown(doc.capabilities);
    var bundled, unbundled;
    bundled, refusal := CheckEachRole(known, doc.roles);
    if refusal.Some? { return; }
    unbundled, refusal := ReadUnbundled(known, doc.unbundled);
    if refusal.Some? { return; }
    var todo := known.Keys;
    while todo != {}
      invariant todo <= known.Keys
      invariant forall name | name in known && name !in todo :: name in bundled <==> name !in unbundled
    {
      var name :| name in todo;
      todo := todo - {name};
      if name !in bundled && name !in unbundled { return Some(ReachesNobody(name)); }
      if name in bundled && name in unbundled { return Some(BundledAndNot(name)); }
    }
    return None;
  }

  // ----------------------------------------------------------- isolation

  // What somebody holds through some roles together.
  function Held(roles: set<Role>): set<string> {
    set role, name | role in roles && name in role.capabilities :: name
  }

  // Every accepted model: bundled and unbundled names partition the catalogue,
  // no union of membership roles reaches owner or platform authority, and a
  // role without membership reaches owner authority only.
  lemma AcceptedModelIsolates(doc: Contract, roles: set<Role>)
    requires Acceptable(doc) && forall role | role in roles :: role in doc.roles
    ensures var known := Known(doc.capabilities);
      && Bundled(doc.roles) + Listed(doc.unbundled) == known.Keys
      && Bundled(doc.roles) !! Listed(doc.unbundled)
      && Held(roles) <= known.Keys
      && ((forall role | role in roles :: role.membership) ==>
            forall name | name in Held(roles) :: !known[name].owner && !known[name].platform)
      && ((forall role | role in roles :: !role.membership) ==>
            forall name | name in Held(roles) :: known[name].owner && !known[name].platform)
  {
    var known := Known(doc.capabilities);
    forall role, name | role in doc.roles && name in role.capabilities ensures GrantSound(known, role, name) {
      assert RoleSound(known, role);
    }
  }

  // A name's standing as every entry of the document states it, not only the
  // last one with that name.
  ghost predicate EntriesIsolated(doc: Contract) {
    forall role, entry | role in doc.roles && entry in doc.capabilities && entry.name in role.capabilities ::
      !entry.platform && (role.membership <==> !entry.owner)
  }

  ghost predicate EntriesAgree(doc: Contract) {
    var known := Known(doc.capabilities);
    forall entry | entry in doc.capabilities && entry.name in Bundled(doc.roles) && entry.name in known ::
      entry.owner == known[entry.name].owner && entry.platform == known[entry.name].platform
  }

  lemma {:induction false} KnownNames(capabilities: seq<Capability>)
    ensures forall entry | entry in capabilities :: entry.name in Known(capabilities)
    ensures forall name | name in Known(capabilities) ::
      Known(capabilities)[name].name == name && Known(capabilities)[name] in capabilities
    decreases |capabilities|
  {
    if capabilities != [] {
      var init, last := capabilities[..|capabilities| - 1], capabilities[|capabilities| - 1];
      KnownNames(init);
      assert capabilities == init + [last];
    }
  }

  // The check reads the last entry of a repeated name, so the isolation reaches
  // every entry exactly when entries of one bundled name agree.
  lemma IsolationReachesEveryEntryExactlyWhenEntriesAgree(doc: Contract)
    requires Acceptable(doc)
    ensures EntriesIsolated(doc) <==> EntriesAgree(doc)
  {
    var known := Known(doc.capabilities);
    KnownNames(doc.capabilities);
    forall role, name | role in doc.roles && name in role.capabilities ensures GrantSound(known, role, name) {
      assert RoleSound(known, role);
    }
    if EntriesIsolated(doc) {
      forall entry | entry in doc.capabilities && entry.name in Bundled(doc.roles)
        ensures entry.owner == known[entry.name].owner && entry.platform == known[entry.name].platform
      {
        var role :| role in doc.roles && entry.name in role.capabilities;
        assert GrantSound(known, role, entry.name);
      }
    }
    if EntriesAgree(doc) {
      forall role, entry | role in doc.roles && entry in doc.capabilities && entry.name in role.capabilities
        ensures !entry.platform && (role.membership <==> !entry.owner)
      {
        assert entry.name in Bundled(doc.roles) && GrantSound(known, role, entry.name);
      }
    }
  }

  // An accepted model whose two entries for one capability disagree: the first says
  // it is the owner's, and a membership role grants it.
  lemma DisagreeingEntriesAreAccepted(doc: Contract)
    requires doc == Contract(
      [Capability("a", true, false), Capability("a", false, false)], [Role("member", true, "r", ["a"])], [])
    ensures Acceptable(doc) && !EntriesAgree(doc) && !EntriesIsolated(doc)
  {
    var first, last := Capability("a", true, false), Capability("a", false, false);
    assert doc.capabilities[..1] == [first] && doc.capabilities[..1][..0] == [];
    assert Known(doc.capabilities) == map["a" := last] by { assert Known([first]) == map["a" := first]; }
    assert doc.roles[0] in doc.roles && doc.roles[0].capabilities[0] in doc.roles[0].capabilities;
    assert !IsSpace("r"[0]);
    assert Bundled(doc.roles) == {"a"} && Listed(doc.unbundled) == {};
    assert first in doc.capabilities && first.name in Bundled(doc.roles);
    IsolationReachesEveryEntryExactlyWhenEntriesAgree(doc);
  }
}
