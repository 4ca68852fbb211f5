/**
 * tools/authzgen/main.go: what the role check accepts and what each refusal
 * says, read off the document itself.
 */
module RoleReadings {
  import opened Wrapping
  import opened RoleModel

  // The entry that counts for a name: the last one that bears it.
  ghost predicate Counts(capabilities: seq<Capability>, i: int, name: string) {
    && 0 <= i < |capabilities| && capabilities[i].name == name
    && forall j | i < j < |capabilities| :: capabilities[j].name != name
  }

  ghost predicate Declares(capabilities: seq<Capability>, name: string) {
    exists entry :: entry in capabilities && entry.name == name
  }

  lemma {:induction false} KnownIsWhatCounts(capabilities: seq<Capability>, name: string)
    ensures name in Known(capabilities) <==> Declares(capabilities, name)
    ensures name in Known(capabilities) ==>
      exists i :: Counts(capabilities, i, name) && capabilities[i] == Known(capabilities)[name]
    decreases |capabilities|
  {
    if capabilities != [] {
      var front, last := capabilities[..|capabilities| - 1], capabilities[|capabilities| - 1];
      assert capabilities == front + [last];
      KnownIsWhatCounts(front, name);
      if last.name == name {
        assert last in capabilities && Counts(capabilities, |capabilities| - 1, name);
      } else if name in Known(front) {
        var i :| Counts(front, i, name) && front[i] == Known(front)[name];
        assert Counts(capabilities, i, name);
      }
    }
  }

  lemma OneCounts(capabilities: seq<Capability>, i: int, j: int, name: string)
    requires Counts(capabilities, i, name) && Counts(capabilities, j, name)
    ensures i == j
  {
  }

  // A grant within the role's reach: members are never granted what the owner or the
  // platform holds, and everybody else exactly what the owner does.
  ghost predicate WithinReach(capabilities: seq<Capability>, membership: bool, name: string) {
    exists i :: Counts(capabilities, i, name) && !capabilities[i].platform && capabilities[i].owner != membership
  }

  lemma GrantSoundExactlyWhen(capabilities: seq<Capability>, role: Role, name: string)
    ensures GrantSound(Known(capabilities), role, name) <==> WithinReach(capabilities, role.membership, name)
  {
    KnownIsWhatCounts(capabilities, name);
    if i :| Counts(capabilities, i, name) && !capabilities[i].platform && capabilities[i].owner != role.membership {
      assert capabilities[i] in capabilities;
      var j :| Counts(capabilities, j, name) && capabilities[j] == Known(capabilities)[name];
      OneCounts(capabilities, i, j, name);
    }
  }

  // A document is accepted exactly when every role says why it exists and grants
  // something, every grant is within its reach, every name left unbundled is declared,
  // and every declared name is either granted by some role or left unbundled, not both.
  lemma AcceptableExactlyWhen(doc: Contract)
    ensures Acceptable(doc) <==>
      && (forall role | role in doc.roles :: (exists c :: c in role.reason && !IsSpace(c)) && role.capabilities != [])
      && (forall role, name | role in doc.roles && name in role.capabilities ::
            WithinReach(doc.capabilities, role.membership, name))
      && (forall name | name in doc.unbundled :: Declares(doc.capabilities, name))
      && (forall entry | entry in doc.capabilities ::
            (exists role :: role in doc.roles && entry.name in role.capabilities) <==> entry.name !in doc.unbundled)
  {
    var known := Known(doc.capabilities);
    forall role, name ensures GrantSound(known, role, name) <==> WithinReach(doc.capabilities, role.membership, name) {
      GrantSoundExactlyWhen(doc.capabilities, role, name);
    }
    forall name ensures name in known <==> Declares(doc.capabilities, name) {
      KnownIsWhatCounts(doc.capabilities, name);
    }
    RolesSoundExactlyWhen(doc, known);
    NamesAccountedExactlyWhen(doc, known);
  }

  lemma RolesSoundExactlyWhen(doc: Contract, known: Catalogue)
    requires forall role, name ::
      GrantSound(known, role, name) <==> WithinReach(doc.capabilities, role.membership, name)
    ensures (forall role | role in doc.roles :: RoleSound(known, role)) <==>
      && (forall role | role in doc.roles :: (exists c :: c in role.reason && !IsSpace(c)) && role.capabilities != [])
      && (forall role, name | role in doc.roles && name in role.capabilities ::
            WithinReach(doc.capabilities, role.membership, name))
  {
    forall role: Role ensures Blank(role.reason) <==> !exists c :: c in role.reason && !IsSpace(c) {
      if !Blank(role.reason) {
        var i :| 0 <= i < |role.reason| && !IsSpace(role.reason[i]);
        assert role.reason[i] in role.reason;
      }
    }
    if forall role | role in doc.roles :: RoleSound(known, role) {
      forall role, name | role in doc.roles && name in role.capabilities
        ensures WithinReach(doc.capabilities, role.membership, name)
      {
        assert RoleSound(known, role) && GrantSound(known, role, name);
      }
    }
  }

  lemma NamesAccountedExactlyWhen(doc: Contract, known: Catalogue)
    requires forall name :: name in known <==> Declares(doc.capabilities, name)
    ensures Listed(doc.unbundled) <= known.Keys <==> forall name | name in doc.unbundled :: Declares(doc.capabilities, name)
    ensures (forall name | name in known :: name in Bundled(doc.roles) <==> name !in Listed(doc.unbundled)) <==>
      forall entry | entry in doc.capabilities ::
        (exists role :: role in doc.roles && entry.name in role.capabilities) <==> entry.name !in doc.unbundled
  {
    forall name ensures name in Bundled(doc.roles) <==> exists role :: role in doc.roles && name in role.capabilities {}
    forall name ensures name in Listed(doc.unbundled) <==> name in doc.unbundled {}
    if forall name | name in known :: name in Bundled(doc.roles) <==> name !in Listed(doc.unbundled) {
      forall entry | entry in doc.capabilities
        ensures (exists role :: role in doc.roles && entry.name in role.capabilities) <==> entry.name !in doc.unbundled
      {
        assert entry.name in known;
      }
    }
  }

  // A role of that name with that grant.
  ghost predicate Grants(doc: Contract, role: Role, name: string, grant: string) {
    role in doc.roles && role.name == name && grant in role.capabilities
  }

  // Each refusal is true of the document it refuses.
  lemma RefusalsAreTrue(doc: Contract, refusal: Refusal)
    requires Blamed(doc, refusal)
    ensures match refusal
      case RoleWithoutReason(r) =>
        exists role :: role in doc.roles && role.name == r && forall c | c in role.reason :: IsSpace(c)
      case RoleGrantsNothing(r) => exists role :: role in doc.roles && role.name == r && role.capabilities == []
      case UnknownCapability(r, n) => (exists role :: Grants(doc, role, r, n)) && !Declares(doc.capabilities, n)
      case GrantsPlatform(r, n) =>
        exists role, i :: Grants(doc, role, r, n) && Counts(doc.capabilities, i, n) && doc.capabilities[i].platform
      case GrantsBeyondOwner(r, n) =>
        exists role, i :: Grants(doc, role, r, n) && Counts(doc.capabilities, i, n)
          && !role.membership && !doc.capabilities[i].owner
      case GrantsOwner(r, n) =>
        exists role, i :: Grants(doc, role, r, n) && Counts(doc.capabilities, i, n)
          && role.membership && doc.capabilities[i].owner
      case UnknownUnbundled(n) => n in doc.unbundled && !Declares(doc.capabilities, n)
      case ReachesNobody(n) =>
        && Declares(doc.capabilities, n) && n !in doc.unbundled
        && forall role | role in doc.roles :: n !in role.capabilities
      case BundledAndNot(n) =>
        && Declares(doc.capabilities, n) && n in doc.unbundled
        && exists role :: role in doc.roles && n in role.capabilities
  {
    var known := Known(doc.capabilities);
    forall name ensures name in known <==> Declares(doc.capabilities, name)
      ensures name in known ==> exists i :: Counts(doc.capabilities, i, name) && doc.capabilities[i] == known[name]
    {
      KnownIsWhatCounts(doc.capabilities, name);
    }
    if i :| 0 <= i < |doc.roles| && FirstBadRole(known, doc.roles, i, refusal) {
      RoleRefusalIsTrue(doc, doc.roles[i], refusal);
    }
  }

  lemma RoleRefusalIsTrue(doc: Contract, role: Role, refusal: Refusal)
    requires role in doc.roles && RoleBlamed(Known(doc.capabilities), role, refusal)
    ensures match refusal
      case RoleWithoutReason(r) => role.name == r && forall c | c in role.reason :: IsSpace(c)
      case RoleGrantsNothing(r) => role.name == r && role.capabilities == []
      case UnknownCapability(r, n) => Grants(doc, role, r, n) && !Declares(doc.capabilities, n)
      case GrantsPlatform(r, n) =>
        Grants(doc, role, r, n) && exists i :: Counts(doc.capabilities, i, n) && doc.capabilities[i].platform
      case GrantsBeyondOwner(r, n) =>
        && Grants(doc, role, r, n) && !role.membership
        && exists i :: Counts(doc.capabilities, i, n) && !doc.capabilities[i].owner
      case GrantsOwner(r, n) =>
        && Grants(doc, role, r, n) && role.membership
        && exists i :: Counts(doc.capabilities, i, n) && doc.capabilities[i].owner
      case _ => false
  {
    var known := Known(doc.capabilities);
    if !Blank(role.reason) && role.capabilities != [] {
      var k :| 0 <= k < |role.capabilities| && FirstBadGrant(known, role, k, refusal);
      assert role.capabilities[k] in role.capabilities;
      KnownIsWhatCounts(doc.capabilities, role.capabilities[k]);
    }
  }

  // A role that says why it exists, grants something, and only within its reach.
  ghost predicate InOrder(doc: Contract, role: Role) {
    && (exists c :: c in role.reason && !IsSpace(c)) && role.capabilities != []
    && forall name | name in role.capabilities :: WithinReach(doc.capabilities, role.membership, name)
  }

  ghost predicate FirstOutOfOrder(doc: Contract, i: int) {
    0 <= i < |doc.roles| && !InOrder(doc, doc.roles[i]) && forall j | 0 <= j < i :: InOrder(doc, doc.roles[j])
  }

  ghost predicate FirstOutOfReach(doc: Contract, role: Role, k: int) {
    && 0 <= k < |role.capabilities| && !WithinReach(doc.capabilities, role.membership, role.capabilities[k])
    && forall j | 0 <= j < k :: WithinReach(doc.capabilities, role.membership, role.capabilities[j])
  }

  ghost predicate FirstUndeclared(doc: Contract, k: int) {
    && 0 <= k < |doc.unbundled| && !Declares(doc.capabilities, doc.unbundled[k])
    && forall j | 0 <= j < k :: Declares(doc.capabilities, doc.unbundled[j])
  }

  lemma RoleSoundIsInOrder(doc: Contract, role: Role)
    ensures RoleSound(Known(doc.capabilities), role) <==> InOrder(doc, role)
  {
    forall name ensures GrantSound(Known(doc.capabilities), role, name)
      <==> WithinReach(doc.capabilities, role.membership, name)
    {
      GrantSoundExactlyWhen(doc.capabilities, role, name);
    }
    if !Blank(role.reason) {
      var i :| 0 <= i < |role.reason| && !IsSpace(role.reason[i]);
      assert role.reason[i] in role.reason;
    }
  }

  // What is blamed comes first: a role before the names, the first role out of order, and
  // in it the first grant out of reach; then the first undeclared name; and the rest only
  // where all of these are in order.
  lemma TheFirstFaultIsBlamed(doc: Contract, refusal: Refusal)
    requires Blamed(doc, refusal)
    ensures refusal.RoleWithoutReason? || refusal.RoleGrantsNothing? ==>
      exists i :: FirstOutOfOrder(doc, i) && doc.roles[i].name == refusal.role
    ensures refusal.UnknownCapability? || refusal.GrantsPlatform? || refusal.GrantsBeyondOwner? || refusal.GrantsOwner? ==>
      exists i, k :: FirstOutOfOrder(doc, i) && FirstOutOfReach(doc, doc.roles[i], k)
        && doc.roles[i].name == refusal.role && doc.roles[i].capabilities[k] == refusal.name
    ensures refusal.UnknownUnbundled? || refusal.ReachesNobody? || refusal.BundledAndNot? ==>
      forall role | role in doc.roles :: InOrder(doc, role)
    ensures refusal.UnknownUnbundled? ==> exists k :: FirstUndeclared(doc, k) && doc.unbundled[k] == refusal.name
    ensures refusal.ReachesNobody? || refusal.BundledAndNot? ==>
      forall name | name in doc.unbundled :: Declares(doc.capabilities, name)
  {
    var known := Known(doc.capabilities);
    forall role ensures RoleSound(known, role) <==> InOrder(doc, role) { RoleSoundIsInOrder(doc, role); }
    forall name ensures name in known <==> Declares(doc.capabilities, name) { KnownIsWhatCounts(doc.capabilities, name); }
    if i :| 0 <= i < |doc.roles| && FirstBadRole(known, doc.roles, i, refusal) {
      BlamedRoleIsUnsound(doc, doc.roles[i], refusal);
      assert FirstOutOfOrder(doc, i);
    } else if refusal.UnknownUnbundled? {
      var k :| 0 <= k < |doc.unbundled| && FirstBadName(known, doc.unbundled, k, refusal);
      forall j | 0 <= j < k ensures Declares(doc.capabilities, doc.unbundled[j]) {
        assert doc.unbundled[..k][j] in Listed(doc.unbundled[..k]);
      }
      assert FirstUndeclared(doc, k);
    } else {
      forall name | name in doc.unbundled ensures Declares(doc.capabilities, name) { assert name in Listed(doc.unbundled); }
    }
  }

  ghost predicate BlamesFirst(doc: Contract, role: Role, name: string) {
    exists k :: FirstOutOfReach(doc, role, k) && role.capabilities[k] == name
  }

  lemma BlamedRoleIsUnsound(doc: Contract, role: Role, refusal: Refusal)
    requires RoleBlamed(Known(doc.capabilities), role, refusal)
    ensures !RoleSound(Known(doc.capabilities), role)
    ensures match refusal
      case RoleWithoutReason(r) => r == role.name
      case RoleGrantsNothing(r) => r == role.name
      case UnknownCapability(r, n) => r == role.name && BlamesFirst(doc, role, n)
      case GrantsPlatform(r, n) => r == role.name && BlamesFirst(doc, role, n)
      case GrantsBeyondOwner(r, n) => r == role.name && BlamesFirst(doc, role, n)
      case GrantsOwner(r, n) => r == role.name && BlamesFirst(doc, role, n)
      case _ => false
  {
    var known := Known(doc.capabilities);
    if !Blank(role.reason) && role.capabilities != [] {
      var k :| 0 <= k < |role.capabilities| && FirstBadGrant(known, role, k, refusal);
      forall j | 0 <= j <= k
        ensures GrantSound(known, role, role.capabilities[j])
          <==> WithinReach(doc.capabilities, role.membership, role.capabilities[j])
      {
        GrantSoundExactlyWhen(doc.capabilities, role, role.capabilities[j]);
      }
      assert FirstOutOfReach(doc, role, k) && role.capabilities[k] in role.capabilities;
    }
  }
}
