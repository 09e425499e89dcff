/** Who may do what with a document: role permissions, the case relationship and document shares, evaluated over
    reads that row-level security filters. */
module Access {
  import opened Outcomes
  import opened Text

  type UserId = nat

  type Action = string

  /** The caller as resolved by the server; roles come ordered by name. */
  datatype User = User(id: UserId, roles: seq<string>)

  datatype Permission = VIEW | VERIFY

  /** One row of document_shares; its place in the table is its id. */
  datatype Share = Share(
    documentID: nat, sharedWith: UserId, createdBy: UserId, permission: Permission, revokedBy: Option<UserId>,
    expiresAt: Option<nat>)

  /** The tables a decision reads. `members` holds the memberships that are not removed. */
  datatype Tables = Tables(
    rolePermissions: map<string, seq<Action>>, cases: map<nat, UserId>, members: set<(nat, UserId)>,
    documents: map<nat, nat>, shares: seq<Share>, activeUsers: set<UserId>, now: nat)

  const ADMIN := "ADMIN"

  /** The roles of the seed data. */
  const CATALOG := {"ADMIN", "FORENSICS", "JUDGE", "LAWYER", "POLICE"}

  // ---- roles and permissions ----

  predicate IsAdmin(u: User) {
    ADMIN in u.roles
  }

  function EffectiveRole(u: User): string {
    if |u.roles| == 0 then "" else u.roles[0]
  }

  predicate HasPermission(t: Tables, u: User, a: Action) {
    exists r :: r in u.roles && r in t.rolePermissions && a in t.rolePermissions[r]
  }

  /** The union over the roles; a role that is not in the catalog contributes nothing. */
  method LoadPermissions(t: Tables, roles: seq<string>) returns (perms: set<Action>)
    ensures forall a :: a in perms <==> HasPermission(t, User(0, roles), a)
  {
    perms := {};
    for i := 0 to |roles|
      invariant forall a :: a in perms <==> HasPermission(t, User(0, roles[..i]), a)
    {
      ghost var before := perms;
      assert roles[..i + 1] == roles[..i] + [roles[i]];
      if roles[i] !in t.rolePermissions {
        continue;
      }
      var granted := t.rolePermissions[roles[i]];
      for j := 0 to |granted|
        invariant forall a :: a in perms <==> a in before || a in granted[..j]
      {
        perms := perms + {granted[j]};
      }
      assert granted[..|granted|] == granted;
    }
    assert roles[..|roles|] == roles;
  }

  // ---- row-level security ----

  predicate Member(t: Tables, u: UserId, c: nat) {
    (c, u) in t.members
  }

  predicate Owner(t: Tables, u: UserId, c: nat) {
    c in t.cases && t.cases[c] == u
  }

  predicate Current(s: Share, now: nat) {
    s.revokedBy.None? && (s.expiresAt.None? || s.expiresAt.value > now)
  }

  /** An active, unexpired share of this document with this user: has_active_document_share. */
  predicate SharedWith(t: Tables, d: nat, u: UserId, i: nat) {
    i < |t.shares| && t.shares[i].documentID == d && t.shares[i].sharedWith == u && Current(t.shares[i], t.now)
  }

  predicate HasShare(t: Tables, d: nat, u: UserId) {
    exists i :: 0 <= i < |t.shares| && SharedWith(t, d, u, i)
  }

  /** documents_select. */
  predicate DocumentVisible(t: Tables, u: User, d: nat)
    requires d in t.documents
  {
    EffectiveRole(u) == ADMIN || Member(t, u.id, t.documents[d]) || HasShare(t, d, u.id)
  }

  /** cases_select. */
  predicate CaseVisible(t: Tables, u: User, c: nat)
    requires c in t.cases
  {
    EffectiveRole(u) == ADMIN || Owner(t, u.id, c) || Member(t, u.id, c)
  }

  // ---- the decision ----

  datatype Decision = Allowed(reason: string) | Denied(reason: string)

  datatype Relationship = Relationship(found: bool, isOwner: bool, isMember: bool)

  /** loadCaseRelationship, on filtered reads or on the full tables. */
  function CaseRelationship(t: Tables, u: User, c: nat, filtered: bool): Relationship {
    if c !in t.cases || (filtered && !CaseVisible(t, u, c)) then Relationship(false, false, false)
    else Relationship(true, Owner(t, u.id, c), Member(t, u.id, c))
  }

  const VIEW_ACTIONS := {"document:read", "document:download", "certificate:read"}

  const VERIFY_ACTIONS := {"document:verify"}

  predicate Coverable(a: Action) {
    a in VIEW_ACTIONS || a in VERIFY_ACTIONS
  }

  predicate PermissionCovers(p: Permission, a: Action) {
    a in VIEW_ACTIONS || (p == VERIFY && a in VERIFY_ACTIONS)
  }

  /** The share the query with LIMIT 1 returns; the caller always sees shares made to them. */
  function FindShare(t: Tables, d: nat, u: UserId, i: nat): (r: Option<nat>)
    ensures r.Some? ==> SharedWith(t, d, u, r.value)
    ensures r.None? ==> forall j :: i <= j < |t.shares| ==> !SharedWith(t, d, u, j)
    decreases |t.shares| - i
  {
    if i >= |t.shares| then None
    else if SharedWith(t, d, u, i) then Some(i)
    else FindShare(t, d, u, i + 1)
  }

  predicate ShareGrants(t: Tables, u: User, d: nat, a: Action) {
    Coverable(a) &&
    match FindShare(t, d, u.id, 0)
    case None => false
    case Some(i) => Current(t.shares[i], t.now) && PermissionCovers(t.shares[i].permission, a)
  }

  function CanAccessDocument(t: Tables, u: User, d: nat, a: Action, filtered: bool): Decision {
    if !HasPermission(t, u, a) then Denied("permission_denied")
    else if d !in t.documents || (filtered && !DocumentVisible(t, u, d)) then Denied("not_found_or_no_relationship")
    else if IsAdmin(u) then Allowed("admin")
    else
      var rel := CaseRelationship(t, u, t.documents[d], filtered);
      if rel.found && (rel.isOwner || rel.isMember) then Allowed("case_relationship_verified")
      else if ShareGrants(t, u, d, a) then Allowed("delegated_share")
      else Denied("not_case_member")
  }

  function CanAccessCase(t: Tables, u: User, c: nat, a: Action, filtered: bool): Decision {
    if !HasPermission(t, u, a) then Denied("permission_denied")
    else if IsAdmin(u) then Allowed("admin")
    else
      var rel := CaseRelationship(t, u, c, filtered);
      if !rel.found then Denied("not_found_or_no_relationship")
      else if !rel.isOwner && !rel.isMember then Denied("not_case_member")
      else Allowed("case_relationship_verified")
  }

  /** At most one active share for each document and recipient: document_shares_active_unique. */
  predicate ActiveUnique(shares: seq<Share>) {
    forall i, j :: 0 <= i < j < |shares| && shares[i].revokedBy.None? && shares[j].revokedBy.None? ==>
      shares[i].documentID != shares[j].documentID || shares[i].sharedWith != shares[j].sharedWith
  }

  /** The user holds a share of the document at this time: not revoked, and not expired. */
  predicate Holds(s: Share, d: nat, u: UserId, now: nat) {
    s.documentID == d && s.sharedWith == u && s.revokedBy == None && (s.expiresAt.Some? ==> now < s.expiresAt.value)
  }

  /** Reading, downloading and reading certificates come with any share, verifying only with a VERIFY share. */
  predicate Covers(s: Share, a: Action) {
    a == "document:read" || a == "document:download" || a == "certificate:read" || (a == "document:verify" && s.permission == VERIFY)
  }

  /** Who may do what with a document, in terms of the tables alone: the permission must come from some role; on filtered
      reads the document must be visible; and the user must be an ADMIN, own the case or be its member, or hold a share
      that covers the action. */
  lemma DocumentDecision(t: Tables, u: User, d: nat, a: Action, filtered: bool)
    requires ActiveUnique(t.shares)
    ensures CanAccessDocument(t, u, d, a, filtered).Allowed? <==>
      && (exists r :: r in u.roles && r in t.rolePermissions && a in t.rolePermissions[r])
      && d in t.documents
      && (filtered ==>
            || (|u.roles| > 0 && u.roles[0] == "ADMIN")
            || (t.documents[d], u.id) in t.members
            || exists i :: 0 <= i < |t.shares| && Holds(t.shares[i], d, u.id, t.now))
      && (|| "ADMIN" in u.roles
          || (t.documents[d] in t.cases && (t.cases[t.documents[d]] == u.id || (t.documents[d], u.id) in t.members))
          || exists i :: 0 <= i < |t.shares| && Holds(t.shares[i], d, u.id, t.now) && Covers(t.shares[i], a))
  {
    hide HasPermission;
    assert HasPermission(t, u, a) <==> exists r :: r in u.roles && r in t.rolePermissions && a in t.rolePermissions[r] by {
      PermissionFromRole(t, u, a);
    }
    if d in t.documents {
      SharesDecide(t, u, d, a);
      hide ShareGrants, Holds, Covers;
    }
  }

  lemma PermissionFromRole(t: Tables, u: User, a: Action)
    ensures HasPermission(t, u, a) <==> exists r :: r in u.roles && r in t.rolePermissions && a in t.rolePermissions[r]
  {}

  /** The share that the query with LIMIT 1 picks is as good as any. */
  lemma SharesDecide(t: Tables, u: User, d: nat, a: Action)
    requires ActiveUnique(t.shares) && d in t.documents
    ensures HasShare(t, d, u.id) <==> exists i :: 0 <= i < |t.shares| && Holds(t.shares[i], d, u.id, t.now)
    ensures ShareGrants(t, u, d, a) <==>
      exists i :: 0 <= i < |t.shares| && Holds(t.shares[i], d, u.id, t.now) && Covers(t.shares[i], a)
  {
    assert forall i :: 0 <= i < |t.shares| ==> (SharedWith(t, d, u.id, i) <==> Holds(t.shares[i], d, u.id, t.now));
    assert forall p :: PermissionCovers(p, a) ==> Coverable(a);
    assert forall i :: 0 <= i < |t.shares| ==> (PermissionCovers(t.shares[i].permission, a) <==> Covers(t.shares[i], a));
    match FindShare(t, d, u.id, 0)
    case None =>
    case Some(i) =>
      forall j | 0 <= j < |t.shares| && SharedWith(t, d, u.id, j) ensures j == i {
      }
  }

  /** Who may do what with a case: the permission must come from some role, and the user must be an ADMIN, own the case or
      be its member. */
  lemma CaseDecision(t: Tables, u: User, c: nat, a: Action, filtered: bool)
    ensures CanAccessCase(t, u, c, a, filtered).Allowed? <==>
      && (exists r :: r in u.roles && r in t.rolePermissions && a in t.rolePermissions[r])
      && ("ADMIN" in u.roles || (c in t.cases && (t.cases[c] == u.id || (c, u.id) in t.members)))
  {
    PermissionFromRole(t, u, a);
  }

  // ---- the layers ----

  predicate SortedRoles(roles: seq<string>) {
    (forall r :: r in roles ==> r in CATALOG) && forall i, j :: 0 <= i < j < |roles| ==> !StringLess(roles[j], roles[i])
  }

  /** For roles of the catalog ordered by name, the first one is ADMIN whenever any is. */
  lemma SortedAdmin(u: User)
    requires SortedRoles(u.roles)
    ensures IsAdmin(u) <==> EffectiveRole(u) == ADMIN
  {
    if IsAdmin(u) {
      var i :| 0 <= i < |u.roles| && u.roles[i] == ADMIN;
      assert u.roles[0] in CATALOG;
      AdminFirst(u.roles[0]);
    }
  }

  lemma AdminFirst(r: string)
    requires r in CATALOG
    ensures r == ADMIN || StringLess(ADMIN, r)
  {
    assert "FORENSICS"[0] == 'F' && "JUDGE"[0] == 'J' && "LAWYER"[0] == 'L' && "POLICE"[0] == 'P' && ADMIN[0] == 'A';
  }

  /** The case of every document is in the cases table. */
  predicate Referential(t: Tables) {
    forall d :: d in t.documents ==> t.documents[d] in t.cases
  }

  /** The one situation in which the filtered reads deny what the full tables allow: documents_select hides the
      document from its case's owner, who is neither a member nor a recipient, or from an ADMIN whose first role is
      another one. */
  predicate HiddenFromOwner(t: Tables, u: User, d: nat, a: Action) {
    && HasPermission(t, u, a) && d in t.documents
    && !DocumentVisible(t, u, d)
    && (IsAdmin(u) || Owner(t, u.id, t.documents[d]))
  }

  /** Row-level security never changes a decision on a case. */
  lemma CaseLayersAgree(t: Tables, u: User, c: nat, a: Action)
    ensures CanAccessCase(t, u, c, a, true).Allowed? <==> CanAccessCase(t, u, c, a, false).Allowed?
  {}

  /** On a document, both layers decide alike, with the same reason when they allow, except exactly then. */
  lemma DocumentLayersAgreeIff(t: Tables, u: User, d: nat, a: Action)
    requires Referential(t)
    ensures (CanAccessDocument(t, u, d, a, true).Allowed? <==> CanAccessDocument(t, u, d, a, false).Allowed?)
      <==> !HiddenFromOwner(t, u, d, a)
    ensures CanAccessDocument(t, u, d, a, true).Allowed? ==> CanAccessDocument(t, u, d, a, true) == CanAccessDocument(t, u, d, a, false)
  {
    if d in t.documents && ShareGrants(t, u, d, a) {
      var i := FindShare(t, d, u.id, 0).value;
      assert HasShare(t, d, u.id);
    }
  }

  /** For sorted roles only an owner who is not a member is affected. */
  lemma SortedRolesLeaveOnlyOwners(t: Tables, u: User, d: nat, a: Action)
    requires SortedRoles(u.roles) && Referential(t)
    ensures HiddenFromOwner(t, u, d, a) <==>
      && HasPermission(t, u, a) && d in t.documents && !IsAdmin(u) && Owner(t, u.id, t.documents[d])
      && !Member(t, u.id, t.documents[d]) && !HasShare(t, d, u.id)
  {
    SortedAdmin(u);
  }

  // ---- delegation ----

  predicate Related(t: Tables, u: User, d: nat) {
    IsAdmin(u) || (d in t.documents && (Owner(t, u.id, t.documents[d]) || Member(t, u.id, t.documents[d])))
  }

  /** A user unrelated to the case may do exactly what a current share with them covers and their roles permit, so
      never redact, share, upload or create a certificate. */
  lemma UnrelatedNeedShare(t: Tables, u: User, d: nat, a: Action)
    requires !Related(t, u, d) && ActiveUnique(t.shares)
    ensures CanAccessDocument(t, u, d, a, true).Allowed? <==>
      && HasPermission(t, u, a) && d in t.documents
      && exists i :: 0 <= i < |t.shares| && SharedWith(t, d, u.id, i) && PermissionCovers(t.shares[i].permission, a)
    ensures CanAccessDocument(t, u, d, a, true).Allowed? ==>
      a != "document:redact" && a != "document:share" && a != "document:upload" && a != "certificate:create"
  {
    assert Coverable(a) <==> exists p :: PermissionCovers(p, a) by {
      assert Coverable(a) ==> PermissionCovers(VERIFY, a);
    }
    if d in t.documents {
      match FindShare(t, d, u.id, 0)
      case None =>
      case Some(i) =>
        assert HasShare(t, d, u.id);
        forall j | 0 <= j < |t.shares| && SharedWith(t, d, u.id, j) ensures j == i {
        }
    }
  }

  // ---- creating and revoking shares ----

  datatype ShareInput = ShareInput(recipient: UserId, permission: Option<Permission>, expiresAt: Option<nat>, reasonLength: nat)

  datatype ShareError = Forbidden | BadRequest | Conflict | NotFound | Internal

  const MAX_SHARE_REASON_LEN := 2000

  /** document_shares_insert and document_shares_update: ADMIN, or a member of the document's case. */
  predicate MayWriteShare(t: Tables, u: User, d: nat) {
    EffectiveRole(u) == ADMIN || (d in t.documents && Member(t, u.id, t.documents[d]))
  }

  predicate ActiveShareExists(shares: seq<Share>, d: nat, recipient: UserId) {
    exists i :: 0 <= i < |shares| && shares[i].documentID == d && shares[i].sharedWith == recipient && shares[i].revokedBy.None?
  }

  function CreateShare(t: Tables, u: User, d: nat, input: ShareInput): (r: Result<Share, ShareError>) {
    if CanAccessDocument(t, u, d, "document:share", true).Denied? then Err(Forbidden)
    else if input.permission.None? || input.reasonLength > MAX_SHARE_REASON_LEN then Err(BadRequest)
    else if input.expiresAt.Some? && input.expiresAt.value <= t.now then Err(BadRequest)
    else if input.recipient == u.id || input.recipient !in t.activeUsers then Err(BadRequest)
    else if !MayWriteShare(t, u, d) then Err(Internal)
    else if ActiveShareExists(t.shares, d, input.recipient) then Err(Conflict)
    else Ok(Share(d, input.recipient, u.id, input.permission.value, None, input.expiresAt))
  }

  function RevokeShare(t: Tables, u: User, d: nat, id: nat): (r: Result<Share, ShareError>)
    ensures r.Ok? ==> id < |t.shares|
  {
    if CanAccessDocument(t, u, d, "document:share", true).Denied? then Err(Forbidden)
    else if id >= |t.shares| || t.shares[id].documentID != d || t.shares[id].revokedBy.Some? || !MayWriteShare(t, u, d) then Err(NotFound)
    else Ok(t.shares[id].(revokedBy := Some(u.id)))
  }

  class ShareService {
    var tables: Tables

    constructor (tables: Tables)
      ensures this.tables == tables
    {
      this.tables := tables;
    }

    method Create(u: User, d: nat, input: ShareInput) returns (result: Result<Share, ShareError>)
      requires ActiveUnique(tables.shares)
      modifies this
      ensures ActiveUnique(tables.shares) && result == CreateShare(old(tables), u, d, input)
      ensures tables == old(tables).(shares := if result.Ok? then old(tables).shares + [result.value] else old(tables).shares)
      ensures result.Ok? <==>
        && CanAccessDocument(old(tables), u, d, "document:share", true).Allowed?
        && input.permission.Some? && input.reasonLength <= 2000
        && (input.expiresAt.Some? ==> old(tables).now < input.expiresAt.value)
        && input.recipient != u.id && input.recipient in old(tables).activeUsers
        && ((|u.roles| > 0 && u.roles[0] == "ADMIN") || (d in old(tables).documents && (old(tables).documents[d], u.id) in old(tables).members))
        && forall i :: 0 <= i < |old(tables).shares| ==> var s := old(tables).shares[i];
             s.documentID != d || s.sharedWith != input.recipient || s.revokedBy.Some?
      ensures result.Ok? ==> result.value == Share(d, input.recipient, u.id, input.permission.value, None, input.expiresAt)
      ensures result == Err(Forbidden) <==> CanAccessDocument(old(tables), u, d, "document:share", true).Denied?
      ensures result == Err(Conflict) ==> exists i :: 0 <= i < |old(tables).shares| && var s := old(tables).shares[i];
        s.documentID == d && s.sharedWith == input.recipient && s.revokedBy == None
    {
      var decision := CanAccessDocument(tables, u, d, "document:share", true);
      if decision.Denied? {
        return Err(Forbidden);
      }
      if input.permission.None? {
        return Err(BadRequest);
      }
      if input.reasonLength > MAX_SHARE_REASON_LEN {
        return Err(BadRequest);
      }
      if input.expiresAt.Some? && input.expiresAt.value <= tables.now {
        return Err(BadRequest);
      }
      if input.recipient == u.id || input.recipient !in tables.activeUsers {
        return Err(BadRequest);
      }
      if !MayWriteShare(tables, u, d) {
        return Err(Internal);
      }
      for i := 0 to |tables.shares|
        invariant forall j :: 0 <= j < i ==>
          tables.shares[j].documentID != d || tables.shares[j].sharedWith != input.recipient || tables.shares[j].revokedBy.Some?
      {
        var s := tables.shares[i];
        if s.documentID == d && s.sharedWith == input.recipient && s.revokedBy.None? {
          return Err(Conflict);
        }
      }
      var created := Share(d, input.recipient, u.id, input.permission.value, None, input.expiresAt);
      tables := tables.(shares := tables.shares + [created]);
      result := Ok(created);
    }

    method Revoke(u: User, d: nat, id: nat) returns (result: Result<Share, ShareError>)
      requires ActiveUnique(tables.shares)
      modifies this
      ensures ActiveUnique(tables.shares) && result == RevokeShare(old(tables), u, d, id)
      ensures result.Ok? <==>
        && CanAccessDocument(old(tables), u, d, "document:share", true).Allowed?
        && ((|u.roles| > 0 && u.roles[0] == "ADMIN") || (d in old(tables).documents && (old(tables).documents[d], u.id) in old(tables).members))
        && id < |old(tables).shares| && old(tables).shares[id].documentID == d && old(tables).shares[id].revokedBy == None
      ensures result.Ok? ==>
        && result.value == old(tables).shares[id].(revokedBy := Some(u.id))
        && tables == old(tables).(shares := old(tables).shares[id := result.value])
      ensures result.Err? ==> tables == old(tables)
      ensures result == Err(Forbidden) <==> CanAccessDocument(old(tables), u, d, "document:share", true).Denied?
    {
      if CanAccessDocument(tables, u, d, "document:share", true).Denied? {
        return Err(Forbidden);
      }
      if id >= |tables.shares| || tables.shares[id].documentID != d || tables.shares[id].revokedBy.Some? || !MayWriteShare(tables, u, d) {
        return Err(NotFound);
      }
      var revoked := tables.shares[id].(revokedBy := Some(u.id));
      tables := tables.(shares := tables.shares[id := revoked]);
      result := Ok(revoked);
    }
  }

  // ---- runs ----

  datatype Call =
    | CreateCall(user: User, documentID: nat, input: ShareInput)
    | RevokeCall(user: User, documentID: nat, shareID: nat)
    | OpenCase(caseID: nat, creator: UserId)
    | AddMember(caseID: nat, user_: UserId)
    | RemoveMember(caseID: nat, user_: UserId)
    | AddDocument(documentID: nat, caseID: nat)
    | SetActive(user_: UserId, active: bool)
    | Wait(time: nat)

  function DoCall(t: Tables, c: Call): Tables {
    match c
    case CreateCall(u, d, input) =>
      var r := CreateShare(t, u, d, input);
      if r.Ok? then t.(shares := t.shares + [r.value]) else t
    case RevokeCall(u, d, id) =>
      var r := RevokeShare(t, u, d, id);
      if r.Ok? then t.(shares := t.shares[id := r.value]) else t
    case OpenCase(c, creator) => if c in t.cases then t else t.(cases := t.cases[c := creator], members := t.members + {(c, creator)})
    case AddMember(c, u) => if c in t.cases then t.(members := t.members + {(c, u)}) else t
    case RemoveMember(c, u) => t.(members := t.members - {(c, u)})
    case AddDocument(d, c) => if c in t.cases && d !in t.documents then t.(documents := t.documents[d := c]) else t
    case SetActive(u, active) => t.(activeUsers := if active then t.activeUsers + {u} else t.activeUsers - {u})
    case Wait(time) => t.(now := t.now + time)
  }

  function RunCalls(rolePermissions: map<string, seq<Action>>, calls: seq<Call>): Tables {
    if |calls| == 0 then Tables(rolePermissions, map[], {}, map[], [], {}, 0)
    else DoCall(RunCalls(rolePermissions, calls[..|calls| - 1]), calls[|calls| - 1])
  }

  // ---- what a share gives and a revocation takes ----

  /** From its creation until it is revoked or expires, a share gives an unrelated recipient exactly the actions that its
      permission covers and that the recipient's roles permit. */
  lemma CreatedShareGives(t: Tables, u: User, d: nat, input: ShareInput, v: User, a: Action, later: nat, filtered: bool)
    requires ActiveUnique(t.shares) && CreateShare(t, u, d, input).Ok?
    requires v.id == input.recipient && !Related(t, v, d) && t.now <= later
    ensures var after := DoCall(t, CreateCall(u, d, input)).(now := later);
      CanAccessDocument(after, v, d, a, filtered).Allowed? <==>
        && HasPermission(t, v, a)
        && (input.expiresAt.Some? ==> later < input.expiresAt.value)
        && (a in {"document:read", "document:download", "certificate:read"} || (a == "document:verify" && input.permission == Some(VERIFY)))
  {
    var after := DoCall(t, CreateCall(u, d, input)).(now := later);
    var n := |t.shares|;
    NewShareIsActive(t, u, d, input);
    assert after.shares[n] == Share(d, input.recipient, u.id, input.permission.value, None, input.expiresAt);
    DocumentDecision(after, v, d, a, filtered);
    PermissionFromRole(t, v, a);
    assert forall i :: 0 <= i < n ==> after.shares[i] == t.shares[i] && !Holds(t.shares[i], d, v.id, later);
    hide CanAccessDocument, CreateShare;
    if Holds(after.shares[n], d, v.id, later) && Covers(after.shares[n], a) {
      assert 0 <= n < |after.shares|;
    }
  }

  lemma NewShareIsActive(t: Tables, u: User, d: nat, input: ShareInput)
    requires ActiveUnique(t.shares) && CreateShare(t, u, d, input).Ok?
    ensures d in t.documents && ActiveUnique(DoCall(t, CreateCall(u, d, input)).shares)
    ensures forall i :: 0 <= i < |t.shares| ==>
      t.shares[i].documentID != d || t.shares[i].sharedWith != input.recipient || t.shares[i].revokedBy.Some?
  {}

  /** Revoking a share takes effect at once: from then on an unrelated recipient can do nothing with the document, under
      whatever roles and whatever action. */
  lemma RevokedShareGivesNothing(t: Tables, u: User, d: nat, id: nat, v: User, a: Action, later: nat, filtered: bool)
    requires ActiveUnique(t.shares) && id < |t.shares| && t.shares[id].documentID == d && t.shares[id].revokedBy == None
    requires CanAccessDocument(t, u, d, "document:share", true).Allowed?
    requires (|u.roles| > 0 && u.roles[0] == "ADMIN") || (d in t.documents && (t.documents[d], u.id) in t.members)
    requires v.id == t.shares[id].sharedWith && !Related(t, v, d)
    ensures var after := DoCall(t, RevokeCall(u, d, id));
      && after == t.(shares := t.shares[id := t.shares[id].(revokedBy := Some(u.id))])
      && CanAccessDocument(after.(now := later), v, d, a, filtered).Denied?
  {
    var after := DoCall(t, RevokeCall(u, d, id)).(now := later);
    assert after.shares == t.shares[id := t.shares[id].(revokedBy := Some(u.id))];
    DocumentDecision(after, v, d, a, filtered);
    forall i | 0 <= i < |after.shares| ensures !Holds(after.shares[i], d, v.id, later) {
      assert i != id ==> after.shares[i] == t.shares[i];
    }
    hide CanAccessDocument;
  }

  /** The call at `k` created share `i` on the authority of an ADMIN or of a member, never of another share. */
  predicate CreatedBy(rolePermissions: map<string, seq<Action>>, calls: seq<Call>, k: nat, i: nat) {
    && k < |calls| && calls[k].CreateCall?
    && var before := RunCalls(rolePermissions, calls[..k]);
      && |before.shares| == i
      && i < |RunCalls(rolePermissions, calls).shares|
      && var s := RunCalls(rolePermissions, calls).shares[i];
        && s.createdBy == calls[k].user.id && s.documentID == calls[k].documentID
        && Related(before, calls[k].user, s.documentID) && MayWriteShare(before, calls[k].user, s.documentID)
  }

  /** Only the share's revocation can have changed. */
  predicate SameGrant(a: Share, b: Share) {
    a.(revokedBy := None) == b.(revokedBy := None) && (a.revokedBy.Some? ==> b == a)
  }

  lemma CallKeepsShares(t: Tables, c: Call)
    requires ActiveUnique(t.shares) && Referential(t)
    ensures var u := DoCall(t, c);
      && ActiveUnique(u.shares) && Referential(u) && |t.shares| <= |u.shares| <= |t.shares| + 1
      && (forall i :: 0 <= i < |t.shares| ==> SameGrant(t.shares[i], u.shares[i]))
      && (|u.shares| > |t.shares| ==> c.CreateCall? && CreateShare(t, c.user, c.documentID, c.input) == Ok(u.shares[|t.shares|]))
  {
    hide CanAccessDocument, MayWriteShare;
  }

  lemma {:induction false} RunKeepsShares(rolePermissions: map<string, seq<Action>>, calls: seq<Call>)
    ensures var t := RunCalls(rolePermissions, calls); ActiveUnique(t.shares) && Referential(t)
  {
    if |calls| > 0 {
      RunKeepsShares(rolePermissions, calls[..|calls| - 1]);
      CallKeepsShares(RunCalls(rolePermissions, calls[..|calls| - 1]), calls[|calls| - 1]);
    }
  }

  /** Whoever creates a share is an ADMIN, or an owner or member; row-level security further demands a member. */
  lemma CreatorIsRelated(t: Tables, u: User, d: nat, input: ShareInput)
    requires CreateShare(t, u, d, input).Ok? && Referential(t)
    ensures Related(t, u, d) && MayWriteShare(t, u, d)
  {}

  /** Delegation has depth one: over every run, every share was created by someone who at that moment was an ADMIN or
      stood in a case relationship, and who by row-level security was an ADMIN or an active member. */
  lemma {:induction false} DelegationDepthOne(rolePermissions: map<string, seq<Action>>, calls: seq<Call>, i: nat) returns (k: nat)
    requires i < |RunCalls(rolePermissions, calls).shares|
    ensures CreatedBy(rolePermissions, calls, k, i)
  {
    hide CreateShare, RevokeShare, Related, MayWriteShare, DoCall;
    var init := calls[..|calls| - 1];
    var t := RunCalls(rolePermissions, init);
    var c := calls[|calls| - 1];
    RunKeepsShares(rolePermissions, init);
    CallKeepsShares(t, c);
    if i < |t.shares| {
      k := DelegationDepthOne(rolePermissions, init, i);
      assert init[..k] == calls[..k] && init[k] == calls[k];
      assert SameGrant(t.shares[i], RunCalls(rolePermissions, calls).shares[i]);
    } else {
      k := |calls| - 1;
      CreatorIsRelated(t, c.user, c.documentID, c.input);
      CreatedFields(t, c.user, c.documentID, c.input);
    }
  }

  lemma CreatedFields(t: Tables, u: User, d: nat, input: ShareInput)
    requires CreateShare(t, u, d, input).Ok?
    ensures CreateShare(t, u, d, input).value.createdBy == u.id && CreateShare(t, u, d, input).value.documentID == d
  {}

  /** An owner who is not a member and not an ADMIN can never create a share. */
  lemma OwnerAloneCannotShare(t: Tables, u: User, d: nat, input: ShareInput)
    requires SortedRoles(u.roles) && !IsAdmin(u) && d in t.documents && !Member(t, u.id, t.documents[d])
    ensures CreateShare(t, u, d, input).Err?
  {
    SortedAdmin(u);
  }

  /** A share that has expired but was not revoked gives no access, yet still blocks a new one for its recipient. */
  lemma ExpiredShareBlocks(t: Tables, u: User, d: nat, input: ShareInput, i: nat)
    requires i < |t.shares| && t.shares[i].documentID == d && t.shares[i].sharedWith == input.recipient
    requires t.shares[i].revokedBy.None? && t.shares[i].expiresAt.Some? && t.shares[i].expiresAt.value <= t.now
    requires ActiveUnique(t.shares)
    ensures CreateShare(t, u, d, input).Err? && !HasShare(t, d, input.recipient)
  {
    hide CanAccessDocument;
    forall j | 0 <= j < |t.shares| ensures !SharedWith(t, d, input.recipient, j) {
      assert j != i ==> (t.shares[j].revokedBy.None? ==> t.shares[j].documentID != d || t.shares[j].sharedWith != input.recipient);
    }
  }

  /** The two layers do come apart: a creator who was removed from the case again keeps owning it. */
  lemma RemovedCreatorIsHidden(u: User, a: Action)
    requires u.roles == ["POLICE"]
    ensures var permissions := map["POLICE" := [a]];
      HiddenFromOwner(RunCalls(permissions, [OpenCase(0, u.id), AddDocument(0, 0), RemoveMember(0, u.id)]), u, 0, a)
  {
    var permissions := map["POLICE" := [a]];
    var calls := [OpenCase(0, u.id), AddDocument(0, 0), RemoveMember(0, u.id)];
    assert calls[..2] == [OpenCase(0, u.id), AddDocument(0, 0)] && calls[..2][..1] == [OpenCase(0, u.id)] && calls[..2][..1][..0] == [];
    var started := Tables(permissions, map[0 := u.id], {(0, u.id)}, map[], [], {}, 0);
    assert RunCalls(permissions, calls[..2][..1][..0]) == Tables(permissions, map[], {}, map[], [], {}, 0);
    assert RunCalls(permissions, calls[..2][..1]) == started;
    assert RunCalls(permissions, calls[..2]) == started.(documents := map[0 := 0]);
    assert RunCalls(permissions, calls) == started.(documents := map[0 := 0], members := {});
    assert "POLICE" in u.roles && "POLICE"[0] != ADMIN[0];
  }
}
