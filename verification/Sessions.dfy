/** Refresh-token families: rotation and reuse detection, split over several transactions.
    A session's place in creation order stands for its UUID and for its (unguessable, unique) token. */
module Sessions {
  import opened Outcomes

  type SessionId = nat

  datatype Session = Session(user: nat, family: nat, expiresAt: nat, revokedAt: Option<nat>, replacedBy: Option<SessionId>)

  type Rows = seq<Session>

  predicate Live(s: Session) {
    s.revokedAt.None?
  }

  // ---- the statements on auth_sessions ----

  function Insert(rows: Rows, user: nat, family: nat, expiresAt: nat): Rows {
    rows + [Session(user, family, expiresAt, None, None)]
  }

  /** Guarded by revoked_at IS NULL, as are the three below. */
  function RevokeOne(rows: Rows, id: SessionId, now: nat): Rows {
    if id < |rows| && Live(rows[id]) then rows[id := rows[id].(revokedAt := Some(now))] else rows
  }

  function RevokeAndReplace(rows: Rows, id: SessionId, replacement: SessionId, now: nat): Rows {
    if id < |rows| && Live(rows[id]) then rows[id := rows[id].(revokedAt := Some(now), replacedBy := Some(replacement))] else rows
  }

  function Revoked(s: Session, now: nat): Session {
    if Live(s) then s.(revokedAt := Some(now)) else s
  }

  function RevokeFamily(rows: Rows, family: nat, now: nat): (r: Rows)
    ensures |r| == |rows|
    ensures forall i :: 0 <= i < |r| ==> r[i] == if rows[i].family == family then Revoked(rows[i], now) else rows[i]
  {
    seq(|rows|, i requires 0 <= i < |rows| => if rows[i].family == family then Revoked(rows[i], now) else rows[i])
  }

  function RevokeUser(rows: Rows, user: nat, now: nat): (r: Rows)
    ensures |r| == |rows|
    ensures forall i :: 0 <= i < |r| ==> r[i] == if rows[i].user == user then Revoked(rows[i], now) else rows[i]
  {
    seq(|rows|, i requires 0 <= i < |rows| => if rows[i].user == user then Revoked(rows[i], now) else rows[i])
  }

  // ---- calls that are not interleaved ----

  datatype RefreshError = UnknownToken | ReuseDetected | Expired | InactiveAccount

  /** Refresh as one undisturbed call. `active` is the account's status. */
  function Refreshed(rows: Rows, token: SessionId, active: bool, now: nat, ttl: nat): Rows {
    match RefreshResult(rows, token, active, now)
    case Err(ReuseDetected) => RevokeFamily(rows, rows[token].family, now)
    case Err(_) => rows
    case Ok(_) => RevokeAndReplace(Insert(rows, rows[token].user, rows[token].family, now + ttl), token, |rows|, now)
  }

  function RefreshResult(rows: Rows, token: SessionId, active: bool, now: nat): (r: Result<SessionId, RefreshError>)
    ensures token < |rows| || r == Err(UnknownToken)
  {
    if token >= |rows| then Err(UnknownToken)
    else if !Live(rows[token]) then Err(ReuseDetected)
    else if now > rows[token].expiresAt then Err(Expired)
    else if !active then Err(InactiveAccount)
    else Ok(|rows|)
  }

  function LoggedOut(rows: Rows, token: SessionId, user: nat, now: nat): Rows {
    if token < |rows| && rows[token].user == user then RevokeOne(rows, token, now) else rows
  }

  /** The auth service over its table. */
  class AuthService {
    var rows: Rows
    var nextFamily: nat
    const ttl: nat

    /** Families are numbered in the order of the logins. */
    predicate Valid()
      reads this
    {
      FamiliesBelow(rows, nextFamily)
    }

    constructor (ttl: nat)
      ensures Valid() && rows == [] && nextFamily == 0 && this.ttl == ttl
    {
      rows, nextFamily := [], 0;
      this.ttl := ttl;
    }

    method IssueSession(user: nat, family: nat, now: nat) returns (id: SessionId)
      modifies this`rows
      ensures rows == old(rows) + [Session(user, family, now + ttl, None, None)] && id == |old(rows)|
    {
      id := |rows|;
      rows := rows + [Session(user, family, now + ttl, None, None)];
    }

    method Login(user: nat, now: nat) returns (id: SessionId)
      requires Valid()
      modifies this
      ensures Valid() && rows == old(rows) + [Session(user, old(nextFamily), now + ttl, None, None)] && nextFamily == old(nextFamily) + 1
      ensures id == |old(rows)| && forall i :: 0 <= i < |rows| && i != id ==> rows[i].family != rows[id].family
    {
      id := IssueSession(user, nextFamily, now);
      nextFamily := nextFamily + 1;
    }

    method RevokeSessionFamily(family: nat, now: nat)
      requires Valid()
      modifies this`rows
      ensures Valid() && rows == RevokeFamily(old(rows), family, now)
      ensures |rows| == |old(rows)| && forall i :: 0 <= i < |rows| ==>
        rows[i] == if old(rows)[i].family == family && old(rows)[i].revokedAt.None? then old(rows)[i].(revokedAt := Some(now)) else old(rows)[i]
    {
      for i := 0 to |rows|
        invariant |rows| == |old(rows)|
        invariant forall j :: 0 <= j < i ==> rows[j] == RevokeFamily(old(rows), family, now)[j]
        invariant forall j :: i <= j < |rows| ==> rows[j] == old(rows)[j]
      {
        if rows[i].family == family && rows[i].revokedAt.None? {
          rows := rows[i := rows[i].(revokedAt := Some(now))];
        }
      }
    }

    method Refresh(token: SessionId, active: bool, now: nat) returns (result: Result<SessionId, RefreshError>)
      requires Valid()
      modifies this`rows
      ensures Valid() && result == RefreshResult(old(rows), token, active, now) && rows == Refreshed(old(rows), token, active, now, ttl)
      ensures result == Err(UnknownToken) <==> token >= |old(rows)|
      ensures token < |old(rows)| ==> var session := old(rows)[token];
        && (result == Err(ReuseDetected) <==> session.revokedAt.Some?)
        && (result == Err(Expired) <==> session.revokedAt.None? && now > session.expiresAt)
        && (result == Err(InactiveAccount) <==> session.revokedAt.None? && now <= session.expiresAt && !active)
        && (result.Ok? <==> session.revokedAt.None? && now <= session.expiresAt && active)
      ensures result.Ok? ==> var session := old(rows)[token];
        && result.value == |old(rows)|
        && rows == old(rows)[token := session.(revokedAt := Some(now), replacedBy := Some(result.value))]
                   + [Session(session.user, session.family, now + ttl, None, None)]
      ensures result.Err? && result.error != ReuseDetected ==> rows == old(rows)
      ensures result == Err(ReuseDetected) ==> |rows| == |old(rows)| && forall i :: 0 <= i < |rows| ==>
        if old(rows)[i].family == old(rows)[token].family then rows[i].revokedAt.Some? && rows[i].replacedBy == old(rows)[i].replacedBy
        else rows[i] == old(rows)[i]
    {
      if token >= |rows| {
        return Err(UnknownToken);
      }
      var session := rows[token];
      if session.revokedAt.Some? {
        RevokeSessionFamily(session.family, now);
        return Err(ReuseDetected);
      }
      if now > session.expiresAt {
        return Err(Expired);
      }
      if !active {
        return Err(InactiveAccount);
      }
      var fresh_ := IssueSession(session.user, session.family, now);
      if rows[token].revokedAt.None? {
        rows := rows[token := rows[token].(revokedAt := Some(now), replacedBy := Some(fresh_))];
      }
      result := Ok(fresh_);
    }

    method Logout(token: SessionId, currentUser: nat, now: nat)
      requires Valid()
      modifies this`rows
      ensures Valid() && rows == LoggedOut(old(rows), token, currentUser, now)
      ensures rows == if token < |old(rows)| && old(rows)[token].user == currentUser && old(rows)[token].revokedAt.None?
                      then old(rows)[token := old(rows)[token].(revokedAt := Some(now))] else old(rows)
    {
      if token >= |rows| || rows[token].user != currentUser {
        return;
      }
      if rows[token].revokedAt.None? {
        rows := rows[token := rows[token].(revokedAt := Some(now))];
      }
    }
  }

  datatype Call =
    | Login(user: nat)
    | Refresh(token: SessionId, active: bool)
    | Logout(token: SessionId, user: nat)
    | RevokeAllForUser(user: nat)
    | Wait(time: nat)

  datatype Serial = Serial(rows: Rows, nextFamily: nat, now: nat)

  function DoCall(s: Serial, c: Call, ttl: nat): Serial {
    match c
    case Login(user) => s.(rows := Insert(s.rows, user, s.nextFamily, s.now + ttl), nextFamily := s.nextFamily + 1)
    case Refresh(token, active) => s.(rows := Refreshed(s.rows, token, active, s.now, ttl))
    case Logout(token, user) => s.(rows := LoggedOut(s.rows, token, user, s.now))
    case RevokeAllForUser(user) => s.(rows := RevokeUser(s.rows, user, s.now))
    case Wait(time) => s.(now := s.now + time)
  }

  function RunSerial(calls: seq<Call>, ttl: nat): Serial {
    if |calls| == 0 then Serial([], 0, 0) else DoCall(RunSerial(calls[..|calls| - 1], ttl), calls[|calls| - 1], ttl)
  }

  // ---- what single calls do to a run ----

  /** After any run without interleaving, one more refresh issues a session if and only if the token is known, not revoked,
      not expired, and the account active. It then adds exactly the replacement, live until its own expiry, and revokes
      the presented session; otherwise it adds nothing and brings no session to life. */
  lemma RefreshIssuesIff(calls: seq<Call>, token: SessionId, active: bool, ttl: nat)
    ensures var s, t := RunSerial(calls, ttl), RunSerial(calls + [Refresh(token, active)], ttl);
      var fresh_ := token < |s.rows| && s.rows[token].revokedAt.None? && s.now <= s.rows[token].expiresAt && active;
      && |t.rows| == (if fresh_ then |s.rows| + 1 else |s.rows|)
      && (fresh_ ==> t.rows[|s.rows|] == Session(s.rows[token].user, s.rows[token].family, s.now + ttl, None, None))
      && (fresh_ ==> t.rows[token] == s.rows[token].(revokedAt := Some(s.now), replacedBy := Some(|s.rows|)))
      && (forall i :: 0 <= i < |s.rows| && t.rows[i].revokedAt.None? ==> t.rows[i] == s.rows[i])
      && t.now == s.now && t.nextFamily == s.nextFamily
  {
    OneMoreCall(calls, Refresh(token, active), ttl);
  }

  lemma OneMoreCall(calls: seq<Call>, c: Call, ttl: nat)
    ensures RunSerial(calls + [c], ttl) == DoCall(RunSerial(calls, ttl), c, ttl)
  {
    assert (calls + [c])[..|calls|] == calls;
  }

  /** Revoking all sessions of a user leaves none of them live and touches no other user's; logging out touches at most
      the presented session, and only for its owner. */
  lemma RevocationsReach(calls: seq<Call>, user: nat, token: SessionId, ttl: nat)
    ensures var s, t := RunSerial(calls, ttl), RunSerial(calls + [RevokeAllForUser(user)], ttl);
      |t.rows| == |s.rows| && forall i :: 0 <= i < |s.rows| ==>
        t.rows[i] == if s.rows[i].user == user && s.rows[i].revokedAt.None? then s.rows[i].(revokedAt := Some(s.now)) else s.rows[i]
    ensures var s, t := RunSerial(calls, ttl), RunSerial(calls + [Logout(token, user)], ttl);
      |t.rows| == |s.rows| && forall i :: 0 <= i < |s.rows| ==>
        t.rows[i] == if i == token && s.rows[i].user == user && s.rows[i].revokedAt.None? then s.rows[i].(revokedAt := Some(s.now)) else s.rows[i]
  {
    OneMoreCall(calls, RevokeAllForUser(user), ttl);
    OneMoreCall(calls, Logout(token, user), ttl);
  }

  // ---- serial runs: each family is one path ----

  /** Every session but a family's last is revoked and names the next one. */
  predicate Chained(rows: Rows) {
    && (forall i, j :: 0 <= i < j < |rows| && rows[i].family == rows[j].family ==>
          !Live(rows[i]) && rows[i].replacedBy.Some? && rows[i].replacedBy.value <= j)
    && (forall i :: 0 <= i < |rows| && rows[i].replacedBy.Some? ==>
          i < rows[i].replacedBy.value < |rows| && rows[rows[i].replacedBy.value].family == rows[i].family)
  }

  predicate FamiliesBelow(rows: Rows, n: nat) {
    forall i :: 0 <= i < |rows| ==> rows[i].family < n
  }

  /** Revoking some sessions, without touching anything else, keeps the chains. */
  lemma RevokingKeepsChains(rows: Rows, r: Rows, now: nat)
    requires Chained(rows) && |r| == |rows|
    requires forall i :: 0 <= i < |rows| ==> r[i] == rows[i] || r[i] == Revoked(rows[i], now)
    ensures Chained(r)
  {}

  lemma RotatingKeepsChains(rows: Rows, token: SessionId, now: nat, ttl: nat)
    requires Chained(rows) && token < |rows| && Live(rows[token])
    ensures Chained(RevokeAndReplace(Insert(rows, rows[token].user, rows[token].family, now + ttl), token, |rows|, now))
  {}

  lemma NewFamilyKeepsChains(rows: Rows, n: nat, user: nat, expiresAt: nat)
    requires Chained(rows) && FamiliesBelow(rows, n)
    ensures Chained(Insert(rows, user, n, expiresAt)) && FamiliesBelow(Insert(rows, user, n, expiresAt), n + 1)
  {}

  lemma CallKeepsFamilies(s: Serial, c: Call, ttl: nat)
    requires FamiliesBelow(s.rows, s.nextFamily)
    ensures FamiliesBelow(DoCall(s, c, ttl).rows, DoCall(s, c, ttl).nextFamily)
  {}

  lemma RefreshKeepsChains(rows: Rows, token: SessionId, active: bool, now: nat, ttl: nat)
    requires Chained(rows)
    ensures Chained(Refreshed(rows, token, active, now, ttl))
  {
    if RefreshResult(rows, token, active, now).Ok? {
      RotatingKeepsChains(rows, token, now, ttl);
    } else {
      hide Chained;
      RevokingKeepsChains(rows, Refreshed(rows, token, active, now, ttl), now);
    }
  }

  lemma CallKeepsChains(s: Serial, c: Call, ttl: nat)
    requires Chained(s.rows) && FamiliesBelow(s.rows, s.nextFamily)
    ensures Chained(DoCall(s, c, ttl).rows) && FamiliesBelow(DoCall(s, c, ttl).rows, DoCall(s, c, ttl).nextFamily)
  {
    CallKeepsFamilies(s, c, ttl);
    hide Chained, FamiliesBelow, Refreshed;
    match c
    case Refresh(token, active) => RefreshKeepsChains(s.rows, token, active, s.now, ttl);
    case Login(user) => NewFamilyKeepsChains(s.rows, s.nextFamily, user, s.now + ttl);
    case Wait(_) =>
    case _ => RevokingKeepsChains(s.rows, DoCall(s, c, ttl).rows, s.now);
  }

  lemma {:induction false} RunKeepsChains(calls: seq<Call>, ttl: nat)
    ensures Chained(RunSerial(calls, ttl).rows) && FamiliesBelow(RunSerial(calls, ttl).rows, RunSerial(calls, ttl).nextFamily)
  {
    hide DoCall;
    if |calls| > 0 {
      RunKeepsChains(calls[..|calls| - 1], ttl);
      CallKeepsChains(RunSerial(calls[..|calls| - 1], ttl), calls[|calls| - 1], ttl);
    }
  }

  predicate SameFamily(rows: Rows, i: nat, j: nat) {
    i < |rows| && j < |rows| && rows[i].family == rows[j].family
  }

  /** `j` is the session issued next after `i` in its family. */
  predicate Next(rows: Rows, i: nat, j: nat) {
    i < j && SameFamily(rows, i, j) && forall k :: i < k < j ==> !SameFamily(rows, i, k)
  }

  /** Without interleaving, each family has at most one live session, its last, and replaced_by links each session to
      the next one of its family and to nothing else: one acyclic path. */
  lemma FamiliesArePaths(calls: seq<Call>, ttl: nat)
    ensures var rows := RunSerial(calls, ttl).rows;
      && (forall i: nat, j: nat :: SameFamily(rows, i, j) && Live(rows[i]) && Live(rows[j]) ==> i == j)
      && (forall i: nat, j: nat :: Next(rows, i, j) ==> rows[i].replacedBy == Some(j))
      && (forall i: nat, j: nat :: i < |rows| && rows[i].replacedBy == Some(j) ==> Next(rows, i, j))
  {
    hide RunSerial;
    RunKeepsChains(calls, ttl);
    var rows := RunSerial(calls, ttl).rows;
    forall i: nat, j: nat | Next(rows, i, j) ensures rows[i].replacedBy == Some(j) {
      var k := rows[i].replacedBy.value;
      assert SameFamily(rows, i, k);
    }
  }

  // ---- interleaved calls ----

  /** A call in progress, after the transactions it has committed so far. */
  datatype Progress =
    | Looked(id: SessionId)
    | Reused(family: nat)
    | Issued(id: SessionId, replacement: SessionId)
    | LoggingOut(id: SessionId)
    | Finished

  datatype System = System(rows: Rows, nextFamily: nat, now: nat, calls: map<nat, Progress>)

  datatype Action =
    | Tick(time: nat)
    | LoginStep(user: nat, ttl: nat)
    | Look(c: nat, token: SessionId)
    | Issue(c: nat, ttl: nat)
    | Rotate(c: nat)
    | RevokeReused(c: nat)
    | LookForLogout(c: nat, token: SessionId, user: nat)
    | FinishLogout(c: nat)
    | RevokeAll(user: nat)
    | Abort(c: nat)

  /** What the first transaction of Refresh finds. */
  function Found(s: System, token: SessionId): Progress {
    if token >= |s.rows| then Finished
    else if !Live(s.rows[token]) then Reused(s.rows[token].family)
    else if s.now > s.rows[token].expiresAt then Finished
    else Looked(token)
  }

  function Step(s: System, a: Action): System {
    match a
    case Tick(time) => s.(now := s.now + time)
    case LoginStep(user, ttl) => s.(rows := Insert(s.rows, user, s.nextFamily, s.now + ttl), nextFamily := s.nextFamily + 1)
    case Look(c, token) => if c in s.calls then s else s.(calls := s.calls[c := Found(s, token)])
    case Issue(c, ttl) =>
      if c in s.calls && s.calls[c].Looked? && s.calls[c].id < |s.rows| then
        var session := s.rows[s.calls[c].id];
        s.(rows := Insert(s.rows, session.user, session.family, s.now + ttl), calls := s.calls[c := Issued(s.calls[c].id, |s.rows|)])
      else s
    case Rotate(c) =>
      if c in s.calls && s.calls[c].Issued? then
        s.(rows := RevokeAndReplace(s.rows, s.calls[c].id, s.calls[c].replacement, s.now), calls := s.calls[c := Finished])
      else s
    case RevokeReused(c) =>
      if c in s.calls && s.calls[c].Reused? then
        s.(rows := RevokeFamily(s.rows, s.calls[c].family, s.now), calls := s.calls[c := Finished])
      else s
    case LookForLogout(c, token, user) =>
      if c in s.calls then s
      else s.(calls := s.calls[c := if token < |s.rows| && s.rows[token].user == user then LoggingOut(token) else Finished])
    case FinishLogout(c) =>
      if c in s.calls && s.calls[c].LoggingOut? then s.(rows := RevokeOne(s.rows, s.calls[c].id, s.now), calls := s.calls[c := Finished])
      else s
    case RevokeAll(user) => s.(rows := RevokeUser(s.rows, user, s.now))
    case Abort(c) => if c in s.calls then s.(calls := s.calls[c := Finished]) else s
  }

  function Initial(): System {
    System([], 0, 0, map[])
  }

  function RunFrom(s: System, actions: seq<Action>): System {
    if |actions| == 0 then s else Step(RunFrom(s, actions[..|actions| - 1]), actions[|actions| - 1])
  }

  predicate GoodCall(rows: Rows, p: Progress) {
    && (p.Looked? ==> p.id < |rows|)
    && (p.Issued? ==> p.id < p.replacement && SameFamily(rows, p.id, p.replacement))
  }

  /** Links always lead forward within the family, from a revoked session. */
  predicate LinksForward(rows: Rows) {
    forall i :: 0 <= i < |rows| && rows[i].replacedBy.Some? ==>
      !Live(rows[i]) && i < rows[i].replacedBy.value && SameFamily(rows, i, rows[i].replacedBy.value)
  }

  predicate Inv(s: System) {
    && FamiliesBelow(s.rows, s.nextFamily)
    && LinksForward(s.rows)
    && (forall c :: c in s.calls ==> GoodCall(s.rows, s.calls[c]))
  }

  /** Sessions are only added, and a revocation is final. */
  predicate Extends(r: Rows, t: Rows) {
    |r| <= |t| && forall i :: 0 <= i < |r| ==>
      t[i].user == r[i].user && t[i].family == r[i].family && t[i].expiresAt == r[i].expiresAt && (!Live(r[i]) ==> t[i] == r[i])
  }

  lemma StepExtends(s: System, a: Action)
    requires Inv(s)
    ensures var t := Step(s, a); Extends(s.rows, t.rows) && FamiliesBelow(t.rows, t.nextFamily)
  {}

  lemma StepLinksForward(s: System, a: Action)
    requires Inv(s)
    ensures LinksForward(Step(s, a).rows)
  {
    if a.Rotate? && a.c in s.calls {
      assert GoodCall(s.rows, s.calls[a.c]);
    }
  }

  lemma StepKeepsInv(s: System, a: Action)
    requires Inv(s)
    ensures Inv(Step(s, a)) && Extends(s.rows, Step(s, a).rows)
  {
    StepExtends(s, a);
    StepLinksForward(s, a);
    hide FamiliesBelow, LinksForward;
    var t := Step(s, a);
    forall c | c in t.calls ensures GoodCall(t.rows, t.calls[c]) {
      assert c in s.calls ==> GoodCall(s.rows, s.calls[c]);
    }
  }

  lemma {:induction false} RunKeepsInv(s: System, actions: seq<Action>)
    requires Inv(s)
    ensures Inv(RunFrom(s, actions)) && Extends(s.rows, RunFrom(s, actions).rows)
  {
    hide Step, Inv;
    if |actions| > 0 {
      RunKeepsInv(s, actions[..|actions| - 1]);
      StepKeepsInv(RunFrom(s, actions[..|actions| - 1]), actions[|actions| - 1]);
    }
  }

  /** Under every interleaving: sessions are never lost, a revoked session never changes again, and replaced_by links
      lead from revoked sessions to later ones of the same family, so they form no cycle. */
  lemma RevocationIsFinal(before: seq<Action>, actions: seq<Action>)
    ensures var s := RunFrom(Initial(), before);
      Extends(s.rows, RunFrom(s, actions).rows) && LinksForward(s.rows)
  {
    hide RunFrom;
    RunKeepsInv(Initial(), before);
    RunKeepsInv(RunFrom(Initial(), before), actions);
  }

  // ---- dead families ----

  predicate Dead(s: System, family: nat) {
    family < s.nextFamily && forall i :: 0 <= i < |s.rows| && s.rows[i].family == family ==> !Live(s.rows[i])
  }

  /** A refresh is past its lookup of a session of this family and has not issued the replacement. */
  predicate RefreshInFlight(s: System, family: nat) {
    exists c :: c in s.calls && s.calls[c].Looked? && s.calls[c].id < |s.rows| && s.rows[s.calls[c].id].family == family
  }

  lemma DeadStep(s: System, a: Action, family: nat)
    requires Inv(s) && Dead(s, family) && !RefreshInFlight(s, family)
    ensures Dead(Step(s, a), family) && !RefreshInFlight(Step(s, a), family)
  {
    var t := Step(s, a);
    assert forall c :: c in s.calls && s.calls[c].Looked? && s.calls[c].id < |s.rows| ==> s.rows[s.calls[c].id].family != family;
    forall c | c in t.calls && t.calls[c].Looked? && t.calls[c].id < |t.rows| ensures t.rows[t.calls[c].id].family != family {
      assert c in s.calls ==> GoodCall(s.rows, s.calls[c]);
    }
  }

  lemma {:induction false} DeadForever(s: System, actions: seq<Action>, family: nat)
    requires Inv(s) && Dead(s, family) && !RefreshInFlight(s, family)
    ensures Dead(RunFrom(s, actions), family) && !RefreshInFlight(RunFrom(s, actions), family)
  {
    hide Step, Inv, Dead, RefreshInFlight;
    if |actions| > 0 {
      DeadForever(s, actions[..|actions| - 1], family);
      RunKeepsInv(s, actions[..|actions| - 1]);
      DeadStep(RunFrom(s, actions[..|actions| - 1]), actions[|actions| - 1], family);
    }
  }

  lemma InFlightRevives(s: System, family: nat)
    requires Inv(s) && RefreshInFlight(s, family)
    ensures exists actions :: !Dead(RunFrom(s, actions), family)
  {
    var c :| c in s.calls && s.calls[c].Looked? && s.calls[c].id < |s.rows| && s.rows[s.calls[c].id].family == family;
    var t := Step(s, Issue(c, 0));
    assert t.rows[|s.rows|].family == family && Live(t.rows[|s.rows|]);
    assert [Issue(c, 0)][..0] == [];
    assert RunFrom(s, [Issue(c, 0)]) == t;
  }

  /** A family stays without live sessions for ever exactly when it has none now and no refresh of it is past its
      lookup: what reuse detection revokes can only be undone by a refresh that was already in flight. */
  lemma DeadForeverIff(before: seq<Action>, family: nat)
    ensures var s := RunFrom(Initial(), before);
      (forall actions :: Dead(RunFrom(s, actions), family)) <==> Dead(s, family) && !RefreshInFlight(s, family)
  {
    hide Dead, RefreshInFlight;
    var s := RunFrom(Initial(), before);
    RunKeepsInv(Initial(), before);
    hide RunFrom;
    if RefreshInFlight(s, family) {
      InFlightRevives(s, family);
    } else if Dead(s, family) {
      forall actions ensures Dead(RunFrom(s, actions), family) {
        DeadForever(s, actions, family);
      }
    } else {
      NotDeadNow(s, family);
    }
  }

  lemma NotDeadNow(s: System, family: nat)
    requires !Dead(s, family)
    ensures exists actions :: !Dead(RunFrom(s, actions), family)
  {
    assert RunFrom(s, []) == s;
  }

  /** Revoking a reused family leaves it without live sessions. */
  lemma ReuseKillsFamily(before: seq<Action>, c: nat)
    ensures var s := RunFrom(Initial(), before);
      c in s.calls && s.calls[c].Reused? && s.calls[c].family < s.nextFamily ==> Dead(Step(s, RevokeReused(c)), s.calls[c].family)
  {
    hide RunFrom;
  }

  // ---- two refreshes of one token ----

  ghost predicate Reachable(s: System) {
    exists actions :: RunFrom(Initial(), actions) == s
  }

  lemma ReachStep(s: System, a: Action)
    requires Reachable(s)
    ensures Reachable(Step(s, a))
  {
    hide Step;
    var actions :| RunFrom(Initial(), actions) == s;
    assert (actions + [a])[..|actions|] == actions;
    assert RunFrom(Initial(), actions + [a]) == Step(s, a);
  }

  /** Interleaved, two refreshes of one token both succeed and leave the family with two live sessions for good. */
  lemma TwoLiveSessions() returns (s: System)
    ensures Reachable(s) && s.calls == map[0 := Finished, 1 := Finished]
    ensures SameFamily(s.rows, 1, 2) && Live(s.rows[1]) && Live(s.rows[2])
  {
    s := Initial();
    assert RunFrom(s, []) == s;
    ReachStep(s, LoginStep(7, 9));
    s := Step(s, LoginStep(7, 9));
    ReachStep(s, Look(0, 0));
    s := Step(s, Look(0, 0));
    ReachStep(s, Look(1, 0));
    s := Step(s, Look(1, 0));
    assert s.calls == map[0 := Looked(0), 1 := Looked(0)];
    ReachStep(s, Issue(0, 9));
    s := Step(s, Issue(0, 9));
    ReachStep(s, Issue(1, 9));
    s := Step(s, Issue(1, 9));
    assert |s.rows| == 3 && s.calls == map[0 := Issued(0, 1), 1 := Issued(0, 2)];
    ReachStep(s, Rotate(0));
    s := Step(s, Rotate(0));
    ReachStep(s, Rotate(1));
    s := Step(s, Rotate(1));
  }
}
