/** When interleaved calls can leave a refresh-token family with two live sessions, and when they cannot. */
module SessionRaces {
  import opened Outcomes
  import opened Sessions

  // ---- reaching states ----

  ghost predicate Leads(s: System, t: System) {
    exists actions :: RunFrom(s, actions) == t
  }

  lemma LeadsToItself(s: System)
    ensures Leads(s, s)
  {
    assert RunFrom(s, []) == s;
  }

  lemma LeadsOn(s: System, t: System, a: Action)
    requires Leads(s, t)
    ensures Leads(s, Step(t, a))
  {
    hide Step;
    var actions :| RunFrom(s, actions) == t;
    assert (actions + [a])[..|actions|] == actions;
    assert RunFrom(s, actions + [a]) == Step(t, a);
  }

  /** Some call number is not in use. */
  lemma {:induction false} FreshCall(used: set<nat>) returns (c: nat)
    ensures forall d :: d in used ==> d < c
  {
    if used == {} {
      c := 0;
    } else {
      var d :| d in used;
      var e := FreshCall(used - {d});
      c := if d < e then e else d + 1;
      assert forall x :: x in used ==> x == d || x in used - {d};
    }
  }

  // ---- which tokens can still be refreshed ----

  /** What the first transaction of Refresh lets through. */
  predicate Refreshable(s: System, token: SessionId) {
    token < |s.rows| && Live(s.rows[token]) && s.now <= s.rows[token].expiresAt
  }

  predicate BeingRefreshed(s: System, token: SessionId) {
    exists c :: c in s.calls && s.calls[c] == Looked(token)
  }

  predicate Spent(s: System, token: SessionId) {
    token < |s.rows| && !Refreshable(s, token) && !BeingRefreshed(s, token)
  }

  lemma SpentStep(s: System, a: Action, token: SessionId)
    requires Spent(s, token)
    ensures Spent(Step(s, a), token)
  {
    var t := Step(s, a);
    forall c | c in t.calls ensures t.calls[c] != Looked(token) {
      assert c in s.calls ==> s.calls[c] != Looked(token);
    }
  }

  lemma {:induction false} SpentForever(s: System, actions: seq<Action>, token: SessionId)
    requires Spent(s, token)
    ensures Spent(RunFrom(s, actions), token)
  {
    hide Step, Spent;
    if |actions| > 0 {
      SpentForever(s, actions[..|actions| - 1], token);
      SpentStep(RunFrom(s, actions[..|actions| - 1]), actions[|actions| - 1], token);
    }
  }

  /** No future refresh gets past its lookup of a token if and only if the token is revoked or expired and no refresh
      of it is past its lookup now. */
  lemma NeverRefreshedIff(s: System, token: SessionId)
    requires token < |s.rows|
    ensures (forall t :: Leads(s, t) ==> !BeingRefreshed(t, token)) <==> !Refreshable(s, token) && !BeingRefreshed(s, token)
  {
    LeadsToItself(s);
    if Refreshable(s, token) {
      var c := FreshCall(s.calls.Keys);
      LeadsOn(s, s, Look(c, token));
      assert Step(s, Look(c, token)).calls[c] == Looked(token);
    } else if !BeingRefreshed(s, token) {
      forall t | Leads(s, t) ensures !BeingRefreshed(t, token) {
        var actions :| RunFrom(s, actions) == t;
        SpentForever(s, actions, token);
      }
    }
  }

  // ---- when a second live session can appear ----

  ghost predicate TwoLive(s: System, family: nat) {
    exists i: nat, j: nat :: i < j && SameFamily(s.rows, i, j) && s.rows[i].family == family && Live(s.rows[i]) && Live(s.rows[j])
  }

  predicate SomeRefreshable(s: System, family: nat) {
    exists i :: 0 <= i < |s.rows| && s.rows[i].family == family && Refreshable(s, i)
  }

  /** No session of the family can be issued any more. */
  predicate Closed(s: System, family: nat) {
    family < s.nextFamily && !RefreshInFlight(s, family) && !SomeRefreshable(s, family)
  }

  lemma ClosedStep(s: System, a: Action, family: nat)
    requires Inv(s) && Closed(s, family) && !TwoLive(s, family)
    ensures Closed(Step(s, a), family) && !TwoLive(Step(s, a), family)
  {
    var t := Step(s, a);
    ClosedAddsNothing(s, a, family);
    forall c | c in t.calls && t.calls[c].Looked? && t.calls[c].id < |t.rows| ensures t.rows[t.calls[c].id].family != family {
      NothingLooked(s, a, family, c);
    }
    forall i | 0 <= i < |t.rows| && t.rows[i].family == family ensures !Refreshable(t, i) {
      assert !Refreshable(s, i);
    }
    forall i: nat, j: nat | i < j && SameFamily(t.rows, i, j) && t.rows[i].family == family
      ensures !(Live(t.rows[i]) && Live(t.rows[j]))
    {
      assert SameFamily(s.rows, i, j);
    }
  }

  /** Sessions of a closed family are neither added nor revived. */
  lemma ClosedAddsNothing(s: System, a: Action, family: nat)
    requires Inv(s) && Closed(s, family)
    ensures var t := Step(s, a);
      && |s.rows| <= |t.rows| && family < t.nextFamily && s.now <= t.now
      && forall i :: 0 <= i < |t.rows| && t.rows[i].family == family ==>
           i < |s.rows| && s.rows[i].family == family && t.rows[i].expiresAt == s.rows[i].expiresAt && (Live(t.rows[i]) ==> Live(s.rows[i]))
  {
    hide SomeRefreshable, LinksForward;
    assert forall c :: c in s.calls && s.calls[c].Looked? && s.calls[c].id < |s.rows| ==> s.rows[s.calls[c].id].family != family;
  }

  lemma NothingLooked(s: System, a: Action, family: nat, c: nat)
    requires Inv(s) && Closed(s, family) && c in Step(s, a).calls && Step(s, a).calls[c].Looked?
    ensures var t := Step(s, a); t.calls[c].id < |t.rows| && t.rows[t.calls[c].id].family != family
  {
    hide LinksForward, FamiliesBelow;
    if c in s.calls && s.calls[c] == Step(s, a).calls[c] {
      assert GoodCall(s.rows, s.calls[c]);
    } else {
      assert a.Look? && a.c == c && Refreshable(s, a.token);
    }
  }

  lemma {:induction false} ClosedForever(s: System, actions: seq<Action>, family: nat)
    requires Inv(s) && Closed(s, family) && !TwoLive(s, family)
    ensures Closed(RunFrom(s, actions), family) && !TwoLive(RunFrom(s, actions), family)
  {
    hide Step, Closed, TwoLive, Inv;
    if |actions| > 0 {
      ClosedForever(s, actions[..|actions| - 1], family);
      RunKeepsInv(s, actions[..|actions| - 1]);
      ClosedStep(RunFrom(s, actions[..|actions| - 1]), actions[|actions| - 1], family);
    }
  }

  /** Two refreshes of one token that interleave both succeed and end, and leave two live sessions. */
  lemma OverlappingRefreshes(s: System, c: nat, d: nat, token: SessionId) returns (t: System)
    requires Inv(s) && c in s.calls && s.calls[c] == Looked(token) && Refreshable(s, token) && d !in s.calls
    ensures Leads(s, t) && TwoLive(t, s.rows[token].family) && c in t.calls && d in t.calls
    ensures t.calls[c] == Finished && t.calls[d] == Finished
  {
    var n := |s.rows|;
    LeadsToItself(s);
    LeadsOn(s, s, Look(d, token));
    t := Step(s, Look(d, token));
    LeadsOn(s, t, Issue(c, 0));
    t := Step(t, Issue(c, 0));
    LeadsOn(s, t, Issue(d, 0));
    t := Step(t, Issue(d, 0));
    assert t.calls[c] == Issued(token, n) && t.calls[d] == Issued(token, n + 1) && |t.rows| == n + 2;
    t := BothRotate(s, t, c, d, token, n);
  }

  lemma BothRotate(s: System, r: System, c: nat, d: nat, token: SessionId, n: nat) returns (t: System)
    requires Leads(s, r) && c in r.calls && d in r.calls && c != d && |r.rows| == n + 2 && token < n
    requires r.calls[c] == Issued(token, n) && r.calls[d] == Issued(token, n + 1)
    requires SameFamily(r.rows, token, n) && SameFamily(r.rows, n, n + 1) && Live(r.rows[n]) && Live(r.rows[n + 1])
    ensures Leads(s, t) && TwoLive(t, r.rows[token].family) && c in t.calls && d in t.calls
    ensures t.calls[c] == Finished && t.calls[d] == Finished
  {
    LeadsOn(s, r, Rotate(c));
    t := Step(r, Rotate(c));
    LeadsOn(s, t, Rotate(d));
    t := Step(t, Rotate(d));
    assert SameFamily(t.rows, n, n + 1) && Live(t.rows[n]) && Live(t.rows[n + 1]);
  }

  /** One refresh whose last transaction fails leaves the old and the new session live. */
  lemma AbortedRotation(s: System, token: SessionId) returns (t: System)
    requires Refreshable(s, token)
    ensures Leads(s, t) && TwoLive(t, s.rows[token].family)
    ensures forall c :: c in t.calls && t.calls[c].Issued? ==> c in s.calls && s.calls[c] == t.calls[c]
  {
    var c := FreshCall(s.calls.Keys);
    LeadsToItself(s);
    LeadsOn(s, s, Look(c, token));
    t := Step(s, Look(c, token));
    LeadsOn(s, t, Issue(c, 0));
    t := Step(t, Issue(c, 0));
    LeadsOn(s, t, Abort(c));
    t := Step(t, Abort(c));
    assert SameFamily(t.rows, token, |s.rows|) && Live(t.rows[token]) && Live(t.rows[|s.rows|]);
  }

  /** A refresh in flight issues a session that can itself be refreshed. */
  lemma InFlightOpens(s: System, family: nat) returns (t: System)
    requires Inv(s) && RefreshInFlight(s, family)
    ensures Leads(s, t) && SomeRefreshable(t, family)
  {
    var c :| c in s.calls && s.calls[c].Looked? && s.calls[c].id < |s.rows| && s.rows[s.calls[c].id].family == family;
    LeadsToItself(s);
    LeadsOn(s, s, Issue(c, 0));
    t := Step(s, Issue(c, 0));
    assert t.rows[|s.rows|].family == family && Refreshable(t, |s.rows|);
  }

  lemma LeadsTransitive(s: System, t: System, u: System)
    requires Leads(s, t) && Leads(t, u)
    ensures Leads(s, u)
  {
    var a :| RunFrom(s, a) == t;
    var b :| RunFrom(t, b) == u;
    RunConcatenation(s, a, b);
  }

  lemma {:induction false} RunConcatenation(s: System, a: seq<Action>, b: seq<Action>)
    ensures RunFrom(s, a + b) == RunFrom(RunFrom(s, a), b)
  {
    hide Step;
    if |b| > 0 {
      RunConcatenation(s, a, b[..|b| - 1]);
      assert (a + b)[..|a + b| - 1] == a + b[..|b| - 1];
    } else {
      assert a + b == a;
    }
  }

  /** For every reachable state and every family that exists: some continuation gives it two live sessions if and only
      if it has two already, or a session that is live and not expired, or a refresh past its lookup. */
  lemma SecondLiveSessionIff(before: seq<Action>, family: nat)
    requires family < RunFrom(Initial(), before).nextFamily
    ensures var s := RunFrom(Initial(), before);
      (exists t :: Leads(s, t) && TwoLive(t, family)) <==> TwoLive(s, family) || SomeRefreshable(s, family) || RefreshInFlight(s, family)
  {
    hide TwoLive, SomeRefreshable, RefreshInFlight;
    var s := RunFrom(Initial(), before);
    RunKeepsInv(Initial(), before);
    LeadsToItself(s);
    if RefreshInFlight(s, family) && !SomeRefreshable(s, family) {
      var r := InFlightOpens(s, family);
      var t := RefreshableDoubles(r, family);
      LeadsTransitive(s, r, t);
    } else if SomeRefreshable(s, family) {
      var t := RefreshableDoubles(s, family);
    } else if !TwoLive(s, family) {
      forall t | Leads(s, t) ensures !TwoLive(t, family) {
        var actions :| RunFrom(s, actions) == t;
        ClosedForever(s, actions, family);
      }
    }
  }

  lemma RefreshableDoubles(s: System, family: nat) returns (t: System)
    requires SomeRefreshable(s, family)
    ensures Leads(s, t) && TwoLive(t, family)
  {
    var i :| 0 <= i < |s.rows| && s.rows[i].family == family && Refreshable(s, i);
    t := AbortedRotation(s, i);
  }

  // ---- the discipline under which families stay single ----

  /** The call has found a live session of this family, or issued its replacement, and is not done. */
  predicate Busy(rows: Rows, p: Progress, family: nat) {
    (p.Looked? || p.Issued?) && p.id < |rows| && rows[p.id].family == family
  }

  /** No refresh starts on a family while another one is under way, and none is abandoned between its last two
      transactions. */
  predicate Disciplined(s: System, a: Action) {
    && (a.Look? && a.c !in s.calls && Found(s, a.token).Looked? ==>
          forall c :: c in s.calls ==> !Busy(s.rows, s.calls[c], s.rows[a.token].family))
    && (a.Abort? && a.c in s.calls ==> !s.calls[a.c].Issued?)
  }

  predicate DisciplinedRun(actions: seq<Action>) {
    forall k :: 0 <= k < |actions| ==> Disciplined(RunFrom(Initial(), actions[..k]), actions[k])
  }

  /** Two live sessions of one family are always the two ends of one rotation in progress. */
  ghost predicate RotationOnly(s: System) {
    forall i: nat, j: nat :: i < j && SameFamily(s.rows, i, j) && Live(s.rows[i]) && Live(s.rows[j]) ==> BeingRotated(s, i, j)
  }

  predicate BeingRotated(s: System, i: nat, j: nat) {
    exists c :: c in s.calls && s.calls[c] == Issued(i, j)
  }

  /** While a refresh is past its lookup, the session it found is the only one that can be live. */
  ghost predicate LookedAlone(s: System) {
    forall c, i: nat :: c in s.calls && s.calls[c].Looked? && SameFamily(s.rows, s.calls[c].id, i) && Live(s.rows[i]) ==> i == s.calls[c].id
  }

  ghost predicate OneBusy(s: System) {
    forall c, d, family :: c in s.calls && d in s.calls && Busy(s.rows, s.calls[c], family) && Busy(s.rows, s.calls[d], family) ==> c == d
  }

  ghost predicate Single(s: System) {
    Inv(s) && RotationOnly(s) && LookedAlone(s) && OneBusy(s)
  }

  predicate Bystander(p: Progress) {
    !p.Looked? && !p.Issued?
  }

  /** A step that issues nothing and starts no refresh: sessions can only be revoked, and calls only end. */
  predicate Shrinks(s: System, t: System) {
    && |t.rows| == |s.rows|
    && (forall i :: 0 <= i < |s.rows| ==> t.rows[i].family == s.rows[i].family && (Live(t.rows[i]) ==> Live(s.rows[i])))
    && (forall c :: c in t.calls ==> (c in s.calls && t.calls[c] == s.calls[c]) || Bystander(t.calls[c]))
    && (forall c :: c in s.calls && s.calls[c].Issued? ==>
          (c in t.calls && t.calls[c] == s.calls[c]) || (s.calls[c].id < |t.rows| && !Live(t.rows[s.calls[c].id])))
  }

  lemma ShrinkingKeepsSingle(s: System, t: System)
    requires Single(s) && Inv(t) && Shrinks(s, t)
    ensures Single(t)
  {
    hide Inv;
    forall i: nat, j: nat | i < j && SameFamily(t.rows, i, j) && Live(t.rows[i]) && Live(t.rows[j]) ensures BeingRotated(t, i, j) {
      assert SameFamily(s.rows, i, j);
      var c :| c in s.calls && s.calls[c] == Issued(i, j);
      assert c in t.calls && t.calls[c] == Issued(i, j);
    }
    forall c, i: nat | c in t.calls && t.calls[c].Looked? && SameFamily(t.rows, t.calls[c].id, i) && Live(t.rows[i])
      ensures i == t.calls[c].id
    {
      assert SameFamily(s.rows, s.calls[c].id, i);
    }
    forall c, d, family | c in t.calls && d in t.calls && Busy(t.rows, t.calls[c], family) && Busy(t.rows, t.calls[d], family)
      ensures c == d
    {
      assert Busy(s.rows, s.calls[c], family) && Busy(s.rows, s.calls[d], family);
    }
  }

  lemma QuietStepShrinks(s: System, a: Action)
    requires Inv(s) && Disciplined(s, a) && !a.Look? && !a.Issue? && !a.LoginStep?
    ensures Shrinks(s, Step(s, a))
  {
    if (a.Rotate? && a.c in s.calls) {
      assert GoodCall(s.rows, s.calls[a.c]);
    }
  }

  lemma LoginKeepsSingle(s: System, user: nat, ttl: nat)
    requires Single(s) && Inv(Step(s, LoginStep(user, ttl)))
    ensures Single(Step(s, LoginStep(user, ttl)))
  {
    var t := Step(s, LoginStep(user, ttl));
    assert forall c :: c in s.calls ==> GoodCall(s.rows, s.calls[c]);
    hide Inv;
    forall i: nat, j: nat | i < j && SameFamily(t.rows, i, j) && Live(t.rows[i]) && Live(t.rows[j]) ensures BeingRotated(t, i, j) {
      assert SameFamily(s.rows, i, j) by { NewFamilyAlone(s, user, ttl, i, j); }
    }
    forall c, i: nat | c in t.calls && t.calls[c].Looked? && SameFamily(t.rows, t.calls[c].id, i) && Live(t.rows[i])
      ensures i == t.calls[c].id
    {
      assert SameFamily(s.rows, t.calls[c].id, i) by { NewFamilyAlone(s, user, ttl, t.calls[c].id, i); }
    }
    forall c, d, family | c in t.calls && d in t.calls && Busy(t.rows, t.calls[c], family) && Busy(t.rows, t.calls[d], family)
      ensures c == d
    {
      assert Busy(s.rows, s.calls[c], family) && Busy(s.rows, s.calls[d], family);
    }
  }

  lemma NewFamilyAlone(s: System, user: nat, ttl: nat, i: nat, j: nat)
    requires Inv(s) && SameFamily(Step(s, LoginStep(user, ttl)).rows, i, j) && (i != j || i < |s.rows|)
    ensures SameFamily(s.rows, i, j)
  {}

  lemma LookKeepsSingle(s: System, c: nat, token: SessionId)
    requires Single(s) && Disciplined(s, Look(c, token)) && Inv(Step(s, Look(c, token)))
    ensures Single(Step(s, Look(c, token)))
  {
    var t := Step(s, Look(c, token));
    hide Inv;
    if c !in s.calls && Found(s, token).Looked? {
      forall i: nat, j: nat | i < j && SameFamily(t.rows, i, j) && Live(t.rows[i]) && Live(t.rows[j]) ensures BeingRotated(t, i, j) {
        var d :| d in s.calls && s.calls[d] == Issued(i, j);
        assert d in t.calls && t.calls[d] == Issued(i, j);
      }
      forall i: nat | SameFamily(t.rows, token, i) && Live(t.rows[i]) ensures i == token {
        LiveAlone(s, token, i);
      }
    } else {
      assert t == s || (t.rows == s.rows && Bystander(t.calls[c]) && t.calls == s.calls[c := t.calls[c]]);
      if t != s {
        ShrinkingKeepsSingleRows(s, t, c);
      }
    }
  }

  lemma ShrinkingKeepsSingleRows(s: System, t: System, c: nat)
    requires Single(s) && Inv(t) && c !in s.calls && t.rows == s.rows && c in t.calls && Bystander(t.calls[c])
    requires t.calls == s.calls[c := t.calls[c]]
    ensures Single(t)
  {
    hide Inv;
    ShrinkingKeepsSingle(s, t);
  }

  /** With no call busy on its family, a live session is the only one. */
  lemma LiveAlone(s: System, token: SessionId, i: nat)
    requires Single(s) && SameFamily(s.rows, token, i) && Live(s.rows[token]) && Live(s.rows[i])
    requires forall c :: c in s.calls ==> !Busy(s.rows, s.calls[c], s.rows[token].family)
    ensures i == token
  {
    assert !BeingRotated(s, i, token) && !BeingRotated(s, token, i);
  }

  lemma IssueKeepsSingle(s: System, c: nat, ttl: nat)
    requires Single(s) && Inv(Step(s, Issue(c, ttl)))
    ensures Single(Step(s, Issue(c, ttl)))
  {
    var t := Step(s, Issue(c, ttl));
    assert forall d :: d in s.calls ==> GoodCall(s.rows, s.calls[d]);
    hide Inv;
    if t != s {
      var id, n := s.calls[c].id, |s.rows|;
      var family := s.rows[id].family;
      assert Busy(s.rows, s.calls[c], family);
      forall i: nat, j: nat | i < j && SameFamily(t.rows, i, j) && Live(t.rows[i]) && Live(t.rows[j]) ensures BeingRotated(t, i, j) {
        if j == n {
          assert SameFamily(s.rows, id, i);
          assert t.calls[c] == Issued(i, j);
        } else {
          assert SameFamily(s.rows, i, j);
          var d :| d in s.calls && s.calls[d] == Issued(i, j);
          assert t.calls[d] == Issued(i, j);
        }
      }
      forall d, i: nat | d in t.calls && t.calls[d].Looked? && SameFamily(t.rows, t.calls[d].id, i) && Live(t.rows[i])
        ensures i == t.calls[d].id
      {
        assert Busy(s.rows, s.calls[d], s.rows[s.calls[d].id].family);
        assert i < n && SameFamily(s.rows, s.calls[d].id, i);
      }
      forall d, e, f | d in t.calls && e in t.calls && Busy(t.rows, t.calls[d], f) && Busy(t.rows, t.calls[e], f) ensures d == e {
        assert Busy(s.rows, s.calls[d], f) && Busy(s.rows, s.calls[e], f);
      }
    }
  }

  lemma StepKeepsSingle(s: System, a: Action)
    requires Single(s) && Disciplined(s, a)
    ensures Single(Step(s, a))
  {
    StepKeepsInv(s, a);
    hide Inv, RotationOnly, LookedAlone, OneBusy, Shrinks, Disciplined, Step;
    match a
    case Look(c, token) => LookKeepsSingle(s, c, token);
    case Issue(c, ttl) => IssueKeepsSingle(s, c, ttl);
    case LoginStep(user, ttl) => LoginKeepsSingle(s, user, ttl);
    case _ =>
      QuietStepShrinks(s, a);
      ShrinkingKeepsSingle(s, Step(s, a));
  }

  lemma {:induction false} RunKeepsSingle(actions: seq<Action>)
    requires DisciplinedRun(actions)
    ensures Single(RunFrom(Initial(), actions))
  {
    hide Step, Disciplined;
    if |actions| > 0 {
      hide Single;
      var init := actions[..|actions| - 1];
      forall k | 0 <= k < |init| ensures Disciplined(RunFrom(Initial(), init[..k]), init[k]) {
        assert init[..k] == actions[..k] && init[k] == actions[k];
      }
      RunKeepsSingle(init);
      StepKeepsSingle(RunFrom(Initial(), init), actions[|actions| - 1]);
    }
  }

  /** In every disciplined run, however it interleaves logins, logouts, revocations and refreshes of other families:
      a family has at most one live session whenever no rotation of it is between its last two transactions. */
  lemma DisciplineKeepsFamiliesSingle(actions: seq<Action>, family: nat)
    requires DisciplinedRun(actions)
    ensures var s := RunFrom(Initial(), actions);
      (forall c :: c in s.calls && s.calls[c].Issued? ==> !Busy(s.rows, s.calls[c], family)) ==> !TwoLive(s, family)
  {
    RunKeepsSingle(actions);
    hide RunFrom, Inv;
    var s := RunFrom(Initial(), actions);
    if TwoLive(s, family) {
      var i: nat, j: nat :| i < j && SameFamily(s.rows, i, j) && s.rows[i].family == family && Live(s.rows[i]) && Live(s.rows[j]);
      var c :| c in s.calls && s.calls[c] == Issued(i, j);
      assert Busy(s.rows, s.calls[c], family);
    }
  }

  // ---- calls one after another are runs of the interleaved machine ----

  /** The tables agree and no call is in progress. */
  predicate Matches(r: Serial, t: System) {
    t.rows == r.rows && t.nextFamily == r.nextFamily && t.now == r.now && forall c :: c in t.calls ==> t.calls[c] == Finished
  }

  lemma RefreshSteps(r: Serial, s: System, t: System, token: SessionId, active: bool, ttl: nat) returns (u: System)
    requires Leads(s, t) && Matches(r, t)
    ensures Leads(s, u) && Matches(DoCall(r, Refresh(token, active), ttl), u)
  {
    var c := FreshCall(t.calls.Keys);
    LeadsOn(s, t, Look(c, token));
    u := Step(t, Look(c, token));
    match Found(t, token)
    case Reused(_) =>
      LeadsOn(s, u, RevokeReused(c));
      u := Step(u, RevokeReused(c));
    case Looked(_) =>
      if active {
        LeadsOn(s, u, Issue(c, ttl));
        u := Step(u, Issue(c, ttl));
        LeadsOn(s, u, Rotate(c));
        u := Step(u, Rotate(c));
      } else {
        LeadsOn(s, u, Abort(c));
        u := Step(u, Abort(c));
      }
    case _ =>
  }

  lemma CallSteps(r: Serial, s: System, t: System, call: Call, ttl: nat) returns (u: System)
    requires Leads(s, t) && Matches(r, t)
    ensures Leads(s, u) && Matches(DoCall(r, call, ttl), u)
  {
    match call
    case Login(user) =>
      LeadsOn(s, t, LoginStep(user, ttl));
      u := Step(t, LoginStep(user, ttl));
    case Refresh(token, active) => u := RefreshSteps(r, s, t, token, active, ttl);
    case Logout(token, user) =>
      var c := FreshCall(t.calls.Keys);
      LeadsOn(s, t, LookForLogout(c, token, user));
      u := Step(t, LookForLogout(c, token, user));
      LeadsOn(s, u, FinishLogout(c));
      u := Step(u, FinishLogout(c));
    case RevokeAllForUser(user) =>
      LeadsOn(s, t, RevokeAll(user));
      u := Step(t, RevokeAll(user));
    case Wait(time) =>
      LeadsOn(s, t, Tick(time));
      u := Step(t, Tick(time));
  }

  /** Every serial run is a run of the interleaved machine in which each call finishes before the next begins. */
  lemma {:induction false} SerialRunsAreRuns(calls: seq<Call>, ttl: nat) returns (t: System)
    ensures Leads(Initial(), t) && Matches(RunSerial(calls, ttl), t)
  {
    hide DoCall;
    if |calls| == 0 {
      t := Initial();
      LeadsToItself(t);
    } else {
      t := SerialRunsAreRuns(calls[..|calls| - 1], ttl);
      t := CallSteps(RunSerial(calls[..|calls| - 1], ttl), Initial(), t, calls[|calls| - 1], ttl);
    }
  }
}
