/** Reachable races of the verification jobs: both kinds of overwriting a terminal status, and starting a job while
    the active one is ending. */
module VerificationRaces {
  import opened Outcomes
  import opened VerificationJobs

  // ---- both kinds of overwriting do happen ----

  ghost predicate Reachable(s: System) {
    exists actions :: RunFrom(Initial(), actions) == s
  }

  lemma ReachStep(s: System, a: Action)
    requires Reachable(s)
    ensures Reachable(Step(s, a))
  {
    hide Step;
    var actions :| RunFrom(Initial(), actions) == s;
    assert (actions + [a])[..|actions|] == actions;
    assert RunFrom(Initial(), actions + [a]) == Step(s, a);
  }

  function RunningJob(): Job {
    NewJob(0).(status := RUNNING, startedAt := Some(0), totalEntries := Some(7))
  }

  function Scan(): Delivery {
    Delivery(0, 0, true, Scanning(0))
  }

  function Asked(): map<nat, Request> {
    map[0 := Started(0)]
  }

  lemma JobStarts() returns (s: System)
    ensures Reachable(s) && s == System(0, map[0 := NewJob(0)], map[], map[], Asked())
  {
    hide DoProgress, DoPersist, DoHandlerRead, DoHandlerComplete, DoRead, DoQuiet, DoBegin;
    s := Initial();
    assert RunFrom(s, []) == s;
    ReachStep(s, Start(0, 0));
    s := System(0, map[0 := NewJob(0)], map[], map[], Asked());
  }

  lemma ScanStarts() returns (s: System)
    ensures Reachable(s)
    ensures s == System(0, map[0 := RunningJob()], map[0 := Scan()], map[], Asked())
  {
    hide DoProgress, DoPersist, DoHandlerRead, DoHandlerComplete, DoRead, DoRequest;
    s := JobStarts();
    ReachStep(s, Deliver(0, 0, 0));
    s := s.(deliveries := map[0 := Delivery(0, 0, false, Counting)]);
    ReachStep(s, Count(0, 7));
    s := s.(deliveries := map[0 := Delivery(0, 0, false, Counted(7))]);
    ReachStep(s, Begin(0));
    s := s.(table := map[0 := RunningJob()], deliveries := map[0 := Scan()]);
  }

  lemma ReaderGivesUp() returns (s: System)
    ensures Reachable(s)
    ensures s == System(120, map[0 := RunningJob()], map[0 := Scan()], map[0 := Stale(0)], Asked())
  {
    hide DoProgress, DoPersist, DoHandlerRead, DoHandlerComplete, DoBegin, DoQuiet, DoRequest, MarkStale;
    s := ScanStarts();
    ReachStep(s, Tick(120));
    s := s.(now := 120);
    ReachStep(s, Read(0, 0));
    s := s.(readers := map[0 := HasRow(0, RunningJob())]);
    ReachStep(s, Age(0));
    s := s.(readers := map[0 := Stale(0)]);
  }

  lemma ScanIsFailed() returns (s: System)
    ensures Reachable(s) && HasStatus(s, 0, FAILED) && 0 in s.deliveries && s.deliveries[0] == Scan()
  {
    hide DoProgress, DoPersist, DoHandlerRead, DoHandlerComplete, DoBegin, DoQuiet, DoRequest, MarkStale, Sound;
    s := ReaderGivesUp();
    OneRowSound(s.table);
    StaleAccepted(s.table, 0, 120);
    ReachStep(s, Reconcile(0));
    s := Step(s, Reconcile(0));
  }

  /** A reader gives up on a slow scan, which then finishes: FAILED turns into VERIFIED. */
  lemma FailedBecomesVerified() returns (s: System, t: System)
    ensures Reachable(s) && HasStatus(s, 0, FAILED) && ScanInFlight(s, 0)
    ensures t == Step(s, Persist(0)) && HasStatus(t, 0, VERIFIED)
  {
    hide DoProgress, DoPersist, DoHandlerRead, DoHandlerComplete, DoBegin, DoRead, DoRequest;
    s := ScanIsFailed();
    ReachStep(s, Finish(0, None));
    s := Step(s, Finish(0, None));
    t := Step(s, Persist(0));
    LastWrite(s, t);
  }

  lemma OneRowSound(t: Table)
    requires t == map[0 := RunningJob()]
    ensures Sound(t)
  {}

  lemma LastWrite(s: System, t: System)
    requires Reachable(s) && t == Step(s, Persist(0))
    requires 0 in s.deliveries && s.deliveries[0].phase == Scanned(0, None) && s.deliveries[0].id == 0
    ensures HasStatus(t, 0, VERIFIED) && ScanInFlight(s, 0)
  {
    hide RunFrom, Inv, Complete;
    var actions :| RunFrom(Initial(), actions) == s;
    InitialInv();
    RunKeepsInv(Initial(), actions);
    ScanCompletionAccepted(s, 0);
    assert InFlight(s.deliveries[0]);
  }

  /** While the first delivery scans, its worker's lease lapses, and the retry with this count fails. */
  lemma RetryFails(s: System, d: nat, retried: nat)
    requires Reachable(s) && 0 in s.table && d !in s.deliveries && retried > 0 && Due(s, 0, retried)
    ensures Reachable(s.(deliveries := s.deliveries[d := Delivery(0, retried, false, Erred)]))
  {
    hide DoProgress, DoPersist, DoHandlerRead, DoHandlerComplete, DoBegin, DoRead, DoRequest, Due;
    ReachStep(s, Deliver(d, 0, retried));
    var t := s.(deliveries := s.deliveries[d := Delivery(0, retried, false, Counting)]);
    ReachStep(t, Error(d));
    assert Step(t, Error(d)) == s.(deliveries := s.deliveries[d := Delivery(0, retried, false, Erred)]);
  }

  lemma ThreeRetriesFail() returns (s: System)
    ensures Reachable(s) && s.table == map[0 := RunningJob()]
    ensures 0 in s.deliveries && s.deliveries[0] == Scan() && 3 in s.deliveries && s.deliveries[3] == Delivery(0, 3, false, Erred)
  {
    s := ScanStarts();
    hide Step;
    assert s.deliveries[0].retried + 1 == 1;
    RetryFails(s, 1, 1);
    s := s.(deliveries := s.deliveries[1 := Delivery(0, 1, false, Erred)]);
    assert s.deliveries[1].retried + 1 == 2;
    RetryFails(s, 2, 2);
    s := s.(deliveries := s.deliveries[2 := Delivery(0, 2, false, Erred)]);
    assert s.deliveries[2].retried + 1 == 3;
    RetryFails(s, 3, 3);
    s := s.(deliveries := s.deliveries[3 := Delivery(0, 3, false, Erred)]);
  }

  /** All three retries fail while the first delivery still scans: VERIFIED turns into FAILED. */
  lemma VerifiedBecomesFailed() returns (s: System, t: System)
    ensures Reachable(s) && HasStatus(s, 0, VERIFIED) && HandlerArmed(s, 0)
    ensures t == Step(s, HandlerComplete(3, false)) && HasStatus(t, 0, FAILED)
  {
    hide DoProgress, DoBegin, DoRead, DoPersist, DoHandlerComplete, DoQuiet, DoRequest;
    s := ThreeRetriesFail();
    ReachStep(s, HandlerRead(3));
    s := Step(s, HandlerRead(3));
    s := VerifiedWhileArmed(s);
    t := Step(s, HandlerComplete(3, false));
    HandlerWrites(s, t);
  }

  lemma VerifiedWhileArmed(r: System) returns (s: System)
    requires Reachable(r) && 0 in r.deliveries && 3 in r.deliveries
    requires r.deliveries[0].id == 0 && r.deliveries[0].phase == Scanning(0)
    ensures Reachable(s) && HasStatus(s, 0, VERIFIED) && 3 in s.deliveries && s.deliveries[3] == r.deliveries[3]
  {
    hide DoProgress, DoBegin, DoRead, DoHandlerRead, DoHandlerComplete, Complete;
    ReachStep(r, Finish(0, None));
    s := Step(r, Finish(0, None));
    ReachStep(s, Persist(0));
    LastWrite(s, Step(s, Persist(0)));
    s := Step(s, Persist(0));
  }

  lemma HandlerWrites(s: System, t: System)
    requires Reachable(s) && t == Step(s, HandlerComplete(3, false))
    requires 3 in s.deliveries && s.deliveries[3].phase.SawActive? && s.deliveries[3].id == 0
    ensures HasStatus(t, 0, FAILED) && HandlerArmed(s, 0)
  {
    hide RunFrom, Inv, Complete;
    var actions :| RunFrom(Initial(), actions) == s;
    InitialInv();
    RunKeepsInv(Initial(), actions);
    HandlerCompletionAccepted(s, 3, false);
  }

  // ---- starting while a job is ending ----

  ghost predicate Leads(s: System, t: System) {
    exists actions :: RunFrom(s, actions) == t
  }

  lemma LeadsToItself(s: System)
    ensures Leads(s, s)
  {
    assert RunFrom(s, []) == s;
  }

  lemma LeadsOn(s: System, t: System, a: Action)
    requires Leads(s, t)
    ensures Leads(s, Step(t, a))
  {
    hide Step;
    var actions :| RunFrom(s, actions) == t;
    assert (actions + [a])[..|actions|] == actions;
    assert RunFrom(s, actions + [a]) == Step(t, a);
  }

  /** A refused request's second transaction fails if and only if no job is active any more; otherwise it finds the one
      active job and no other. */
  lemma StartFailsIff(before: seq<Action>, q: nat, id: JobId)
    requires var s := RunFrom(Initial(), before); q in s.requests && s.requests[q].Refused?
    ensures var s := RunFrom(Initial(), before);
      && (Step(s, FindNone(q)).requests[q] == Failed <==> !AnyActive(s.table))
      && (Step(s, FindActive(q, id)).requests[q] == Found(id) <==> id in s.table && Active(s.table[id]))
      && (id in s.table && Active(s.table[id]) ==> forall other :: other in s.table && Active(s.table[other]) ==> other == id)
  {
    InitialInv();
    RunKeepsInv(Initial(), before);
    hide RunFrom, Checks;
  }

  /** The window is always open: from every reachable state in which a request has been refused, some continuation lets
      the active job end before the request looks for it, and the request fails. */
  lemma RefusedRequestCanFail(before: seq<Action>, q: nat) returns (t: System)
    requires var s := RunFrom(Initial(), before); q in s.requests && s.requests[q].Refused?
    ensures Leads(RunFrom(Initial(), before), t) && q in t.requests && t.requests[q] == Failed
  {
    InitialInv();
    RunKeepsInv(Initial(), before);
    var s := RunFrom(Initial(), before);
    hide RunFrom, Inv;
    LeadsToItself(s);
    t := s;
    if AnyActive(s.table) {
      t := ActiveJobEnds(s);
    }
    LeadsOn(s, t, FindNone(q));
    t := Step(t, FindNone(q));
  }

  /** A reader that comes late enough finds the active job stale. */
  lemma LateReader(s: System, id: JobId) returns (t: System)
    requires id in s.table && Active(s.table[id])
    ensures Leads(s, t) && t.requests == s.requests && t.table == s.table && 0 in t.readers && t.readers[0] == Stale(id)
  {
    hide DoBegin, DoProgress, DoPersist, DoHandlerRead, DoHandlerComplete, DoQuiet, DoRequest, MarkStale;
    var wait := s.table[id].updatedAt + STALE_QUEUED_THRESHOLD;
    LeadsToItself(s);
    LeadsOn(s, s, Tick(wait));
    t := s.(now := s.now + wait);
    LeadsOn(s, t, Read(0, id));
    t := t.(readers := t.readers[0 := HasRow(id, s.table[id])]);
    LeadsOn(s, t, Age(0));
    t := t.(readers := t.readers[0 := Stale(id)]);
  }

  lemma ActiveJobEnds(s: System) returns (t: System)
    requires Inv(s) && AnyActive(s.table)
    ensures Leads(s, t) && t.requests == s.requests && !AnyActive(t.table)
  {
    var id :| id in s.table && Active(s.table[id]);
    var r := LateReader(s, id);
    LeadsOn(s, r, Reconcile(0));
    StaleAccepted(s.table, id, r.now);
    t := Step(r, Reconcile(0));
    hide MarkStale, Checks;
    assert t.table == MarkStale(s.table, id, r.now).table && t.requests == s.requests;
  }
}
