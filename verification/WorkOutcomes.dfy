/**
 What becomes of a scheduled run: which outcome a report records and when a retry may start, when a lease
 runs out and who then gets the run, and that the account of a run never changes.
 */
module WorkOutcomes {
  import opened Common
  import opened WorkScheduler

  // ---- Reports ----

  /** 15 seconds, doubled with every attempt after the first, never more than five minutes. */
  lemma {:induction false} BackoffValues(attempt: nat)
    ensures Backoff(0) == 15 && Backoff(1) == 15 && Backoff(2) == 30
    ensures attempt >= 1 ==> Backoff(attempt + 1) == if 2 * Backoff(attempt) < 300 then 2 * Backoff(attempt) else 300
    ensures 15 <= Backoff(attempt) <= 300
  {
    assert Pow2(0) == 1 && Pow2(1) == 2;
    if attempt >= 1 {
      assert Pow2(attempt) == 2 * Pow2(attempt - 1);
    }
    PowPositive(if attempt == 0 then 0 else attempt - 1);
  }

  lemma {:induction false} PowPositive(n: nat)
    ensures Pow2(n) >= 1
  {
    if n > 0 { PowPositive(n - 1); }
  }

  /**
   A report on a run of a schedule that is not deleted: without an error the run has succeeded, with one it is
   queued again if it may be retried and was not the third attempt, and has failed otherwise. The report is
   kept on run and schedule, and nothing else changes.
   */
  lemma CompletionRecords(db: Db, run: string, report: Report, now: int)
    requires CanComplete(db, run, report) && db.schedules[db.runs[run].schedule].deletedAt.None?
    ensures var db' := Complete(db, run, report, now);
            && db'.runs.Keys == db.runs.Keys && db'.schedules.Keys == db.schedules.Keys
            && var r, r' := db.runs[run], db'.runs[run];
               && (r'.status.Succeeded? <==> report.error.None?)
               && (r'.status.Queued? <==> report.error.Some? && report.retryable && r.attempt < 3)
               && (r'.status.Failed? <==> report.error.Some? && (!report.retryable || r.attempt >= 3))
               && (r'.status.Queued? ==> r'.availableAt == now + if r.attempt < 2 then 15 else 30)
               && r'.lease.None? && r'.session == report.session && r'.error == report.error
               && (r'.owner == r.owner || (r.owner.None? && r'.owner == report.owner))
               && (r'.owner.None? ==> r.owner.None? && report.owner.None?)
               && r'.schedule == r.schedule && r'.scheduledFor == r.scheduledFor && r'.attempt == r.attempt
               && db'.schedules[r.schedule] ==
                  db.schedules[r.schedule].(last := Last(Some(now), report.session, r'.owner, report.error))
    ensures var db' := Complete(db, run, report, now);
            && (forall q :: q in db.runs && q != run ==> db'.runs[q] == db.runs[q])
            && (forall s :: s in db.schedules && s != db.runs[run].schedule ==> db'.schedules[s] == db.schedules[s])
  {
    BackoffValues(db.runs[run].attempt);
  }

  /** `run` was put back for a retry at `until` and has not been handed out since position `from`. */
  ghost predicate Waits(w: World, run: string, until: int, from: nat) {
    && run in w.drawn
    && (run in w.db.runs ==> w.db.runs[run].status.Queued? && w.db.runs[run].availableAt == until)
    && from <= |w.handed| && forall i :: from <= i < |w.handed| ==> w.handed[i].0 != run
  }

  predicate Early(e: Event, run: string, until: int) {
    && (e.ClaimedDue? ==> e.claim.now < until)
    && (e.Completed? ==> e.run != run)
  }

  /** Queueing the due occurrences leaves the runs that were there as recovery left them. */
  lemma QueueKeepsRun(w: World, c: Claim, run: string)
    requires IdsDrawn(w) && Legal(w, ClaimedDue(c)) && run in w.drawn
    ensures run in QueuedDb(w.db, c).runs <==> run in w.db.runs
    ensures run in w.db.runs ==> QueuedDb(w.db, c).runs[run] == RecoverRun(w.db.runs[run], c.now)
  {
    EnqueueAllGrown(Recover(w.db, c.now), c.now, c.due, c.ids);
    assert run !in Drawn(c.ids);
  }

  /** What is in no hand-out stays as it is. */
  lemma NotReady(db: Db, c: Claim, run: string)
    requires run !in c.ready && forall i :: 0 <= i < |c.ready| ==> c.ready[i] in db.runs
    ensures run in HandOut(db, c.now, c.lease, c.ready).runs <==> run in db.runs
    ensures run in db.runs ==> HandOut(db, c.now, c.lease, c.ready).runs[run] == db.runs[run]
    ensures forall i :: 0 <= i < |c.ready| ==> Items(db.runs, c.ready)[i].0 != run
  {
    forall i | 0 <= i < |c.ready| ensures c.ready[i] != run {
      assert c.ready[i] in c.ready;
    }
  }

  lemma EarlyIsNotReady(db: Db, c: Claim, run: string, until: int)
    requires IsSelection(ReadyTimes(db, c.now), c.limit, c.ready) && c.now < until
    requires run in db.runs ==> db.runs[run].availableAt == until
    ensures run !in c.ready && forall i :: 0 <= i < |c.ready| ==> c.ready[i] in db.runs
  {
    forall i | 0 <= i < |c.ready| ensures c.ready[i] in db.runs && c.ready[i] != run {
      assert c.ready[i] in ReadyTimes(db, c.now);
    }
  }

  lemma ClaimWaits(w: World, c: Claim, run: string, until: int, from: nat)
    requires IdsDrawn(w) && Legal(w, ClaimedDue(c)) && Waits(w, run, until, from) && c.now < until
    ensures Waits(Step(w, ClaimedDue(c)), run, until, from)
  {
    var queued := QueuedDb(w.db, c);
    QueueKeepsRun(w, c, run);
    EarlyIsNotReady(queued, c, run, until);
    NotReady(queued, c, run);
  }

  lemma StepWaits(w: World, e: Event, run: string, until: int, from: nat)
    requires IdsDrawn(w) && Legal(w, e) && Waits(w, run, until, from) && Early(e, run, until)
    ensures Waits(Step(w, e), run, until, from)
  {
    if e.ClaimedDue? { ClaimWaits(w, e.claim, run, until, from); }
  }

  /** Over every history without another report on it, a retry is not handed out before its time. */
  lemma {:induction false} RetryWaits(w: World, es: seq<Event>, run: string, until: int, from: nat)
    requires Sound(w.db) && IdsDrawn(w) && LegalRun(w, es) && Waits(w, run, until, from)
    requires forall e :: e in es ==> Early(e, run, until)
    ensures Waits(RunOf(w, es), run, until, from)
    decreases |es|
  {
    if es != [] {
      assert es[0] in es && forall e :: e in es[1..] ==> e in es;
      StepSound(w, es[0]);
      StepGrown(w, es[0]);
      StepWaits(w, es[0], run, until, from);
      RetryWaits(Step(w, es[0]), es[1..], run, until, from);
    }
  }

  /** After a report that asks for a retry: not before 15 seconds after the first attempt and 30 after the second. */
  lemma RequeuedRunWaits(w: World, run: string, report: Report, now: int, es: seq<Event>)
    requires Sound(w.db) && IdsDrawn(w) && CanComplete(w.db, run, report) &&
             w.db.schedules[w.db.runs[run].schedule].deletedAt.None?
    requires report.error.Some? && report.retryable && w.db.runs[run].attempt < 3
    requires LegalRun(Step(w, Completed(run, report, now)), es)
    requires var until := now + if w.db.runs[run].attempt < 2 then 15 else 30; forall e :: e in es ==>
             Early(e, run, until)
    ensures var w' := RunOf(Step(w, Completed(run, report, now)), es);
            |w.handed| <= |w'.handed| && forall i :: |w.handed| <= i < |w'.handed| ==> w'.handed[i].0 != run
  {
    CompletionRecords(w.db, run, report, now);
    StepSound(w, Completed(run, report, now));
    StepGrown(w, Completed(run, report, now));
    RetryWaits(Step(w, Completed(run, report, now)), es, run, now + if w.db.runs[run].attempt < 2 then 15
               else 30, |w.handed|);
  }

  // ---- Claims ----

  /** Waiting for its time, or claimed by a worker that has let its lease run out. */
  predicate MayRun(db: Db, run: string, now: int) {
    && run in db.runs && db.runs[run].schedule in db.schedules && db.schedules[db.runs[run].schedule].deletedAt.None?
    && var r := db.runs[run];
       || (r.status.Queued? && r.availableAt <= now)
       || (r.Leased() && r.lease.Some? && r.lease.value <= now && r.attempt < 3)
  }

  ghost predicate WasHanded(handed: seq<(string, nat)>, from: nat, item: (string, nat)) {
    exists k :: from <= k < |handed| && handed[k] == item
  }

  /** Past position `from` the log has `attempt` of `run`, which is claimed for it until `until`. */
  ghost predicate HandedNext(db: Db, handed: seq<(string, nat)>, from: nat, run: string, attempt: nat, until: int) {
    && WasHanded(handed, from, (run, attempt))
    && run in db.runs && db.runs[run].status.Claimed? && db.runs[run].lease == Some(until) &&
       db.runs[run].attempt == attempt
  }

  /** A claim that is not full has handed out every run that may run, for the next attempt and under a new lease. */
  lemma ReadyIsHandedOut(w: World, c: Claim, run: string)
    requires IdsDrawn(w) && Legal(w, ClaimedDue(c)) && |c.ready| < c.limit
    requires MayRun(w.db, run, c.now)
    ensures var w' := Step(w, ClaimedDue(c));
            HandedNext(w'.db, w'.handed, |w.handed|, run, w.db.runs[run].attempt + 1, c.now + c.lease)
  {
    MayRunIsReady(w, c, run);
    HandsOutItems(w, c);
    var queued := QueuedDb(w.db, c);
    ReadyIsPicked(queued, c, run, w.handed);
    var w' := Step(w, ClaimedDue(c));
    assert w'.handed == w.handed + Items(queued.runs, c.ready) && w'.db == HandOut(queued, c.now, c.lease, c.ready);
  }

  lemma MayRunIsReady(w: World, c: Claim, run: string)
    requires IdsDrawn(w) && Legal(w, ClaimedDue(c)) && MayRun(w.db, run, c.now)
    ensures var queued := QueuedDb(w.db, c);
            run in queued.runs && Ready(queued, queued.runs[run], c.now) &&
            queued.runs[run].attempt == w.db.runs[run].attempt
  {
    QueueKeepsRun(w, c, run);
    EnqueueAllKeepsDeleted(Recover(w.db, c.now), c.now, c.due, c.ids, w.db.runs[run].schedule);
  }

  lemma HandsOutItems(w: World, c: Claim)
    requires Legal(w, ClaimedDue(c))
    ensures forall i :: 0 <= i < |c.ready| ==> c.ready[i] in QueuedDb(w.db, c).runs
  {
    forall i | 0 <= i < |c.ready| ensures c.ready[i] in QueuedDb(w.db, c).runs {
      assert c.ready[i] in ReadyTimes(QueuedDb(w.db, c), c.now);
    }
  }

  lemma ReadyIsPicked(db: Db, c: Claim, run: string, handed: seq<(string, nat)>)
    requires IsSelection(ReadyTimes(db, c.now), c.limit, c.ready) && |c.ready| < c.limit
    requires run in db.runs && Ready(db, db.runs[run], c.now) && forall i :: 0 <= i < |c.ready| ==>
             c.ready[i] in db.runs
    ensures HandedNext(HandOut(db, c.now, c.lease, c.ready), handed + Items(db.runs, c.ready), |handed|, run,
                       db.runs[run].attempt + 1, c.now + c.lease)
  {
    assert run in ReadyTimes(db, c.now);
    assert run in c.ready;
    var k :| 0 <= k < |c.ready| && c.ready[k] == run;
    var all := handed + Items(db.runs, c.ready);
    assert all[|handed| + k] == (run, db.runs[run].attempt + 1);
  }

  lemma {:induction false} EnqueueAllKeepsDeleted(db: Db, now: int, due: seq<string>, ids: seq<string>, id: string)
    requires |due| <= |ids| && id in db.schedules
    ensures id in EnqueueAll(db, now, due, ids).schedules
    ensures EnqueueAll(db, now, due, ids).schedules[id].deletedAt == db.schedules[id].deletedAt
    decreases |due|
  {
    if due != [] {
      EnqueueAllKeepsDeleted(Enqueue(db, now, due[0], ids[0]), now, due[1..], ids[1..], id);
    }
  }

  /** And has made a run for every idle schedule that is due, if it took fewer schedules than its limit. */
  lemma DueIsEnqueued(w: World, c: Claim, id: string)
    requires Sound(w.db) && IdsDrawn(w) && Legal(w, ClaimedDue(c)) && |c.due| < c.limit
    requires id in w.db.schedules && !HasActive(Recover(w.db, c.now).runs, id)
    requires var s := w.db.schedules[id]; s.enabled && s.deletedAt.None? && s.nextRunAt <= c.now
    ensures BecameOneRun(w.db, QueuedDb(w.db, c), id, c.now)
  {
    assert id in DueTimes(Recover(w.db, c.now), c.now);
    assert id in c.due;
    BacklogBecomesOneRun(w, c, id);
  }

  /** A new schedule at once has its first run, at its own time and for its own account. */
  lemma FirstOccurrence(id: string, owner: Option<string>, at: int, period: nat, a: string, now: int)
    requires at <= now
    ensures var e := Created(id, owner, at, period);
            && Legal(EMPTY, e) && Legal(Step(EMPTY, e), ClaimOf(now, id, a))
            && Step(Step(EMPTY, e), ClaimOf(now, id, a)).db.runs ==
               map[a := Run(id, at, Claimed, now, Some(now + 90), 1, None, owner, None)]
  {
    var w := Step(EMPTY, Created(id, owner, at, period));
    assert w.db.schedules.Keys == {id} && w.db.runs == map[];
    ClaimFirst(w, id, a, now);
    assert w.db.runs[a := HandOutRun(NewRun(id, w.db.schedules[id], now), now, 90)]
        == map[a := Run(id, at, Claimed, now, Some(now + 90), 1, None, owner, None)];
  }

  // ---- Leases ----

  /** Recovery takes a run from its worker exactly when the lease that was set last has run out. */
  lemma LeaseHolds(db: Db, run: string, now: int, lease: nat, later: int)
    requires run in db.runs && (db.runs[run].status.Claimed? || db.runs[run].status.Running?)
    ensures var renewed := Renew(db, run, now, lease);
            && renewed.runs[run] == db.runs[run].(lease := Some(now + lease))
            && (Recover(renewed, later).runs[run] == renewed.runs[run] <==> later < now + lease)
    ensures db.runs[run].status.Claimed? ==>
              var marked := Mark(db, run, now, lease);
              && marked.runs[run] == db.runs[run].(status := Running, lease := Some(now + lease))
              && (Recover(marked, later).runs[run] == marked.runs[run] <==> later < now + lease)
  {
  }

  /** Who asks for a run that is not leased, or not claimed, changes nothing. */
  lemma OthersAreLeftAlone(db: Db, run: string, now: int, lease: nat)
    ensures Renew(db, run, now, lease) != db ==> run in db.runs && db.runs[run].Leased()
    ensures Mark(db, run, now, lease) != db ==> run in db.runs && db.runs[run].status.Claimed?
    ensures forall q :: q in db.runs && q != run ==>
              && q in Renew(db, run, now, lease).runs && Renew(db, run, now, lease).runs[q] == db.runs[q]
              && q in Mark(db, run, now, lease).runs && Mark(db, run, now, lease).runs[q] == db.runs[q]
  {
  }

  /**
   A lease that has run out: the run is queued again for now, or has failed after its third attempt, with the
   error it had or one that says so. Nothing else of the run changes, and no other run does.
   */
  lemma RecoveryRecords(db: Db, run: string, now: int)
    requires run in db.runs
    ensures var r, db' := db.runs[run], Recover(db, now);
            && db'.schedules == db.schedules && db'.runs.Keys == db.runs.Keys
            && var r' := db'.runs[run];
               if (r.status.Claimed? || r.status.Running?) && r.lease.Some? && r.lease.value <= now
               then
                 && r'.lease.None?
                 && (r'.status.Queued? <==> r.attempt < 3) && (r'.status.Failed? <==> r.attempt >= 3)
                 && (r.attempt < 3 ==> r'.availableAt == now && r'.error == r.error)
                 && (r.attempt >= 3 ==> r'.availableAt == r.availableAt && r'.error.Some? &&
                                        (r.error.Some? ==> r'.error == r.error))
                 && r' == r.(status := r'.status, lease := None, availableAt := r'.availableAt, error := r'.error)
               else r' == r
  {
  }

  // ---- The account of a run ----

  /** In a sound database a report is refused exactly for an unknown run or another account. */
  lemma RefusedExactly(db: Db, run: string, report: Report)
    requires Sound(db)
    ensures !CanComplete(db, run, report) <==>
            run !in db.runs || (db.runs[run].owner.Some? && report.owner.Some? && db.runs[run].owner != report.owner)
  {
    if run in db.runs { assert Linked(db, db.runs[run]); }
  }

  predicate OwnedBy(w: World, run: string, owner: string) {
    run in w.drawn && (run in w.db.runs ==> w.db.runs[run].owner == Some(owner))
  }

  lemma StepKeepsOwner(w: World, e: Event, run: string, owner: string)
    requires IdsDrawn(w) && Legal(w, e) && OwnedBy(w, run, owner)
    ensures OwnedBy(Step(w, e), run, owner)
  {
    if e.ClaimedDue? {
      QueueKeepsRun(w, e.claim, run);
    }
  }

  /** Once a run has an account, every history leaves it with this one. */
  lemma {:induction false} OwnerIsFixed(w: World, es: seq<Event>, run: string, owner: string)
    requires Sound(w.db) && IdsDrawn(w) && LegalRun(w, es) && OwnedBy(w, run, owner)
    ensures OwnedBy(RunOf(w, es), run, owner)
    decreases |es|
  {
    if es != [] {
      StepSound(w, es[0]);
      StepGrown(w, es[0]);
      StepKeepsOwner(w, es[0], run, owner);
      OwnerIsFixed(Step(w, es[0]), es[1..], run, owner);
    }
  }

  // ----- the order of the picks -----

  lemma {:induction false} PickedKeys(chosen: seq<string>, n: nat) returns (keys: set<string>)
    requires n <= |chosen| && forall i, j :: 0 <= i < j < |chosen| ==> chosen[i] != chosen[j]
    ensures |keys| == n && forall k :: k in keys <==> k in chosen[..n]
  {
    if n == 0 {
      keys := {};
    } else {
      var fewer := PickedKeys(chosen, n - 1);
      assert chosen[..n] == chosen[..n - 1] + [chosen[n - 1]];
      keys := fewer + {chosen[n - 1]};
    }
  }

  lemma {:induction false} NoMore(small: set<string>, large: set<string>)
    requires small <= large
    ensures |small| <= |large|
  {
    assert large == small + (large - small);
  }

  lemma EarlierIsPicked(at: map<string, int>, limit: nat, chosen: seq<string>, i: nat, k: string)
    requires IsSelection(at, limit, chosen) && i < |chosen| && chosen[i] in at && k in at && at[k] < at[chosen[i]]
    ensures k in chosen[..i]
  {
    assert k in chosen;
    var j :| 0 <= j < |chosen| && chosen[j] == k;
    assert j < i && chosen[..i][j] == k;
  }

  lemma PickedIsNoLater(at: map<string, int>, limit: nat, chosen: seq<string>, i: nat, k: string)
    requires IsSelection(at, limit, chosen) && i < |chosen| && chosen[i] in at && k in chosen[..i + 1]
    ensures k in at && at[k] <= at[chosen[i]]
  {
    var j :| 0 <= j < i + 1 && chosen[..i + 1][j] == k;
    assert chosen[j] == k && chosen[j] in at;
  }

  function Earlier(at: map<string, int>, t: int): set<string> {
    set k | k in at && at[k] < t
  }

  function NoLater(at: map<string, int>, t: int): set<string> {
    set k | k in at && at[k] <= t
  }

  /**
   The i-th pick is the i-th earliest: at most i rows are earlier, more than i are no later. As many are
   picked as there are rows, up to the limit.
   */
  lemma PicksAreEarliest(at: map<string, int>, limit: nat, chosen: seq<string>, i: nat)
    requires IsSelection(at, limit, chosen)
    ensures |chosen| == if |at| <= limit then |at| else limit
    ensures i < |chosen| ==> chosen[i] in at && |Earlier(at, at[chosen[i]])| <= i < |NoLater(at, at[chosen[i]])|
  {
    PickCount(at, limit, chosen);
    if i < |chosen| {
      assert chosen[i] in at;
      var before := PickedKeys(chosen, i);
      forall k | k in Earlier(at, at[chosen[i]])
        ensures k in before
      {
        EarlierIsPicked(at, limit, chosen, i, k);
      }
      NoMore(Earlier(at, at[chosen[i]]), before);
      var through := PickedKeys(chosen, i + 1);
      forall k | k in through
        ensures k in NoLater(at, at[chosen[i]])
      {
        PickedIsNoLater(at, limit, chosen, i, k);
      }
      NoMore(through, NoLater(at, at[chosen[i]]));
    }
  }

  lemma {:induction false} PickCount(at: map<string, int>, limit: nat, chosen: seq<string>)
    requires IsSelection(at, limit, chosen)
    ensures |chosen| == if |at| <= limit then |at| else limit
  {
    var keys := PickedKeys(chosen, |chosen|);
    assert chosen[..|chosen|] == chosen;
    forall k | k in keys
      ensures k in at.Keys
    {
      var j :| 0 <= j < |chosen| && chosen[j] == k;
    }
    NoMore(keys, at.Keys);
    if |chosen| < limit {
      assert at.Keys <= keys;
      NoMore(at.Keys, keys);
    }
  }
}
