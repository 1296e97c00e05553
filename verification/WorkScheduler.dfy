/**
 The durable Work scheduler: schedules, their runs, and the transactions that move a run from
 queued through claimed and running to a terminal status, with leases, retries and tombstones.

 Times are integers. `now`, fresh ids and the rows that a `LIMIT` keeps among equals are parameters.
 */
module WorkScheduler {
  import opened Common

  const MAX_ATTEMPTS: nat := 3

  datatype Status = Queued | Claimed | Running | Succeeded | Failed

  /** What the last completion left on the schedule row. */
  datatype Last = Last(runAt: Option<int>, session: Option<string>, owner: Option<string>, error: Option<string>)

  /** `period` is 0 for a one-shot: NULL and 0 read the same. */
  datatype Schedule = Schedule(owner: Option<string>, nextRunAt: int, period: nat, enabled: bool,
                               deletedAt: Option<int>, last: Last)

  datatype Run = Run(
    schedule: string, scheduledFor: int, status: Status, availableAt: int, lease: Option<int>, attempt: nat,
    session: Option<string>, owner: Option<string>, error: Option<string>)
  {
    predicate Active() { status.Queued? || Leased() }

    predicate Leased() { status.Claimed? || status.Running? }
  }

  type Runs = map<string, Run>

  type Schedules = map<string, Schedule>

  datatype Db = Db(schedules: Schedules, runs: Runs)

  // ---- Recovery of expired leases ----

  function RecoverRun(r: Run, now: int): Run {
    if !(r.Leased() && r.lease.Some? && r.lease.value <= now) then r
    else if r.attempt >= MAX_ATTEMPTS then
      r.(status := Failed, lease := None, error := Some(r.error.GetOr("interrupted too often")))
    else r.(status := Queued, lease := None, availableAt := now)
  }

  function Recover(db: Db, now: int): Db {
    db.(runs := map id | id in db.runs :: RecoverRun(db.runs[id], now))
  }

  // ---- Queueing due occurrences ----

  predicate Due(s: Schedule, now: int) {
    s.enabled && s.deletedAt.None? && s.nextRunAt <= now
  }

  predicate HasActive(runs: Runs, schedule: string) {
    exists id :: id in runs && runs[id].schedule == schedule && runs[id].Active()
  }

  predicate HasRunAt(runs: Runs, schedule: string, time: int) {
    exists id :: id in runs && runs[id].schedule == schedule && runs[id].scheduledFor == time
  }

  function Min(a: int, b: int): int {
    if a < b then a else b
  }

  function NextTime(scheduledFor: int, period: nat, now: int): int {
    if period == 0 then scheduledFor
    else
      var skipped := Max(1, (now - scheduledFor) / period + 1);
      scheduledFor + skipped * period
  }

  function Advance(s: Schedule, now: int): Schedule {
    s.(enabled := s.period != 0, nextRunAt := NextTime(s.nextRunAt, s.period, now), last := s.last.(error := None))
  }

  function NewRun(id: string, s: Schedule, now: int): Run {
    Run(id, s.nextRunAt, Queued, now, None, 0, None, s.owner, None)
  }

  /** `INSERT OR IGNORE`: a run that is already there for this occurrence stays the only one. */
  function InsertOrIgnore(runs: Runs, runId: string, run: Run): Runs {
    if runId in runs || HasRunAt(runs, run.schedule, run.scheduledFor) then runs else runs[runId := run]
  }

  function Enqueue(db: Db, now: int, id: string, runId: string): Db {
    if id !in db.schedules || HasActive(db.runs, id) then db
    else
      var s := db.schedules[id];
      Db(db.schedules[id := Advance(s, now)], InsertOrIgnore(db.runs, runId, NewRun(id, s, now)))
  }

  function EnqueueAll(db: Db, now: int, due: seq<string>, ids: seq<string>): Db
    requires |due| <= |ids|
    decreases |due|
  {
    if due == [] then db else EnqueueAll(Enqueue(db, now, due[0], ids[0]), now, due[1..], ids[1..])
  }

  // ---- Handing out ----

  predicate Ready(db: Db, r: Run, now: int) {
    r.status.Queued? && r.availableAt <= now && r.schedule in db.schedules && db.schedules[r.schedule].deletedAt.None?
  }

  function HandOutRun(r: Run, now: int, lease: nat): Run {
    r.(status := Claimed, lease := Some(now + lease), attempt := r.attempt + 1)
  }

  function HandOut(db: Db, now: int, lease: nat, ready: seq<string>): Db {
    db.(runs := map id | id in db.runs ::
      if id in ready && db.runs[id].status.Queued? then HandOutRun(db.runs[id], now, lease) else db.runs[id])
  }

  // ---- `ORDER BY .. LIMIT` ----

  /** `chosen` are the first `limit` of `keys` in the order of `at`, ties in any order. */
  ghost predicate IsSelection(at: map<string, int>, limit: nat, chosen: seq<string>) {
    && |chosen| <= limit
    && (forall i, j :: 0 <= i < j < |chosen| ==> chosen[i] != chosen[j])
    && (forall i :: 0 <= i < |chosen| ==> chosen[i] in at)
    && (forall i, j :: 0 <= i < j < |chosen| && chosen[i] in at && chosen[j] in at ==> at[chosen[i]] <= at[chosen[j]])
    && (forall k :: k in at && k !in chosen ==>
        |chosen| == limit && (forall i :: 0 <= i < |chosen| && chosen[i] in at ==> at[chosen[i]] <= at[k]))
  }

  function DueTimes(db: Db, now: int): map<string, int> {
    map id | id in db.schedules && Due(db.schedules[id], now) :: db.schedules[id].nextRunAt
  }

  function ReadyTimes(db: Db, now: int): map<string, int> {
    map id | id in db.runs && Ready(db, db.runs[id], now) :: db.runs[id].scheduledFor
  }

  // ---- Completion and deletion ----

  function Pow2(n: nat): nat {
    if n == 0 then 1 else 2 * Pow2(n - 1)
  }

  function Backoff(attempt: nat): int {
    Min(300, 15 * Pow2(if attempt == 0 then 0 else attempt - 1))
  }

  datatype Report = Report(session: Option<string>, error: Option<string>, owner: Option<string>, retryable: bool)

  predicate OwnerConflict(r: Run, report: Report) {
    report.owner.Some? && r.owner.Some? && report.owner != r.owner
  }

  predicate Requeues(s: Schedule, r: Run, report: Report) {
    report.error.Some? && report.retryable && s.deletedAt.None? && r.attempt < MAX_ATTEMPTS
  }

  function CompleteRun(s: Schedule, r: Run, report: Report, now: int): Run {
    var owner := if r.owner.Some? then r.owner else report.owner;
    var requeued := Requeues(s, r, report);
    r.(status := if report.error.None? then Succeeded else if requeued then Queued else Failed,
       availableAt := if requeued then now + Backoff(r.attempt) else now,
       lease := None, session := report.session, owner := owner, error := report.error)
  }

  predicate CanComplete(db: Db, run: string, report: Report) {
    run in db.runs && db.runs[run].schedule in db.schedules && !OwnerConflict(db.runs[run], report)
  }

  function RemoveSchedule(db: Db, id: string): Db {
    Db(db.schedules - {id}, map r | r in db.runs && db.runs[r].schedule != id :: db.runs[r])
  }

  function Complete(db: Db, run: string, report: Report, now: int): Db {
    if !CanComplete(db, run, report) then db
    else
      var r := db.runs[run];
      var s := db.schedules[r.schedule];
      var r' := CompleteRun(s, r, report, now);
      var s' := s.(last := Last(Some(now), report.session, r'.owner, report.error));
      if s.deletedAt.Some? then RemoveSchedule(db, r.schedule)
      else Db(db.schedules[r.schedule := s'], db.runs[run := r'])
  }

  /** The rows that `delete_schedule` leaves before it looks for a running run. */
  function Tombstoned(db: Db, id: string, now: int): Db
    requires id in db.schedules
  {
    Db(db.schedules[id := db.schedules[id].(enabled := false, deletedAt := Some(now))],
       map r | r in db.runs && !(db.runs[r].schedule == id &&
                                 (db.runs[r].status.Queued? || db.runs[r].status.Claimed?)) :: db.runs[r])
  }

  predicate Unstarted(r: Run) {
    r.status.Queued? || r.status.Claimed?
  }

  predicate HasRunning(runs: Runs, schedule: string) {
    exists r :: r in runs && runs[r].schedule == schedule && runs[r].status.Running?
  }

  function Delete(db: Db, id: string, now: int): Db {
    if id !in db.schedules then db
    else
      var db' := Tombstoned(db, id, now);
      if HasRunning(db'.runs, id) then db' else RemoveSchedule(db', id)
  }

  function Mark(db: Db, run: string, now: int, lease: nat): Db {
    if run in db.runs && db.runs[run].status.Claimed?
    then db.(runs := db.runs[run := db.runs[run].(status := Running, lease := Some(now + lease))])
    else db
  }

  function Renew(db: Db, run: string, now: int, lease: nat): Db {
    if run in db.runs && db.runs[run].Leased()
    then db.(runs := db.runs[run := db.runs[run].(lease := Some(now + lease))])
    else db
  }

  function Create(db: Db, id: string, owner: Option<string>, at: int, period: nat): Db {
    db.(schedules := db.schedules[id := Schedule(owner, at, period, true, None, Last(None, None, None, None))])
  }

  // ---- Histories ----

  /** The parameters of one `claim_due_schedules` with the choices SQLite made. */
  datatype Claim = Claim(now: int, limit: nat, lease: nat, due: seq<string>, ids: seq<string>, ready: seq<string>)

  datatype Event =
    | Created(id: string, owner: Option<string>, at: int, period: nat)
    | Deleted(id: string, now: int)
    | ClaimedDue(claim: Claim)
    | Marked(run: string, now: int, lease: nat)
    | Renewed(run: string, now: int, lease: nat)
    | Completed(run: string, report: Report, now: int)

  /** The database, every run id ever drawn, and every (run, attempt) that a claim returned. */
  datatype World = World(db: Db, drawn: set<string>, handed: seq<(string, nat)>)

  const EMPTY := World(Db(map[], map[]), {}, [])

  function QueuedDb(db: Db, c: Claim): Db
    requires |c.due| <= |c.ids|
  {
    EnqueueAll(Recover(db, c.now), c.now, c.due, c.ids)
  }

  function Drawn(ids: seq<string>): set<string> {
    set id | id in ids
  }

  function Items(runs: Runs, ready: seq<string>): (items: seq<(string, nat)>)
    requires forall i :: 0 <= i < |ready| ==> ready[i] in runs
    ensures |items| == |ready|
    ensures forall i :: 0 <= i < |ready| ==> items[i] == (ready[i], runs[ready[i]].attempt + 1)
  {
    seq(|ready|, i requires 0 <= i < |ready| => (ready[i], runs[ready[i]].attempt + 1))
  }

  /** Ids are fresh and the choices are ones SQLite can make. */
  ghost predicate Legal(w: World, e: Event) {
    match e
    case Created(id, _, _, _) => id !in w.db.schedules
    case ClaimedDue(c) =>
      && |c.due| <= |c.ids|
      && IsSelection(DueTimes(Recover(w.db, c.now), c.now), c.limit, c.due)
      && (forall i, j :: 0 <= i < j < |c.ids| ==> c.ids[i] != c.ids[j])
      && (forall i :: 0 <= i < |c.ids| ==> c.ids[i] !in w.drawn)
      && IsSelection(ReadyTimes(QueuedDb(w.db, c), c.now), c.limit, c.ready)
    case _ => true
  }

  ghost function Step(w: World, e: Event): World
    requires Legal(w, e)
  {
    match e
    case Created(id, owner, at, period) => w.(db := Create(w.db, id, owner, at, period))
    case Deleted(id, now) => w.(db := Delete(w.db, id, now))
    case ClaimedDue(c) =>
      var queued := QueuedDb(w.db, c);
      World(HandOut(queued, c.now, c.lease, c.ready), w.drawn + Drawn(c.ids), w.handed + Items(queued.runs, c.ready))
    case Marked(run, now, lease) => w.(db := Mark(w.db, run, now, lease))
    case Renewed(run, now, lease) => w.(db := Renew(w.db, run, now, lease))
    case Completed(run, report, now) => w.(db := Complete(w.db, run, report, now))
  }

  ghost predicate LegalRun(w: World, es: seq<Event>)
    decreases |es|
  {
    es == [] || (Legal(w, es[0]) && LegalRun(Step(w, es[0]), es[1..]))
  }

  ghost function RunOf(w: World, es: seq<Event>): World
    requires LegalRun(w, es)
    decreases |es|
  {
    if es == [] then w else RunOf(Step(w, es[0]), es[1..])
  }

  // ---- Invariants ----

  /** Attempt bounds, a lease exactly while claimed or running, and an error on what failed but not on a success. */
  predicate RunOk(r: Run) {
    && (r.status.Queued? ==> r.attempt < MAX_ATTEMPTS)
    && (r.Leased() ==> 1 <= r.attempt <= MAX_ATTEMPTS)
    && (r.lease.Some? <==> r.Leased())
    && (r.status.Succeeded? ==> r.error.None?)
    && (r.status.Failed? ==> r.error.Some?)
  }

  predicate ScheduleOk(s: Schedule) {
    && (s.deletedAt.Some? ==> !s.enabled)
    && (s.period != 0 && s.deletedAt.None? ==> s.enabled)
  }

  /** Runs of a repeating schedule are in its past; a one-shot runs at its own time and is then disabled. */
  predicate Fits(s: Schedule, r: Run) {
    if s.period != 0 then r.scheduledFor < s.nextRunAt else r.scheduledFor == s.nextRunAt && !s.enabled
  }

  predicate Linked(db: Db, r: Run) {
    r.schedule in db.schedules && Fits(db.schedules[r.schedule], r)
  }

  predicate Spent(s: Schedule) {
    s.period == 0 && !s.enabled && s.deletedAt.None?
  }

  predicate SameOccurrence(a: Run, b: Run) {
    a.schedule == b.schedule && a.scheduledFor == b.scheduledFor
  }

  predicate BothActive(a: Run, b: Run) {
    a.schedule == b.schedule && a.Active() && b.Active()
  }

  ghost predicate OccurrencesUnique(runs: Runs) {
    forall a, b :: a in runs && b in runs && a != b ==> !SameOccurrence(runs[a], runs[b])
  }

  ghost predicate NoOverlap(runs: Runs) {
    forall a, b :: a in runs && b in runs && a != b ==> !BothActive(runs[a], runs[b])
  }

  /** What every history keeps, however late completions arrive. */
  ghost predicate Sound(db: Db) {
    && (forall r :: r in db.runs ==> RunOk(db.runs[r]) && Linked(db, db.runs[r]))
    && (forall s :: s in db.schedules ==> ScheduleOk(db.schedules[s]))
    && (forall s :: s in db.schedules && Spent(db.schedules[s]) ==> HasRunAt(db.runs, s, db.schedules[s].nextRunAt))
    && OccurrencesUnique(db.runs)
  }

  // ---- Arithmetic of catching up ----

  lemma FloorSteps(d: int, p: int)
    requires p > 0
    ensures 0 <= d - (d / p) * p < p
    ensures (d >= 0) ==> d / p >= 0
  {
    assert d == (d / p) * p + d % p;
  }

  lemma {:induction false} AddPeriods(a: int, k: nat, p: int)
    requires p > 0
    ensures (a + k * p) % p == a % p
  {
    if k == 0 {
      assert a + 0 * p == a;
    } else {
      AddPeriods(a, k - 1, p);
      var b := a + (k - 1) * p;
      assert a + k * p == b + p;
      AddPeriod(b, p);
    }
  }

  lemma AddPeriod(b: int, p: int)
    requires p > 0
    ensures (b + p) % p == b % p
  {
    var q, r := b / p, b % p;
    assert b + p == (q + 1) * p + r;
    DivisionUnique(b + p, p, q + 1, r);
  }

  lemma DivisionUnique(n: int, p: int, q: int, r: int)
    requires p > 0 && n == q * p + r && 0 <= r < p
    ensures n % p == r
  {
    var d, r' := n / p - q, n % p;
    assert n == (n / p) * p + r';
    assert d * p == (n / p) * p - q * p;
    SmallMultiple(d, p);
  }

  lemma SmallMultiple(d: int, p: int)
    requires p > 0 && -p < d * p < p
    ensures d == 0
  {
    if d > 0 {
      MultipleAtLeast(d, p);
    } else if d < 0 {
      MultipleAtLeast(-d, p);
    }
  }

  lemma {:induction false} MultipleAtLeast(d: int, p: int)
    requires d >= 1 && p > 0
    ensures d * p >= p
  {
    if d > 1 {
      MultipleAtLeast(d - 1, p);
      assert d * p == (d - 1) * p + p;
    }
  }

  /** However large the backlog, the next time is in phase and the first one after `now`. */
  lemma AdvanceSkipsTheBacklog(scheduledFor: int, period: nat, now: int)
    requires period > 0 && scheduledFor <= now
    ensures var next := NextTime(scheduledFor, period, now);
            && now < next <= now + period
            && next % period == scheduledFor % period
            && scheduledFor < next
  {
    FloorSteps(now - scheduledFor, period);
    var skipped := (now - scheduledFor) / period + 1;
    assert skipped * period == ((now - scheduledFor) / period) * period + period;
    AddPeriods(scheduledFor, skipped, period);
  }

  // ---- Every transaction keeps the database sound ----

  lemma RecoverRunFacts(r: Run, now: int)
    ensures SameOccurrence(r, RecoverRun(r, now))
    ensures RecoverRun(r, now).Active() ==> r.Active()
    ensures RunOk(r) ==> RunOk(RecoverRun(r, now))
    ensures RecoverRun(r, now).attempt == r.attempt
  {
  }

  lemma RecoverSound(db: Db, now: int)
    requires Sound(db)
    ensures Sound(Recover(db, now))
    ensures NoOverlap(db.runs) ==> NoOverlap(Recover(db, now).runs)
  {
    var runs := Recover(db, now).runs;
    MapRunsSound(db, runs) by {
      forall r | r in runs
        ensures SameOccurrence(runs[r], db.runs[r]) && RunOk(runs[r]) && (runs[r].Active() ==> db.runs[r].Active())
      {
        RecoverRunFacts(db.runs[r], now);
      }
    }
  }

  ghost predicate NoneRevived(before: Runs, after: Runs) {
    forall r :: r in before && r in after && after[r].Active() ==> before[r].Active()
  }

  /** Every run is replaced by a sound run of the same occurrence. */
  lemma MapRunsSound(db: Db, runs: Runs)
    requires Sound(db) && runs.Keys == db.runs.Keys
    requires forall r :: r in runs ==> SameOccurrence(runs[r], db.runs[r]) && RunOk(runs[r])
    ensures Sound(db.(runs := runs))
    ensures NoOverlap(db.runs) && NoneRevived(db.runs, runs) ==> NoOverlap(runs)
  {
    forall s | s in db.schedules && Spent(db.schedules[s]) ensures HasRunAt(runs, s, db.schedules[s].nextRunAt) {
      var r :| r in db.runs && db.runs[r].schedule == s && db.runs[r].scheduledFor == db.schedules[s].nextRunAt;
      assert r in runs && runs[r].schedule == s;
    }
    forall r | r in runs ensures Linked(db.(runs := runs), runs[r]) {
      assert Linked(db, db.runs[r]);
    }
    forall a, b | a in runs && b in runs && a != b
      ensures !SameOccurrence(runs[a], runs[b])
      ensures NoOverlap(db.runs) && NoneRevived(db.runs, runs) ==> !BothActive(runs[a], runs[b])
    {
      assert !SameOccurrence(db.runs[a], db.runs[b]);
      assert NoOverlap(db.runs) ==> !BothActive(db.runs[a], db.runs[b]);
    }
  }

  /** A due schedule with no active run has no run for the due occurrence, so the insert is never ignored. */
  lemma InsertIsNeverIgnored(db: Db, now: int, id: string)
    requires Sound(db) && id in db.schedules && Due(db.schedules[id], now)
    ensures !HasRunAt(db.runs, id, db.schedules[id].nextRunAt)
  {
    forall r | r in db.runs && db.runs[r].schedule == id ensures db.runs[r].scheduledFor != db.schedules[id].nextRunAt {
      assert Linked(db, db.runs[r]);
    }
  }

  lemma EnqueueSound(db: Db, now: int, id: string, runId: string)
    requires Sound(db) && id in db.schedules && Due(db.schedules[id], now) && runId !in db.runs
    ensures Sound(Enqueue(db, now, id, runId))
    ensures NoOverlap(db.runs) ==> NoOverlap(Enqueue(db, now, id, runId).runs)
  {
    if !HasActive(db.runs, id) {
      var db', s := Enqueue(db, now, id, runId), db.schedules[id];
      InsertIsNeverIgnored(db, now, id);
      assert db'.runs == db.runs[runId := NewRun(id, s, now)];
      EnqueueLinks(db, now, id, runId);
      forall k | k in db'.schedules && Spent(db'.schedules[k])
        ensures HasRunAt(db'.runs, k, db'.schedules[k].nextRunAt)
      {
        if k == id {
          assert runId in db'.runs;
        } else {
          var r :| r in db.runs && db.runs[r].schedule == k && db.runs[r].scheduledFor == db.schedules[k].nextRunAt;
          assert r in db'.runs && db'.runs[r] == db.runs[r];
        }
      }
    }
  }

  lemma EnqueueLinks(db: Db, now: int, id: string, runId: string)
    requires Sound(db) && id in db.schedules && Due(db.schedules[id], now) && runId !in db.runs
    ensures var db' := Enqueue(db, now, id, runId); forall r :: r in db'.runs ==> Linked(db', db'.runs[r])
  {
    var db', s := Enqueue(db, now, id, runId), db.schedules[id];
    if s.period > 0 { AdvanceSkipsTheBacklog(s.nextRunAt, s.period, now); }
    forall r | r in db'.runs ensures Linked(db', db'.runs[r]) {
      if r in db.runs { assert Linked(db, db.runs[r]); }
    }
  }

  /** Rows selected before the loop are still due when the loop reaches them. */
  predicate DueAll(db: Db, now: int, due: seq<string>) {
    forall i :: 0 <= i < |due| ==> due[i] in db.schedules && Due(db.schedules[due[i]], now)
  }

  ghost predicate FreshIds(runs: Runs, ids: seq<string>) {
    && (forall i, j :: 0 <= i < j < |ids| ==> ids[i] != ids[j])
    && (forall i :: 0 <= i < |ids| ==> ids[i] !in runs)
  }

  ghost predicate Distinct(xs: seq<string>) {
    forall i, j :: 0 <= i < j < |xs| ==> xs[i] != xs[j]
  }

  lemma EnqueueRest(db: Db, now: int, due: seq<string>, ids: seq<string>)
    requires due != [] && |due| <= |ids| && Distinct(due) && DueAll(db, now, due) && FreshIds(db.runs, ids)
    ensures DueAll(Enqueue(db, now, due[0], ids[0]), now, due[1..])
    ensures FreshIds(Enqueue(db, now, due[0], ids[0]).runs, ids[1..])
    ensures Distinct(due[1..])
  {
    var db' := Enqueue(db, now, due[0], ids[0]);
    forall i | 0 <= i < |due[1..]| ensures due[1..][i] in db'.schedules && Due(db'.schedules[due[1..][i]], now) {
      assert due[1..][i] == due[i + 1] != due[0];
    }
    forall i | 0 <= i < |ids[1..]| ensures ids[1..][i] !in db'.runs {
      assert ids[1..][i] == ids[i + 1] != ids[0];
    }
  }

  lemma {:induction false} EnqueueAllSound(db: Db, now: int, due: seq<string>, ids: seq<string>)
    requires Sound(db) && |due| <= |ids| && Distinct(due) && DueAll(db, now, due) && FreshIds(db.runs, ids)
    ensures Sound(EnqueueAll(db, now, due, ids))
    ensures NoOverlap(db.runs) ==> NoOverlap(EnqueueAll(db, now, due, ids).runs)
    decreases |due|
  {
    if due != [] {
      EnqueueSound(db, now, due[0], ids[0]);
      EnqueueRest(db, now, due, ids);
      EnqueueAllSound(Enqueue(db, now, due[0], ids[0]), now, due[1..], ids[1..]);
    }
  }

  lemma HandOutSound(db: Db, now: int, lease: nat, ready: seq<string>)
    requires Sound(db)
    ensures Sound(HandOut(db, now, lease, ready))
    ensures NoOverlap(db.runs) ==> NoOverlap(HandOut(db, now, lease, ready).runs)
  {
    MapRunsSound(db, HandOut(db, now, lease, ready).runs);
  }

  /** Replacing one run by a sound run of the same occurrence. */
  lemma ReplaceRunSound(db: Db, id: string, r: Run)
    requires Sound(db) && id in db.runs && SameOccurrence(r, db.runs[id]) && RunOk(r)
    ensures Sound(db.(runs := db.runs[id := r]))
    ensures NoOverlap(db.runs) && (r.Active() ==> db.runs[id].Active()) ==> NoOverlap(db.runs[id := r])
  {
    var runs := db.runs[id := r];
    assert Linked(db, db.runs[id]);
    MapRunsSound(db, runs);
  }

  /** Only the bookkeeping of a schedule changes. */
  lemma ReplaceLastSound(db: Db, id: string, last: Last)
    requires Sound(db) && id in db.schedules
    ensures Sound(db.(schedules := db.schedules[id := db.schedules[id].(last := last)]))
  {
    var schedules := db.schedules[id := db.schedules[id].(last := last)];
    forall r | r in db.runs ensures Linked(db.(schedules := schedules), db.runs[r]) {
      assert Linked(db, db.runs[r]);
    }
    forall s | s in schedules && Spent(schedules[s]) ensures HasRunAt(db.runs, s, schedules[s].nextRunAt) {
      assert Spent(db.schedules[s]);
    }
  }

  lemma RemoveScheduleSound(db: Db, id: string)
    requires forall r :: r in db.runs && db.runs[r].schedule != id ==> RunOk(db.runs[r]) && Linked(db, db.runs[r])
    requires forall s :: s in db.schedules && s != id ==> ScheduleOk(db.schedules[s])
    requires forall s :: s in db.schedules && s != id && Spent(db.schedules[s]) ==>
             HasRunAt(db.runs, s, db.schedules[s].nextRunAt)
    requires OccurrencesUnique(db.runs)
    ensures Sound(RemoveSchedule(db, id))
    ensures NoOverlap(db.runs) ==> NoOverlap(RemoveSchedule(db, id).runs)
  {
    var db' := RemoveSchedule(db, id);
    forall s | s in db'.schedules && Spent(db'.schedules[s]) ensures HasRunAt(db'.runs, s, db'.schedules[s].nextRunAt) {
      var r :| r in db.runs && db.runs[r].schedule == s && db.runs[r].scheduledFor == db.schedules[s].nextRunAt;
      assert r in db'.runs;
    }
    forall r | r in db'.runs ensures Linked(db', db'.runs[r]) {
      assert Linked(db, db.runs[r]);
    }
  }

  lemma CompleteSound(db: Db, run: string, report: Report, now: int)
    requires Sound(db)
    ensures Sound(Complete(db, run, report, now))
    ensures NoOverlap(db.runs) && (run in db.runs ==> db.runs[run].Active()) ==>
            NoOverlap(Complete(db, run, report, now).runs)
  {
    if CanComplete(db, run, report) {
      var r := db.runs[run];
      var s := db.schedules[r.schedule];
      var r' := CompleteRun(s, r, report, now);
      if s.deletedAt.Some? {
        RemoveScheduleSound(db, r.schedule);
      } else {
        ReplaceRunSound(db, run, r');
        ReplaceLastSound(db.(runs := db.runs[run := r']), r.schedule,
                         Last(Some(now), report.session, r'.owner, report.error));
      }
    }
  }

  lemma TombstonedSound(db: Db, id: string, now: int)
    requires Sound(db) && id in db.schedules
    ensures Sound(Tombstoned(db, id, now))
    ensures NoOverlap(db.runs) ==> NoOverlap(Tombstoned(db, id, now).runs)
  {
    var db' := Tombstoned(db, id, now);
    forall s | s in db'.schedules && Spent(db'.schedules[s]) ensures HasRunAt(db'.runs, s, db'.schedules[s].nextRunAt) {
      var r :| r in db.runs && db.runs[r].schedule == s && db.runs[r].scheduledFor == db.schedules[s].nextRunAt;
      assert s != id && r in db'.runs;
    }
    forall r | r in db'.runs ensures Linked(db', db'.runs[r]) {
      assert Linked(db, db.runs[r]);
    }
  }

  lemma DeleteSound(db: Db, id: string, now: int)
    requires Sound(db)
    ensures Sound(Delete(db, id, now))
    ensures NoOverlap(db.runs) ==> NoOverlap(Delete(db, id, now).runs)
  {
    if id in db.schedules {
      TombstonedSound(db, id, now);
      RemoveScheduleSound(Tombstoned(db, id, now), id);
    }
  }

  lemma CreateSound(db: Db, id: string, owner: Option<string>, at: int, period: nat)
    requires Sound(db) && id !in db.schedules
    ensures Sound(Create(db, id, owner, at, period))
  {
    var db' := Create(db, id, owner, at, period);
    forall r | r in db.runs ensures Linked(db', db.runs[r]) {
      assert Linked(db, db.runs[r]);
    }
    forall s | s in db'.schedules && Spent(db'.schedules[s]) ensures HasRunAt(db'.runs, s, db'.schedules[s].nextRunAt) {
      assert s in db.schedules && db'.schedules[s] == db.schedules[s];
    }
  }

  // ---- Whole histories ----

  ghost predicate IdsDrawn(w: World) {
    forall r :: r in w.db.runs ==> r in w.drawn
  }

  lemma ClaimFacts(w: World, c: Claim)
    requires Legal(w, ClaimedDue(c)) && IdsDrawn(w)
    ensures Distinct(c.due) && DueAll(Recover(w.db, c.now), c.now, c.due)
    ensures FreshIds(Recover(w.db, c.now).runs, c.ids)
  {
    var db := Recover(w.db, c.now);
    forall i | 0 <= i < |c.due| ensures c.due[i] in db.schedules && Due(db.schedules[c.due[i]], c.now) {
      assert c.due[i] in DueTimes(db, c.now);
    }
  }

  /** Runs appear only under drawn ids; the others keep their schedule and never lose attempts. */
  ghost predicate Grown(before: Runs, after: Runs, ids: set<string>) {
    forall r :: r in after ==>
      if r in before then after[r].attempt >= before[r].attempt && SameOccurrence(after[r], before[r]) else r in ids
  }

  lemma {:induction false} EnqueueAllGrown(db: Db, now: int, due: seq<string>, ids: seq<string>)
    requires |due| <= |ids|
    ensures forall r :: r in db.runs ==>
            r in EnqueueAll(db, now, due, ids).runs && EnqueueAll(db, now, due, ids).runs[r] == db.runs[r]
    ensures forall r :: r in EnqueueAll(db, now, due, ids).runs && r !in db.runs ==>
              r in Drawn(ids) && EnqueueAll(db, now, due, ids).runs[r].attempt == 0
    decreases |due|
  {
    if due != [] {
      var next := Enqueue(db, now, due[0], ids[0]);
      EnqueueAllGrown(next, now, due[1..], ids[1..]);
      forall r | r in Drawn(ids[1..]) ensures r in Drawn(ids) {
        var i :| 0 <= i < |ids[1..]| && ids[1..][i] == r;
        assert ids[i + 1] == r;
      }
    }
  }

  lemma ClaimGrown(w: World, c: Claim)
    requires IdsDrawn(w) && Legal(w, ClaimedDue(c))
    ensures Grown(w.db.runs, QueuedDb(w.db, c).runs, Drawn(c.ids))
    ensures forall r :: r in w.db.runs ==>
            r in QueuedDb(w.db, c).runs && QueuedDb(w.db, c).runs[r].attempt == w.db.runs[r].attempt
  {
    EnqueueAllGrown(Recover(w.db, c.now), c.now, c.due, c.ids);
    forall r | r in w.db.runs
      ensures RecoverRun(w.db.runs[r], c.now).attempt == w.db.runs[r].attempt &&
              SameOccurrence(RecoverRun(w.db.runs[r], c.now), w.db.runs[r])
    {
      RecoverRunFacts(w.db.runs[r], c.now);
    }
  }

  lemma StepGrown(w: World, e: Event)
    requires IdsDrawn(w) && Legal(w, e)
    ensures IdsDrawn(Step(w, e))
    ensures w.drawn <= Step(w, e).drawn
    ensures Grown(w.db.runs, Step(w, e).db.runs, Step(w, e).drawn - w.drawn)
  {
    if e.ClaimedDue? {
      var c := e.claim;
      ClaimGrown(w, c);
      var queued := QueuedDb(w.db, c).runs;
      var runs := HandOut(QueuedDb(w.db, c), c.now, c.lease, c.ready).runs;
      forall r | r in runs
        ensures if r in w.db.runs then runs[r].attempt >= w.db.runs[r].attempt &&
                SameOccurrence(runs[r], w.db.runs[r]) else r in Drawn(c.ids) - w.drawn
      {
        assert r in queued && SameOccurrence(runs[r], queued[r]);
      }
    } else if e.Completed? {
      CompleteGrown(w.db, e.run, e.report, e.now);
    }
  }

  lemma CompleteGrown(db: Db, run: string, report: Report, now: int)
    ensures Grown(db.runs, Complete(db, run, report, now).runs, {})
  {
  }

  /** `complete_schedule` is called only on a run that has not already ended. */
  predicate Orderly(w: World, e: Event) {
    e.Completed? && e.run in w.db.runs ==> w.db.runs[e.run].Active()
  }

  lemma ClaimSound(w: World, c: Claim)
    requires Sound(w.db) && IdsDrawn(w) && Legal(w, ClaimedDue(c))
    ensures Sound(QueuedDb(w.db, c)) && Sound(HandOut(QueuedDb(w.db, c), c.now, c.lease, c.ready))
    ensures NoOverlap(w.db.runs) ==> NoOverlap(HandOut(QueuedDb(w.db, c), c.now, c.lease, c.ready).runs)
  {
    RecoverSound(w.db, c.now);
    ClaimFacts(w, c);
    EnqueueAllSound(Recover(w.db, c.now), c.now, c.due, c.ids);
    HandOutSound(QueuedDb(w.db, c), c.now, c.lease, c.ready);
  }

  lemma LeaseSound(db: Db, run: string, now: int, lease: nat)
    requires Sound(db)
    ensures Sound(Mark(db, run, now, lease)) && Sound(Renew(db, run, now, lease))
    ensures NoOverlap(db.runs) ==>
            NoOverlap(Mark(db, run, now, lease).runs) && NoOverlap(Renew(db, run, now, lease).runs)
  {
    if run in db.runs && db.runs[run].Leased() {
      ReplaceRunSound(db, run, db.runs[run].(lease := Some(now + lease)));
      ReplaceRunSound(db, run, db.runs[run].(status := Running, lease := Some(now + lease)));
    }
  }

  lemma StepSound(w: World, e: Event)
    requires Sound(w.db) && IdsDrawn(w) && Legal(w, e)
    ensures Sound(Step(w, e).db)
    ensures NoOverlap(w.db.runs) && Orderly(w, e) ==> NoOverlap(Step(w, e).db.runs)
  {
    match e {
      case Created(id, owner, at, period) => CreateSound(w.db, id, owner, at, period);
      case Deleted(id, now) => DeleteSound(w.db, id, now);
      case ClaimedDue(c) => ClaimSound(w, c);
      case Marked(run, now, lease) => LeaseSound(w.db, run, now, lease);
      case Renewed(run, now, lease) => LeaseSound(w.db, run, now, lease);
      case Completed(run, report, now) => CompleteSound(w.db, run, report, now);
    }
  }

  ghost predicate OrderlyRun(w: World, es: seq<Event>)
    requires LegalRun(w, es)
    decreases |es|
  {
    es == [] || (Orderly(w, es[0]) && OrderlyRun(Step(w, es[0]), es[1..]))
  }

  /** The database stays sound in every history, late completions included. */
  lemma {:induction false} HistoriesAreSound(w: World, es: seq<Event>)
    requires Sound(w.db) && IdsDrawn(w) && LegalRun(w, es)
    ensures Sound(RunOf(w, es).db) && IdsDrawn(RunOf(w, es))
    decreases |es|
  {
    if es != [] {
      StepSound(w, es[0]);
      StepGrown(w, es[0]);
      HistoriesAreSound(Step(w, es[0]), es[1..]);
    }
  }

  /** No overlap: a schedule never has two runs in queued, claimed or running. */
  lemma {:induction false} NeverTwoActive(w: World, es: seq<Event>)
    requires Sound(w.db) && IdsDrawn(w) && NoOverlap(w.db.runs) && LegalRun(w, es) && OrderlyRun(w, es)
    ensures NoOverlap(RunOf(w, es).db.runs)
    decreases |es|
  {
    if es != [] {
      StepSound(w, es[0]);
      StepGrown(w, es[0]);
      NeverTwoActive(Step(w, es[0]), es[1..]);
    }
  }

  /** Exactly when one completion breaks the rule: an ended run is requeued while another is active. */
  lemma OverlapExact(db: Db, run: string, report: Report, now: int)
    requires Sound(db) && NoOverlap(db.runs) && CanComplete(db, run, report)
    ensures NoOverlap(Complete(db, run, report, now).runs) <==>
            !(var r := db.runs[run];
              !r.Active() && Requeues(db.schedules[r.schedule], r, report) && HasActive(db.runs, r.schedule))
  {
    var r := db.runs[run];
    var s := db.schedules[r.schedule];
    var runs := Complete(db, run, report, now).runs;
    CompleteSound(db, run, report, now);
    if !r.Active() && Requeues(s, r, report) {
      assert runs == db.runs[run := CompleteRun(s, r, report, now)];
      if HasActive(db.runs, r.schedule) {
        var other :| other in db.runs && db.runs[other].schedule == r.schedule && db.runs[other].Active();
        assert BothActive(runs[run], runs[other]);
      } else {
        forall a, b | a in runs && b in runs && a != b ensures !BothActive(runs[a], runs[b]) {
          assert !BothActive(db.runs[a], db.runs[b]);
        }
      }
    } else if !r.Active() && s.deletedAt.None? {
      forall a, b | a in runs && b in runs && a != b ensures !BothActive(runs[a], runs[b]) {
        assert !BothActive(db.runs[a], db.runs[b]);
      }
    }
  }

  // ---- Occurrences ----

  /** A claim on a lone due schedule whose runs have all succeeded creates one run and hands it out. */
  lemma QueuesFirst(w: World, id: string, run: string, now: int)
    requires w.db.schedules.Keys == {id} && Due(w.db.schedules[id], now)
    requires forall r :: r in w.db.runs ==> w.db.runs[r].status.Succeeded? && r in w.drawn
    requires run !in w.drawn && !HasRunAt(w.db.runs, id, w.db.schedules[id].nextRunAt)
    ensures var s := w.db.schedules[id];
            && Recover(w.db, now) == w.db && DueTimes(w.db, now).Keys == {id}
            && QueuedDb(w.db, Claim(now, 1, 90, [id], [run], [run]))
               == Db(w.db.schedules[id := Advance(s, now)], w.db.runs[run := NewRun(id, s, now)])
  {
    var queued := Enqueue(w.db, now, id, run);
    assert Recover(w.db, now).runs == w.db.runs;
    assert [id][1..] == [] && [run][1..] == [];
    assert QueuedDb(w.db, Claim(now, 1, 90, [id], [run], [run])) == EnqueueAll(queued, now, [], []) == queued;
  }

  lemma ClaimFirst(w: World, id: string, run: string, now: int)
    requires w.db.schedules.Keys == {id} && Due(w.db.schedules[id], now)
    requires forall r :: r in w.db.runs ==> w.db.runs[r].status.Succeeded? && r in w.drawn
    requires run !in w.drawn && !HasRunAt(w.db.runs, id, w.db.schedules[id].nextRunAt)
    ensures var e, s := ClaimedDue(Claim(now, 1, 90, [id], [run], [run])), w.db.schedules[id];
            && Legal(w, e)
            && Step(w, e).db == Db(map[id := Advance(s, now)],
                                   w.db.runs[run := HandOutRun(NewRun(id, s, now), now, 90)])
            && Step(w, e).drawn == w.drawn + {run}
  {
    var c := Claim(now, 1, 90, [id], [run], [run]);
    var s := w.db.schedules[id];
    QueuesFirst(w, id, run, now);
    var queued := QueuedDb(w.db, c);
    assert ReadyTimes(queued, now).Keys == {run};
    var out := HandOut(queued, now, 90, [run]);
    assert out.runs == w.db.runs[run := HandOutRun(NewRun(id, s, now), now, 90)];
    assert queued.schedules == map[id := Advance(s, now)];
    assert Drawn([run]) == {run};
  }

  function ReportOf(error: Option<string>): Report {
    Report(None, error, None, true)
  }

  function ClaimOf(now: int, id: string, run: string): Event {
    ClaimedDue(Claim(now, 1, 90, [id], [run], [run]))
  }

  /** The state after the run `a` of the repeating schedule `id` has succeeded, before the next occurrence. */
  ghost predicate HasSucceeded(w: World, id: string, a: string, next: int) {
    && w.db.schedules.Keys == {id} && w.db.schedules[id].enabled && w.db.schedules[id].deletedAt.None?
    && w.db.schedules[id].nextRunAt == next
    && w.db.runs.Keys == {a} && w.drawn == {a}
    && var r := w.db.runs[a];
       r.schedule == id && r.scheduledFor < next && r.status.Succeeded? && r.attempt == 1 && r.owner.None?
  }

  lemma FirstRunClaimed(id: string, a: string)
    ensures var e1, e2 := Created(id, None, 0, 60), ClaimOf(0, id, a);
            && Legal(EMPTY, e1) && Legal(Step(EMPTY, e1), e2)
            && var w := Step(Step(EMPTY, e1), e2);
               && w.db.schedules.Keys == {id} && w.db.runs.Keys == {a} && w.drawn == {a}
               && w.db.schedules[id] == Advance(Schedule(None, 0, 60, true, None, Last(None, None, None, None)), 0)
               && w.db.runs[a] == Run(id, 0, Claimed, 0, Some(90), 1, None, None, None)
  {
    var w1 := Step(EMPTY, Created(id, None, 0, 60));
    assert w1.db.schedules.Keys == {id} && w1.db.runs == map[];
    ClaimFirst(w1, id, a, 0);
  }

  lemma RunSucceeds(w: World, id: string, a: string, now: int)
    requires w.db.schedules.Keys == {id} && w.db.runs.Keys == {a} && w.drawn == {a}
    requires w.db.schedules[id] == Advance(Schedule(None, 0, 60, true, None, Last(None, None, None, None)), 0)
    requires w.db.runs[a] == Run(id, 0, Claimed, 0, Some(90), 1, None, None, None)
    ensures HasSucceeded(Step(w, Completed(a, ReportOf(None), now)), id, a, 60)
  {
  }

  lemma LateReport(w: World, id: string, a: string, b: string, next: int, now: int)
    requires HasSucceeded(w, id, a, next) && a != b
    ensures Legal(w, ClaimOf(next, id, b))
    ensures !NoOverlap(Step(Step(w, ClaimOf(next, id, b)), Completed(a, ReportOf(Some("late")), now)).db.runs)
  {
    ClaimFirst(w, id, b, next);
    var w4 := Step(w, ClaimOf(next, id, b));
    assert w4.db.runs[a] == w.db.runs[a] && w4.db.runs[b].status.Claimed?;
    var w5 := Step(w4, Completed(a, ReportOf(Some("late")), now));
    assert BothActive(w5.db.runs[a], w5.db.runs[b]);
  }

  lemma {:induction false} FiveEvents(w: World, e1: Event, e2: Event, e3: Event, e4: Event, e5: Event)
    requires Legal(w, e1) && Legal(Step(w, e1), e2) && Legal(Step(Step(w, e1), e2), e3)
    requires Legal(Step(Step(Step(w, e1), e2), e3), e4) && Legal(Step(Step(Step(Step(w, e1), e2), e3), e4), e5)
    ensures var es := [e1, e2, e3, e4, e5];
            LegalRun(w, es) && RunOf(w, es) == Step(Step(Step(Step(Step(w, e1), e2), e3), e4), e5)
  {
    var w1 := Step(w, e1);
    var w2 := Step(w1, e2);
    var w3 := Step(w2, e3);
    FirstEvent(Step(w3, e4), e5, []);
    FirstEvent(w3, e4, [e5]);
    FirstEvent(w2, e3, [e4, e5]);
    FirstEvent(w1, e2, [e3, e4, e5]);
    FirstEvent(w, e1, [e2, e3, e4, e5]);
    assert [e5] + [] == [e5] && [e4] + [e5] == [e4, e5] && [e3] + [e4, e5] == [e3, e4, e5];
    assert [e2] + [e3, e4, e5] == [e2, e3, e4, e5] && [e1] + [e2, e3, e4, e5] == [e1, e2, e3, e4, e5];
  }

  /**
   A history that breaks the rule: a run succeeds, the next occurrence is handed out, and then a late report
   says of the first run that it failed and may be retried.
   */
  lemma LateReportOverlaps(id: string, a: string, b: string)
    requires a != b
    ensures var es := [Created(id, None, 0, 60), ClaimOf(0, id, a), Completed(a, ReportOf(None), 10),
                       ClaimOf(60, id, b), Completed(a, ReportOf(Some("late")), 70)];
            LegalRun(EMPTY, es) && !NoOverlap(RunOf(EMPTY, es).db.runs)
  {
    FirstRunClaimed(id, a);
    var w2 := Step(Step(EMPTY, Created(id, None, 0, 60)), ClaimOf(0, id, a));
    RunSucceeds(w2, id, a, 10);
    LateReport(Step(w2, Completed(a, ReportOf(None), 10)), id, a, b, 60, 70);
    FiveEvents(EMPTY, Created(id, None, 0, 60), ClaimOf(0, id, a), Completed(a, ReportOf(None), 10),
               ClaimOf(60, id, b), Completed(a, ReportOf(Some("late")), 70));
  }

  lemma FirstEvent(w: World, e: Event, es: seq<Event>)
    requires Legal(w, e) && LegalRun(Step(w, e), es)
    ensures LegalRun(w, [e] + es) && RunOf(w, [e] + es) == RunOf(Step(w, e), es)
  {
    assert ([e] + es)[1..] == es;
  }

  /** In every history a spent one-shot has exactly one run, at its own time. */
  lemma OneShotRunsOnce(w: World, es: seq<Event>, id: string)
    requires Sound(w.db) && IdsDrawn(w) && LegalRun(w, es)
    requires id in RunOf(w, es).db.schedules && Spent(RunOf(w, es).db.schedules[id])
    ensures var db := RunOf(w, es).db;
            exists r :: r in db.runs && db.runs[r].schedule == id &&
              db.runs[r].scheduledFor == db.schedules[id].nextRunAt
              && forall q :: q in db.runs && db.runs[q].schedule == id ==> q == r
  {
    HistoriesAreSound(w, es);
    var db := RunOf(w, es).db;
    var r :| r in db.runs && db.runs[r].schedule == id && db.runs[r].scheduledFor == db.schedules[id].nextRunAt;
    forall q | q in db.runs && db.runs[q].schedule == id ensures q == r {
      assert Linked(db, db.runs[q]);
      assert SameOccurrence(db.runs[q], db.runs[r]);
    }
  }

  ghost predicate SameRunsOf(before: Runs, after: Runs, id: string) {
    forall r :: (r in before && before[r].schedule == id <==> r in after && after[r].schedule == id)
             && (r in before && before[r].schedule == id && r in after ==> after[r] == before[r])
  }

  lemma {:induction false} EnqueueAllFrame(db: Db, now: int, due: seq<string>, ids: seq<string>, id: string)
    requires |due| <= |ids| && id !in due && FreshIds(db.runs, ids)
    ensures var after := EnqueueAll(db, now, due, ids);
            && SameRunsOf(db.runs, after.runs, id)
            && (id in after.schedules <==> id in db.schedules)
            && (id in db.schedules ==> after.schedules[id] == db.schedules[id])
    decreases |due|
  {
    if due != [] {
      var next := Enqueue(db, now, due[0], ids[0]);
      assert FreshIds(next.runs, ids[1..]);
      EnqueueAllFrame(next, now, due[1..], ids[1..], id);
    }
  }

  /** The backlog of `id`, however long, becomes one run for the due occurrence. */
  ghost predicate BecameOneRun(before: Db, after: Db, id: string, now: int)
    requires id in before.schedules
  {
    exists r :: OnlyNewRun(before, after, id, r)
      && after.runs[r] == Run(id, before.schedules[id].nextRunAt, Queued, now, None, 0, None,
                              before.schedules[id].owner, None)
  }

  ghost predicate OnlyNewRun(before: Db, after: Db, id: string, r: string) {
    && r !in before.runs && r in after.runs && after.runs[r].schedule == id
    && (forall q :: q in after.runs && after.runs[q].schedule == id && q != r ==> q in before.runs)
  }

  lemma {:induction false} EnqueueAllHits(db: Db, now: int, due: seq<string>, ids: seq<string>, id: string)
    requires Sound(db) && |due| <= |ids| && Distinct(due) && DueAll(db, now, due) && FreshIds(db.runs, ids)
    requires id in due && id in db.schedules && !HasActive(db.runs, id)
    ensures var after := EnqueueAll(db, now, due, ids);
            && BecameOneRun(db, after, id, now)
            && id in after.schedules && after.schedules[id] == Advance(db.schedules[id], now)
    decreases |due|
  {
    var next := Enqueue(db, now, due[0], ids[0]);
    var after := EnqueueAll(db, now, due, ids);
    EnqueueRest(db, now, due, ids);
    EnqueueSound(db, now, due[0], ids[0]);
    if due[0] == id {
      InsertIsNeverIgnored(db, now, id);
      assert id !in due[1..];
      EnqueueAllFrame(next, now, due[1..], ids[1..], id);
      assert ids[0] in next.runs && next.runs[ids[0]] == NewRun(id, db.schedules[id], now);
      assert ids[0] in after.runs && after.runs[ids[0]] == NewRun(id, db.schedules[id], now);
      assert OnlyNewRun(db, after, id, ids[0]);
    } else {
      assert id in due[1..];
      assert !HasActive(next.runs, id);
      EnqueueAllHits(next, now, due[1..], ids[1..], id);
      var r :| OnlyNewRun(next, after, id, r)
        && after.runs[r] == Run(id, next.schedules[id].nextRunAt, Queued, now, None, 0, None,
                                next.schedules[id].owner, None);
      EnqueueAllGrown(next, now, due[1..], ids[1..]);
      assert OnlyNewRun(db, after, id, r);
    }
  }

  /**
   No occurrence is lost or doubled: every selected schedule that is idle after recovery gets exactly
   one new run, for the time that was due, and its next time is in phase and after `now`.
   */
  lemma BacklogBecomesOneRun(w: World, c: Claim, id: string)
    requires Sound(w.db) && IdsDrawn(w) && Legal(w, ClaimedDue(c))
    requires id in c.due && id in w.db.schedules && !HasActive(Recover(w.db, c.now).runs, id)
    ensures BecameOneRun(w.db, QueuedDb(w.db, c), id, c.now)
    ensures id in QueuedDb(w.db, c).schedules
    ensures var s, s' := w.db.schedules[id], QueuedDb(w.db, c).schedules[id];
            if s.period == 0 then !s'.enabled && s'.nextRunAt == s.nextRunAt
            else s'.enabled && c.now < s'.nextRunAt <= c.now + s.period &&
                 s'.nextRunAt % s.period == s.nextRunAt % s.period
    ensures var s, s' := w.db.schedules[id], QueuedDb(w.db, c).schedules[id];
            s'.owner == s.owner && s'.period == s.period && s'.deletedAt.None? && s'.last == s.last.(error := None)
  {
    var db := Recover(w.db, c.now);
    var s := w.db.schedules[id];
    RecoverSound(w.db, c.now);
    ClaimFacts(w, c);
    assert id in db.schedules && Due(db.schedules[id], c.now);
    EnqueueAllHits(db, c.now, c.due, c.ids, id);
    var after := QueuedDb(w.db, c);
    var r :| OnlyNewRun(db, after, id, r)
      && after.runs[r] == Run(id, s.nextRunAt, Queued, c.now, None, 0, None, s.owner, None);
    assert OnlyNewRun(w.db, after, id, r);
    if s.period != 0 { AdvanceSkipsTheBacklog(s.nextRunAt, s.period, c.now); }
  }

  // ---- Hand-outs ----

  /** Each returned attempt is between 1 and 3 and is returned once; the run has reached it. */
  ghost predicate HandedOnce(w: World) {
    OnceEach(w.handed, w.drawn, w.db.runs)
  }

  ghost predicate OnceEach(handed: seq<(string, nat)>, drawn: set<string>, runs: Runs) {
    && (forall i, j :: 0 <= i < j < |handed| ==> handed[i] != handed[j])
    && (forall i :: 0 <= i < |handed| ==>
        1 <= handed[i].1 <= MAX_ATTEMPTS && handed[i].0 in drawn && Reached(runs, handed[i]))
  }

  predicate Reached(runs: Runs, h: (string, nat)) {
    h.0 in runs ==> h.1 <= runs[h.0].attempt
  }

  predicate QueuedItem(runs: Runs, h: (string, nat)) {
    h.0 in runs && runs[h.0].status.Queued? && h.1 == runs[h.0].attempt + 1
  }

  lemma ItemsAreQueued(db: Db, c: Claim)
    requires Sound(db)
    requires IsSelection(ReadyTimes(db, c.now), c.limit, c.ready)
    ensures forall i :: 0 <= i < |c.ready| ==>
              c.ready[i] in db.runs && QueuedItem(db.runs, (c.ready[i], db.runs[c.ready[i]].attempt + 1)) &&
              db.runs[c.ready[i]].attempt < MAX_ATTEMPTS
  {
    forall i | 0 <= i < |c.ready|
      ensures c.ready[i] in db.runs && db.runs[c.ready[i]].status.Queued? && RunOk(db.runs[c.ready[i]])
    {
      assert c.ready[i] in ReadyTimes(db, c.now);
    }
  }

  /** Attempts that are one ahead of `runs` were not returned before, and are reached once claimed. */
  lemma AppendHandedOnce(runs: Runs, after: Runs, handed: seq<(string, nat)>, items: seq<(string, nat)>,
                         drawn: set<string>)
    requires OnceEach(handed, drawn, runs) && OnceEach(items, drawn, after)
    requires forall i :: 0 <= i < |handed| ==> Reached(after, handed[i])
    requires forall i :: 0 <= i < |items| ==> QueuedItem(runs, items[i])
    ensures OnceEach(handed + items, drawn, after)
  {
    forall i, j | 0 <= i < j < |handed + items| ensures (handed + items)[i] != (handed + items)[j] {
      if j >= |handed| {
        var item := items[j - |handed|];
        assert QueuedItem(runs, item);
        if i < |handed| { assert Reached(runs, handed[i]); }
      }
    }
  }

  /** What was handed out before stays reached. */
  lemma HandedStays(w: World, c: Claim)
    requires Sound(w.db) && IdsDrawn(w) && HandedOnce(w) && Legal(w, ClaimedDue(c))
    ensures forall i :: 0 <= i < |w.handed| ==>
              Reached(QueuedDb(w.db, c).runs, w.handed[i]) &&
              Reached(HandOut(QueuedDb(w.db, c), c.now, c.lease, c.ready).runs, w.handed[i])
  {
    var queued := QueuedDb(w.db, c);
    ClaimGrown(w, c);
    forall i | 0 <= i < |w.handed|
      ensures Reached(queued.runs, w.handed[i]) && Reached(HandOut(queued, c.now, c.lease, c.ready).runs, w.handed[i])
    {
      if w.handed[i].0 in queued.runs { assert w.handed[i].0 in w.db.runs; }
    }
  }

  lemma ItemsAreReached(db: Db, c: Claim, drawn: set<string>)
    requires Sound(db) && IsSelection(ReadyTimes(db, c.now), c.limit, c.ready)
    requires forall r :: r in db.runs ==> r in drawn
    ensures OnceEach(Items(db.runs, c.ready), drawn, HandOut(db, c.now, c.lease, c.ready).runs)
  {
    ItemsAreQueued(db, c);
    var items, after := Items(db.runs, c.ready), HandOut(db, c.now, c.lease, c.ready).runs;
    forall i | 0 <= i < |items|
      ensures items[i].0 in drawn && Reached(after, items[i]) && 1 <= items[i].1 <= MAX_ATTEMPTS
    {
      assert c.ready[i] in c.ready;
    }
  }

  lemma ClaimHandsOutOnce(w: World, c: Claim)
    requires Sound(w.db) && IdsDrawn(w) && HandedOnce(w) && Legal(w, ClaimedDue(c))
    ensures HandedOnce(Step(w, ClaimedDue(c)))
  {
    var queued := QueuedDb(w.db, c);
    var items, drawn := Items(queued.runs, c.ready), w.drawn + Drawn(c.ids);
    ClaimSound(w, c);
    ClaimGrown(w, c);
    HandedStays(w, c);
    ItemsAreQueued(queued, c);
    ItemsAreReached(queued, c, drawn);
    AppendHandedOnce(queued.runs, HandOut(queued, c.now, c.lease, c.ready).runs, w.handed, items, drawn);
  }

  lemma StepHandsOutOnce(w: World, e: Event)
    requires Sound(w.db) && IdsDrawn(w) && HandedOnce(w) && Legal(w, e)
    ensures HandedOnce(Step(w, e))
  {
    if e.ClaimedDue? {
      ClaimHandsOutOnce(w, e.claim);
    } else {
      StepGrown(w, e);
      var w' := Step(w, e);
      forall i | 0 <= i < |w'.handed| ensures Reached(w'.db.runs, w'.handed[i]) && w'.handed[i].0 in w'.drawn {
        assert Reached(w.db.runs, w.handed[i]);
      }
    }
  }

  lemma {:induction false} EveryAttemptHandedOnce(w: World, es: seq<Event>)
    requires Sound(w.db) && IdsDrawn(w) && HandedOnce(w) && LegalRun(w, es)
    ensures HandedOnce(RunOf(w, es))
    decreases |es|
  {
    if es != [] {
      StepSound(w, es[0]);
      StepGrown(w, es[0]);
      StepHandsOutOnce(w, es[0]);
      EveryAttemptHandedOnce(Step(w, es[0]), es[1..]);
    }
  }

  function HandOuts(handed: seq<(string, nat)>, run: string): seq<nat> {
    if handed == [] then []
    else if handed[0].0 == run then [handed[0].1] + HandOuts(handed[1..], run)
    else HandOuts(handed[1..], run)
  }

  lemma {:induction false} HandOutsCount(handed: seq<(string, nat)>, run: string)
    requires forall i, j :: 0 <= i < j < |handed| ==> handed[i] != handed[j]
    ensures |HandOuts(handed, run)| == |AttemptsOf(handed, run)|
  {
    if handed != [] {
      var first, rest := handed[0], handed[1..];
      HandOutsCount(rest, run);
      assert handed == [first] + rest;
      assert first !in rest;
      if first.0 == run {
        assert AttemptsOf(handed, run) == AttemptsOf(rest, run) + {first.1};
        assert first.1 !in AttemptsOf(rest, run);
      } else {
        assert AttemptsOf(handed, run) == AttemptsOf(rest, run);
      }
    }
  }

  lemma HandOutsBounded(handed: seq<(string, nat)>, run: string)
    requires forall i, j :: 0 <= i < j < |handed| ==> handed[i] != handed[j]
    requires forall i :: 0 <= i < |handed| ==> 1 <= handed[i].1 <= MAX_ATTEMPTS
    ensures |HandOuts(handed, run)| == |AttemptsOf(handed, run)| <= MAX_ATTEMPTS
  {
    HandOutsCount(handed, run);
    AttemptsFit(AttemptsOf(handed, run));
  }

  function AttemptsOf(handed: seq<(string, nat)>, run: string): set<nat> {
    set h | h in handed && h.0 == run :: h.1
  }

  lemma AttemptsFit(attempts: set<nat>)
    requires forall a :: a in attempts ==> 1 <= a <= MAX_ATTEMPTS
    ensures |attempts| <= MAX_ATTEMPTS
  {
    assert attempts <= {1, 2, 3};
    SubsetCardinality(attempts, {1, 2, 3});
  }

  /** In every history that starts empty, a run is handed out at most three times, even with late completions. */
  lemma AtMostThreeHandOuts(es: seq<Event>, run: string)
    requires LegalRun(EMPTY, es)
    ensures |HandOuts(RunOf(EMPTY, es).handed, run)| <= MAX_ATTEMPTS
  {
    EveryAttemptHandedOnce(EMPTY, es);
    HandOutsBounded(RunOf(EMPTY, es).handed, run);
  }

  // ---- Tombstones ----

  function RunsOf(runs: Runs, id: string): set<string> {
    set r | r in runs && runs[r].schedule == id
  }

  predicate Dead(db: Db, id: string) {
    id in db.schedules ==> db.schedules[id].deletedAt.Some?
  }

  /** `id` is deleted, its runs are among `owned`, and nothing past position `from` of the log is one of them. */
  ghost predicate StaysDead(w: World, id: string, owned: set<string>, from: nat) {
    && Dead(w.db, id) && owned <= w.drawn
    && (forall r :: r in w.db.runs ==> (w.db.runs[r].schedule == id <==> r in owned))
    && from <= |w.handed| && (forall i :: from <= i < |w.handed| ==> w.handed[i].0 !in owned)
  }

  lemma DeadIsNotDue(w: World, c: Claim, id: string, owned: set<string>, from: nat)
    requires Sound(w.db) && IdsDrawn(w) && Legal(w, ClaimedDue(c)) && StaysDead(w, id, owned, from)
    ensures Dead(QueuedDb(w.db, c), id)
    ensures forall r :: r in QueuedDb(w.db, c).runs ==> (QueuedDb(w.db, c).runs[r].schedule == id <==> r in owned)
    ensures forall i :: 0 <= i < |c.ready| ==> c.ready[i] !in owned
  {
    var db, queued := Recover(w.db, c.now), QueuedDb(w.db, c);
    ClaimFacts(w, c);
    forall i | 0 <= i < |c.due| ensures c.due[i] != id {
      assert c.due[i] in DueTimes(db, c.now);
    }
    EnqueueAllFrame(db, c.now, c.due, c.ids, id);
    EnqueueAllGrown(db, c.now, c.due, c.ids);
    forall r | r in queued.runs ensures queued.runs[r].schedule == id <==> r in owned {
      if r in w.db.runs { RecoverRunFacts(w.db.runs[r], c.now); }
      else { assert r in Drawn(c.ids); }
    }
    forall i | 0 <= i < |c.ready| ensures c.ready[i] !in owned {
      assert c.ready[i] in ReadyTimes(queued, c.now);
    }
  }

  lemma ClaimStaysDead(w: World, c: Claim, id: string, owned: set<string>, from: nat)
    requires Sound(w.db) && IdsDrawn(w) && Legal(w, ClaimedDue(c)) && StaysDead(w, id, owned, from)
    ensures StaysDead(Step(w, ClaimedDue(c)), id, owned, from)
  {
    DeadIsNotDue(w, c, id, owned, from);
    var w' := Step(w, ClaimedDue(c));
    forall i | from <= i < |w'.handed| ensures w'.handed[i].0 !in owned {
      if i >= |w.handed| { assert w'.handed[i].0 == c.ready[i - |w.handed|]; }
    }
  }

  lemma StepStaysDead(w: World, e: Event, id: string, owned: set<string>, from: nat)
    requires Sound(w.db) && IdsDrawn(w) && Legal(w, e) && StaysDead(w, id, owned, from)
    requires e.Created? ==> e.id != id
    ensures StaysDead(Step(w, e), id, owned, from)
  {
    if e.ClaimedDue? {
      ClaimStaysDead(w, e.claim, id, owned, from);
    }
  }

  ghost predicate NeverCreates(es: seq<Event>, id: string) {
    forall e :: e in es && e.Created? ==> e.id != id
  }

  /** Once deleted, a schedule gains no run and none of its runs is ever claimed again. */
  lemma {:induction false} DeletedIsNeverClaimed(w: World, es: seq<Event>, id: string, owned: set<string>, from: nat)
    requires Sound(w.db) && IdsDrawn(w) && LegalRun(w, es) && NeverCreates(es, id)
    requires StaysDead(w, id, owned, from)
    ensures StaysDead(RunOf(w, es), id, owned, from)
    decreases |es|
  {
    if es != [] {
      assert es[0] in es && forall e :: e in es[1..] ==> e in es;
      StepSound(w, es[0]);
      StepGrown(w, es[0]);
      StepStaysDead(w, es[0], id, owned, from);
      DeletedIsNeverClaimed(Step(w, es[0]), es[1..], id, owned, from);
    }
  }

  /** A delete puts the schedule into that state and cancels the runs that have not started. */
  lemma DeleteKills(w: World, id: string, now: int)
    requires IdsDrawn(w) && id in w.db.schedules
    ensures var w' := Step(w, Deleted(id, now));
            && StaysDead(w', id, RunsOf(w'.db.runs, id), |w'.handed|)
            && (id in w'.db.schedules <==> HasRunning(w.db.runs, id))
            && (forall r :: r in w'.db.runs && w'.db.runs[r].schedule == id ==>
                  w'.db.runs[r] == w.db.runs[r] && !w.db.runs[r].status.Queued? && !w.db.runs[r].status.Claimed?)
  {
    var db' := Tombstoned(w.db, id, now);
    if HasRunning(w.db.runs, id) {
      var r :| r in w.db.runs && w.db.runs[r].schedule == id && w.db.runs[r].status.Running?;
      assert r in db'.runs;
    }
  }

  /**
   Exactly two events remove a schedule: a delete that finds nothing running, and the completion of
   one of its runs after a delete. In particular a recovered lease never does.
   */
  lemma RemovedExactly(w: World, e: Event, id: string)
    requires Legal(w, e) && IdsDrawn(w) && id in w.db.schedules
    ensures id !in Step(w, e).db.schedules <==>
            || (e.Deleted? && e.id == id && !HasRunning(w.db.runs, id))
            || (e.Completed? && CanComplete(w.db, e.run, e.report) && w.db.runs[e.run].schedule == id &&
                w.db.schedules[id].deletedAt.Some?)
  {
    if e.Deleted? && e.id == id {
      DeleteKills(w, id, e.now);
    } else if e.ClaimedDue? {
      EnqueueAllKeepsSchedules(Recover(w.db, e.claim.now), e.claim.now, e.claim.due, e.claim.ids, id);
    }
  }

  lemma {:induction false} EnqueueAllKeepsSchedules(db: Db, now: int, due: seq<string>, ids: seq<string>, id: string)
    requires |due| <= |ids|
    ensures id in db.schedules ==> id in EnqueueAll(db, now, due, ids).schedules
    decreases |due|
  {
    if due != [] {
      EnqueueAllKeepsSchedules(Enqueue(db, now, due[0], ids[0]), now, due[1..], ids[1..], id);
    }
  }

  /**
   A deleted schedule whose worker dies is left behind: recovery requeues the run, which is never
   handed out again, and the row stays until someone completes that run or deletes the schedule again.
   */
  lemma DeadWorkerLeavesTombstone(w: World, c: Claim, id: string, run: string)
    requires Sound(w.db) && IdsDrawn(w) && Legal(w, ClaimedDue(c))
    requires id in w.db.schedules && w.db.schedules[id].deletedAt.Some?
    requires run in w.db.runs && w.db.runs[run].schedule == id && w.db.runs[run].status.Running?
    requires w.db.runs[run].lease.value <= c.now && w.db.runs[run].attempt < MAX_ATTEMPTS
    ensures var db := Step(w, ClaimedDue(c)).db;
            && id in db.schedules
            && run in db.runs && db.runs[run].status.Queued? && db.runs[run].schedule == id
  {
    DeadIsNotDue(w, c, id, RunsOf(w.db.runs, id), |w.handed|);
    EnqueueAllGrown(Recover(w.db, c.now), c.now, c.due, c.ids);
    EnqueueAllKeepsSchedules(Recover(w.db, c.now), c.now, c.due, c.ids, id);
  }

  /** The worker of the run `a` runs on while its schedule is deleted. */
  lemma DeletedWhileRunning(w: World, id: string, a: string)
    requires w.db.schedules.Keys == {id} && w.db.runs.Keys == {a} && w.drawn == {a}
    requires w.db.runs[a] == Run(id, 0, Claimed, 0, Some(90), 1, None, None, None)
    ensures var w' := Step(Step(w, Marked(a, 10, 90)), Deleted(id, 20));
            && w'.db.schedules.Keys == {id} && w'.db.schedules[id].deletedAt == Some(20) && !w'.db.schedules[id].enabled
            && w'.db.runs == map[a := Run(id, 0, Running, 0, Some(100), 1, None, None, None)]
  {
    var running := Run(id, 0, Running, 0, Some(100), 1, None, None, None);
    var marked := Step(w, Marked(a, 10, 90));
    assert marked.db.runs == map[a := running];
    assert Tombstoned(marked.db, id, 20).runs == map[a := running];
    assert a in Tombstoned(marked.db, id, 20).runs;
  }

  /** A claim after the lease of that run has ended finds nothing to enqueue and nothing to hand out. */
  lemma RecoveredIsNotReady(w: World, id: string, a: string)
    requires w.db.schedules.Keys == {id} && w.db.schedules[id].deletedAt.Some? && !w.db.schedules[id].enabled
    requires w.db.runs == map[a := Run(id, 0, Running, 0, Some(100), 1, None, None, None)]
    ensures var e := ClaimedDue(Claim(100, 1, 90, [], [], []));
            Legal(w, e) && Step(w, e).db == Db(w.db.schedules, map[a := RecoverRun(w.db.runs[a], 100)])
  {
    var c := Claim(100, 1, 90, [], [], []);
    var recovered := Recover(w.db, 100);
    assert recovered.runs == map[a := RecoverRun(w.db.runs[a], 100)];
    assert DueTimes(recovered, 100) == map[];
    assert QueuedDb(w.db, c) == recovered;
    assert ReadyTimes(recovered, 100) == map[];
    assert HandOut(recovered, 100, 90, []).runs == recovered.runs;
  }

  /** Such a row does appear: a running schedule is deleted and its worker dies. */
  lemma TombstoneIsReached(id: string, a: string)
    ensures var es := [Created(id, None, 0, 60), ClaimOf(0, id, a), Marked(a, 10, 90), Deleted(id, 20),
                       ClaimedDue(Claim(100, 1, 90, [], [], []))];
            && LegalRun(EMPTY, es)
            && var db := RunOf(EMPTY, es).db;
               && id in db.schedules && db.schedules[id].deletedAt.Some?
               && a in db.runs && db.runs[a].schedule == id && db.runs[a].status.Queued?
  {
    var e1, e2, e3, e4 := Created(id, None, 0, 60), ClaimOf(0, id, a), Marked(a, 10, 90), Deleted(id, 20);
    FirstRunClaimed(id, a);
    var w2 := Step(Step(EMPTY, e1), e2);
    DeletedWhileRunning(w2, id, a);
    RecoveredIsNotReady(Step(Step(w2, e3), e4), id, a);
    FiveEvents(EMPTY, e1, e2, e3, e4, ClaimedDue(Claim(100, 1, 90, [], [], [])));
  }

  // ---- The registry ----

  class Registry {
    var schedules: Schedules
    var runs: Runs

    ghost function Rows(): Db
      reads this
    {
      Db(schedules, runs)
    }

    constructor ()
      ensures Rows() == Db(map[], map[])
    {
      schedules, runs := map[], map[];
    }

    method CreateSchedule(id: string, owner: Option<string>, at: int, period: nat)
      modifies this
      ensures Rows() == Create(old(Rows()), id, owner, at, period)
      ensures runs == old(runs) &&
              schedules == old(schedules)[id := Schedule(owner, at, period, true, None, Last(None, None, None, None))]
    {
      schedules := schedules[id := Schedule(owner, at, period, true, None, Last(None, None, None, None))];
    }

    method DeleteSchedule(id: string, now: int) returns (known: bool)
      modifies this
      ensures known == (id in old(schedules))
      ensures Rows() == Delete(old(Rows()), id, now)
      ensures !known ==> schedules == old(schedules) && runs == old(runs)
      ensures known && HasRunning(old(runs), id) ==>
              && schedules == old(schedules)[id := old(schedules)[id].(enabled := false, deletedAt := Some(now))]
              && runs == map r | r in old(runs) && (old(runs)[r].schedule != id || !Unstarted(old(runs)[r])) ::
                 old(runs)[r]
      ensures known && !HasRunning(old(runs), id) ==>
              && schedules == old(schedules) - {id}
              && runs == map r | r in old(runs) && old(runs)[r].schedule != id :: old(runs)[r]
    {
      if id !in schedules {
        return false;
      }
      schedules := schedules[id := schedules[id].(enabled := false, deletedAt := Some(now))];
      runs := map r | r in runs && !(runs[r].schedule == id && (runs[r].status.Queued? || runs[r].status.Claimed?)) ::
          runs[r];
      assert HasRunning(old(runs), id) <==> HasRunning(runs, id) by {
        forall r | r in old(runs)
          ensures r in runs || old(runs)[r].schedule != id || !old(runs)[r].status.Running?
        {
        }
      }
      if !HasRunning(runs, id) {
        schedules := schedules - {id};
        runs := map r | r in runs && runs[r].schedule != id :: runs[r];
      }
      return true;
    }

    method MarkRunning(run: string, now: int, lease: nat) returns (marked: bool)
      modifies this`runs
      ensures marked == (run in old(runs) && old(runs)[run].status.Claimed?)
      ensures Rows() == Mark(old(Rows()), run, now, lease)
      ensures runs == if marked then old(runs)[run := old(runs)[run].(status := Running, lease := Some(now + lease))]
                      else old(runs)
    {
      marked := run in runs && runs[run].status.Claimed?;
      if marked {
        runs := runs[run := runs[run].(status := Running, lease := Some(now + lease))];
      }
    }

    method RenewRun(run: string, now: int, lease: nat) returns (renewed: bool)
      modifies this`runs
      ensures renewed == (run in old(runs) && old(runs)[run].Leased())
      ensures Rows() == Renew(old(Rows()), run, now, lease)
      ensures runs == if renewed then old(runs)[run := old(runs)[run].(lease := Some(now + lease))] else old(runs)
    {
      renewed := run in runs && runs[run].Leased();
      if renewed {
        runs := runs[run := runs[run].(lease := Some(now + lease))];
      }
    }

    method CompleteSchedule(run: string, report: Report, now: int) returns (status: Option<Status>)
      modifies this
      ensures status.Some? <==> CanComplete(old(Rows()), run, report)
      ensures Rows() == Complete(old(Rows()), run, report, now)
      ensures status.Some? && run in runs ==> runs[run].status == status.value
      ensures status.Some? ==>
              var r := old(runs)[run];
              status.value == if report.error.None? then Succeeded
                              else if report.retryable && r.attempt < 3 && old(schedules)[r.schedule].deletedAt.None?
                              then Queued else Failed
      ensures status.None? ==> schedules == old(schedules) && runs == old(runs)
      ensures status.Some? && old(schedules)[old(runs)[run].schedule].deletedAt.Some? ==>
              var id := old(runs)[run].schedule;
              && schedules == old(schedules) - {id}
              && runs == map r | r in old(runs) && old(runs)[r].schedule != id :: old(runs)[r]
    {
      if run !in runs || runs[run].schedule !in schedules || OwnerConflict(runs[run], report) {
        return None;
      }
      var row := runs[run];
      var parent := schedules[row.schedule];
      var availableAt;
      var ended: Status;
      if report.error.None? {
        ended, availableAt := Succeeded, now;
      } else if report.retryable && parent.deletedAt.None? && row.attempt < MAX_ATTEMPTS {
        ended, availableAt := Queued, now + Backoff(row.attempt);
      } else {
        ended, availableAt := Failed, now;
      }
      var owner := if row.owner.Some? then row.owner else report.owner;
      runs := runs[run := row.(status := ended, availableAt := availableAt, lease := None,
                               session := report.session, owner := owner, error := report.error)];
      schedules := schedules[row.schedule := parent.(last := Last(Some(now), report.session, owner, report.error))];
      if parent.deletedAt.Some? {
        schedules := schedules - {row.schedule};
        runs := map r | r in runs && runs[r].schedule != row.schedule :: runs[r];
        assert Rows() == RemoveSchedule(old(Rows()), row.schedule);
      }
      return Some(ended);
    }

    /** `ids` are the identifiers that `uuid4` will return. */
    method ClaimDueSchedules(now: int, limit: nat, lease: nat, ids: seq<string>)
      returns (claimed: seq<(string, nat)>, ghost due: seq<string>, ghost ready: seq<string>)
      requires |ids| >= limit
      modifies this
      ensures IsSelection(DueTimes(Recover(old(Rows()), now), now), limit, due)
      ensures var queued := EnqueueAll(Recover(old(Rows()), now), now, due, ids);
              && IsSelection(ReadyTimes(queued, now), limit, ready)
              && (forall i :: 0 <= i < |ready| ==> ready[i] in queued.runs)
              && claimed == Items(queued.runs, ready)
              && Rows() == HandOut(queued, now, lease, ready)
    {
      runs := map id | id in runs :: RecoverRun(runs[id], now);
      ghost var recovered := Rows();
      var rows := SelectFirst(DueTimes(Db(schedules, runs), now), limit);
      due := rows;
      ghost var queued := EnqueueAll(recovered, now, due, ids);
      assert rows[0..] == rows && ids[0..] == ids;
      for k := 0 to |rows|
        invariant EnqueueAll(Rows(), now, rows[k..], ids[k..]) == queued
        invariant forall i :: 0 <= i < |rows| ==> rows[i] in schedules
      {
        assert rows[k..][0] == rows[k] && rows[k..][1..] == rows[k + 1..];
        assert ids[k..][0] == ids[k] && ids[k..][1..] == ids[k + 1..];
        EnqueueRow(now, rows[k], ids[k]);
      }
      assert rows[|rows|..] == [];
      assert Rows() == queued;
      var picked := SelectFirst(ReadyTimes(Db(schedules, runs), now), limit);
      ready := picked;
      claimed := HandOutEach(picked, now, lease);
    }

    /** One turn of the loop over due rows. */
    method EnqueueRow(now: int, id: string, runId: string)
      requires id in schedules
      modifies this
      ensures Rows() == Enqueue(old(Rows()), now, id, runId)
      ensures schedules.Keys == old(schedules).Keys
      ensures HasActive(old(runs), id) ==> schedules == old(schedules) && runs == old(runs)
      ensures forall o :: o in schedules && o != id ==> schedules[o] == old(schedules)[o]
      ensures var row := old(schedules)[id];
              runs == if HasActive(old(runs), id) || runId in old(runs) || HasRunAt(old(runs), id, row.nextRunAt)
                      then old(runs)
                      else old(runs)[runId := Run(id, row.nextRunAt, Queued, now, None, 0, None, row.owner, None)]
    {
      if HasActive(runs, id) {
        return;
      }
      var row := schedules[id];
      if runId !in runs && !HasRunAt(runs, id, row.nextRunAt) {
        runs := runs[runId := NewRun(id, row, now)];
      }
      var enabled, nextRun := row.period != 0, row.nextRunAt;
      if row.period != 0 {
        var skipped := Max(1, (now - row.nextRunAt) / row.period + 1);
        nextRun := row.nextRunAt + skipped * row.period;
      }
      schedules := schedules[id := row.(enabled := enabled, nextRunAt := nextRun, last := row.last.(error := None))];
    }

    method HandOutEach(picked: seq<string>, now: int, lease: nat) returns (claimed: seq<(string, nat)>)
      requires forall i :: 0 <= i < |picked| ==> picked[i] in runs && runs[picked[i]].status.Queued?
      requires forall i, j :: 0 <= i < j < |picked| ==> picked[i] != picked[j]
      modifies this`runs
      ensures claimed == Items(old(runs), picked)
      ensures Rows() == HandOut(old(Rows()), now, lease, picked)
      ensures runs.Keys == old(runs).Keys
      ensures forall r :: r in runs ==>
              runs[r] == if r !in picked then old(runs)[r]
                         else old(runs)[r].(status := Claimed, lease := Some(now + lease),
                                            attempt := old(runs)[r].attempt + 1)
    {
      claimed := [];
      ghost var before := runs;
      for k := 0 to |picked|
        invariant runs.Keys == before.Keys
        invariant forall r :: r in runs ==>
                  runs[r] == if r in picked[..k] then HandOutRun(before[r], now, lease) else before[r]
        invariant claimed == Items(before, picked)[..k]
      {
        var id := picked[k];
        assert id !in picked[..k];
        assert picked[..k + 1] == picked[..k] + [id];
        var attempt := runs[id].attempt + 1;
        runs := runs[id := runs[id].(status := Claimed, lease := Some(now + lease), attempt := attempt)];
        claimed := claimed + [(id, attempt)];
      }
      assert picked[..|picked|] == picked;
      assert runs == HandOut(Db(schedules, before), now, lease, picked).runs;
    }
  }

  predicate Earliest(at: map<string, int>, keys: set<string>, k: string)
    requires keys <= at.Keys
  {
    k in keys && forall o :: o in keys ==> at[k] <= at[o]
  }

  lemma {:induction false} EarliestExists(at: map<string, int>, keys: set<string>)
    requires keys != {} && keys <= at.Keys
    ensures exists k :: Earliest(at, keys, k)
    decreases keys
  {
    var x :| x in keys;
    if keys == {x} {
      assert Earliest(at, keys, x);
    } else {
      EarliestExists(at, keys - {x});
      var k :| Earliest(at, keys - {x}, k);
      assert Earliest(at, keys, if at[x] <= at[k] then x else k);
    }
  }

  /** The rows picked so far, in order, and the rest, which are no earlier. */
  ghost predicate Picked(at: map<string, int>, rest: map<string, int>, chosen: seq<string>) {
    && (forall i, j :: 0 <= i < j < |chosen| ==> chosen[i] != chosen[j])
    && (forall i :: 0 <= i < |chosen| ==> chosen[i] in at && chosen[i] !in rest)
    && (forall k :: k in rest ==> k in at && rest[k] == at[k])
    && (forall k :: k in at && k !in rest ==> k in chosen)
    && (forall i, j :: 0 <= i < j < |chosen| && chosen[i] in at && chosen[j] in at ==> at[chosen[i]] <= at[chosen[j]])
    && (forall i, k :: 0 <= i < |chosen| && chosen[i] in at && k in rest ==> at[chosen[i]] <= rest[k])
  }

  lemma PickNext(at: map<string, int>, rest: map<string, int>, chosen: seq<string>, k: string)
    requires Picked(at, rest, chosen) && k in rest && forall o :: o in rest ==> rest[k] <= rest[o]
    ensures Picked(at, rest - {k}, chosen + [k])
  {
    var more := chosen + [k];
    assert more[|chosen|] == k;
    forall o | o in at && o !in rest - {k}
      ensures o in more
    {
      if o != k { assert o in chosen; }
    }
  }

  /** `ORDER BY at ASC LIMIT limit` */
  method SelectFirst(at: map<string, int>, limit: nat) returns (chosen: seq<string>)
    ensures IsSelection(at, limit, chosen)
  {
    chosen := [];
    var rest := at;
    while |chosen| < limit && |rest| > 0
      invariant |chosen| <= limit && Picked(at, rest, chosen)
      decreases |rest|
    {
      EarliestExists(rest, rest.Keys);
      var k :| k in rest && forall o :: o in rest ==> rest[k] <= rest[o];
      assert (rest - {k}).Keys == rest.Keys - {k};
      PickNext(at, rest, chosen, k);
      chosen := chosen + [k];
      rest := rest - {k};
    }
  }
}
