/**
 The Codex daemon restart barrier: one marker file, a state lock around its writers and a worker lock
 around the restart command. Requests and workers are processes that interleave step by step; a log
 records what was requested, checked, started, returned and published.
 */
module RestartBarrier {
  import opened Common

  const OUTCOME_GRACE := 5
  const FAILED_RETENTION := 15
  const DEFAULT_TIMEOUT := 60

  datatype Phase = Restarting | Ready | Failed

  datatype Marker = Marker(epoch: nat, phase: Phase, deadline: int)

  /** A missing or non-positive timeout is the default one. */
  function WorkerTimeout(timeout: Option<int>): int {
    if timeout.None? || timeout.value <= 0 then DEFAULT_TIMEOUT else Max(1, timeout.value)
  }

  function OutcomeTimeout(timeout: Option<int>, drain: int): int {
    Max(0, drain) + WorkerTimeout(timeout) + OUTCOME_GRACE
  }

  predicate IsStale(m: Marker, now: int) {
    !m.phase.Ready? && now >= m.deadline
  }

  /** What `_publish_if_current` leaves, given the marker it read. */
  function Outcome(seen: Option<Marker>, epoch: nat, phase: Phase, now: int): Option<Marker> {
    if seen.None? || seen.value.epoch != epoch then seen
    else Some(Marker(epoch, phase, if phase.Failed? then now + FAILED_RETENTION else seen.value.deadline))
  }

  // ---- Processes ----

  /** A synchronous restart, a request that detaches a worker, or such a worker. */
  datatype Kind = Sync | Request | Worker

  datatype Pc =
    | Begin                                      // wants the state lock to announce its epoch
    | Announcing                                 // holds it
    | Waiting                                    // Sync, Worker: wants the worker lock; Request: about to detach
    | Locked                                     // holds the worker lock
    | Draining                                   // Worker: passed the first check
    | Cleared                                    // Worker: passed the second check
    | InFlight                                   // the official command runs
    | Ended(outcome: Phase)                      // wants the state lock to publish
    | Publishing(outcome: Phase)                 // holds it
    | Compared(outcome: Phase, seen: Option<Marker>) // has read the marker
    | Done

  datatype Proc = Proc(kind: Kind, epoch: nat, pc: Pc) {
    predicate HoldsState() { pc.Announcing? || pc.Publishing? || pc.Compared? }

    predicate HasOutcome() { pc.Ended? || pc.Publishing? || pc.Compared? }

    function OutcomePhase(): Phase
      requires HasOutcome()
    {
      pc.outcome
    }

    /** A synchronous request publishes after releasing the worker lock, a worker before. */
    predicate HoldsWorker() {
      match kind
      case Sync => pc.Locked? || pc.InFlight?
      case Request => false
      case Worker => pc.Locked? || pc.Draining? || pc.Cleared? || pc.InFlight? || HasOutcome()
    }
  }

  datatype Entry =
    | Requested(epoch: nat, scheduled: bool)
    | Checked(pid: nat, epoch: nat)
    | Started(pid: nat, epoch: nat, kind: Kind)
    | Returned(pid: nat, epoch: nat, ok: bool)
    | Published(pid: nat, epoch: nat, phase: Phase)
    | Died(pid: nat, epoch: nat)

  datatype State = State(
    marker: Option<Marker>, stateLock: Option<nat>, workerLock: Option<nat>,
    procs: map<nat, Proc>, flying: set<nat>, log: seq<Entry>)

  const INITIAL := State(None, None, None, map[], {}, [])

  // ---- Steps ----

  datatype Step =
    | Spawn(pid: nat, kind: Kind, epoch: nat)
    | TakeState(pid: nat)
    | Announce(pid: nat, deadline: int)
    | Detach(pid: nat, worker: nat)
    | TakeWorker(pid: nat)
    | Check(pid: nat, now: int)
    | Start(pid: nat)
    | Return(pid: nat, ok: bool)
    | Raise(pid: nat)
    | ReadMarker(pid: nat)
    | Publish(pid: nat, now: int)
    | Crash(pid: nat)
    | Expire(pid: nat)

  function Goto(s: State, p: nat, pc: Pc): map<nat, Proc>
    requires p in s.procs
  {
    s.procs[p := s.procs[p].(pc := pc)]
  }

  /** Epochs of requests are drawn at random: nobody has used them. */
  ghost predicate Fresh(s: State, epoch: nat) {
    && (forall p :: p in s.procs ==> s.procs[p].epoch != epoch)
    && (forall i :: 0 <= i < |s.log| ==> s.log[i].epoch != epoch)
  }

  predicate Runs(p: Proc, pc: Pc) {
    p.pc == pc && !p.kind.Request?
  }

  /** A marker that lets a worker of `epoch` go on. */
  predicate StillWanted(m: Option<Marker>, epoch: nat) {
    m.Some? && m.value.epoch == epoch && m.value.phase.Restarting?
  }

  /** A worker that has its command in flight, or has an outcome that it has not published. */
  predicate Unpublished(p: Proc) {
    p.kind.Worker? && (p.pc.InFlight? || p.HasOutcome())
  }

  /** A step is possible at any interleaving, and a process may die at any point. */
  ghost predicate Enabled(s: State, t: Step) {
    if t.Spawn? then t.pid !in s.procs && (!t.kind.Worker? ==> Fresh(s, t.epoch))
    else
      t.pid in s.procs &&
      var p := s.procs[t.pid];
      match t
      case TakeState(_) => s.stateLock.None? && (p.pc.Begin? || p.pc.Ended?)
      case Announce(_, _) => p.pc.Announcing?
      case Detach(_, worker) => p.kind.Request? && p.pc.Waiting? && worker !in s.procs
      case TakeWorker(_) => s.workerLock.None? && Runs(p, Waiting)
      case Check(_, _) => p.kind.Worker? && (p.pc.Locked? || p.pc.Draining?)
      case Start(_) => (p.kind.Sync? && p.pc.Locked?) || (p.kind.Worker? && p.pc.Cleared?)
      case Return(_, _) => p.pc.InFlight?
      case Raise(_) => p.pc.InFlight? || (p.kind.Worker? && p.pc.Cleared?) || (p.kind.Sync? && p.pc.Locked?) ||
          (!p.kind.Worker? && p.pc.Waiting?)
      case ReadMarker(_) => p.pc.Publishing?
      case Publish(_, _) => p.pc.Compared?
      case Crash(_) => true
      case Expire(_) => p.pc.Done? && t.pid in s.flying
  }

  function Unlock(lock: Option<nat>, p: nat): Option<nat> {
    if lock == Some(p) then None else lock
  }

  /** The command is over, or was never started; a synchronous request has left the worker lock. */
  function End(s: State, p: nat, ok: bool): State
    requires p in s.procs
  {
    var proc := s.procs[p];
    s.(procs := Goto(s, p, Ended(if ok then Ready else Failed)),
       flying := s.flying - {p},
       workerLock := if proc.kind.Sync? then Unlock(s.workerLock, p) else s.workerLock,
       log := if proc.pc.InFlight? then s.log + [Returned(p, proc.epoch, ok)] else s.log)
  }

  /** Both checks of a worker, the second one after the drain. */
  function AfterCheck(s: State, p: nat, now: int): State
    requires p in s.procs
  {
    var proc := s.procs[p];
    if !StillWanted(s.marker, proc.epoch) then
      s.(procs := Goto(s, p, Done), workerLock := Unlock(s.workerLock, p))
    else if IsStale(s.marker.value, now) then s.(procs := Goto(s, p, Ended(Failed)))
    else if proc.pc.Locked? then s.(procs := Goto(s, p, Draining))
    else s.(procs := Goto(s, p, Cleared), log := s.log + [Checked(p, proc.epoch)])
  }

  function AfterPublish(s: State, p: nat, now: int): State
    requires p in s.procs && s.procs[p].pc.Compared?
  {
    var proc := s.procs[p];
    var current := proc.pc.seen.Some? && proc.pc.seen.value.epoch == proc.epoch;
    s.(marker := if current then Outcome(proc.pc.seen, proc.epoch, proc.pc.outcome, now) else s.marker,
       procs := Goto(s, p, Done),
       stateLock := Unlock(s.stateLock, p), workerLock := Unlock(s.workerLock, p),
       log := if current then s.log + [Published(p, proc.epoch, proc.pc.outcome)] else s.log)
  }

  /** The kernel drops the locks of a process that dies; a command in flight lives on without it. */
  function AfterCrash(s: State, p: nat): State
    requires p in s.procs
  {
    var proc := s.procs[p];
    s.(procs := Goto(s, p, Done), stateLock := Unlock(s.stateLock, p), workerLock := Unlock(s.workerLock, p),
       log := if Unpublished(proc) then s.log + [Died(p, proc.epoch)] else s.log)
  }

  ghost function Next(s: State, t: Step): State
    requires Enabled(s, t)
  {
    match t
    case Spawn(p, kind, epoch) => s.(procs := s.procs[p := Proc(kind, epoch, if kind.Worker? then Waiting else Begin)])
    case TakeState(p) =>
      s.(stateLock := Some(p), procs :=
         Goto(s, p, if s.procs[p].pc.Begin? then Announcing else Publishing(s.procs[p].OutcomePhase())))
    case Announce(p, deadline) =>
      s.(marker := Some(Marker(s.procs[p].epoch, Restarting, deadline)), stateLock := Unlock(s.stateLock, p),
         procs := Goto(s, p, Waiting),
         log := s.log + [Requested(s.procs[p].epoch, s.procs[p].kind.Request?)])
    case Detach(p, worker) => s.(procs := Goto(s, p, Done)[worker := Proc(Worker, s.procs[p].epoch, Waiting)])
    case TakeWorker(p) => s.(workerLock := Some(p), procs := Goto(s, p, Locked))
    case Check(p, now) => AfterCheck(s, p, now)
    case Start(p) => s.(procs := Goto(s, p, InFlight), flying := s.flying + {p},
                        log := s.log + [Started(p, s.procs[p].epoch, s.procs[p].kind)])
    case Return(p, ok) => End(s, p, ok)
    case Raise(p) => End(s, p, false)
    case ReadMarker(p) => s.(procs := Goto(s, p, Compared(s.procs[p].OutcomePhase(), s.marker)))
    case Publish(p, now) => AfterPublish(s, p, now)
    case Crash(p) => AfterCrash(s, p)
    case Expire(p) => s.(flying := s.flying - {p})
  }

  ghost predicate Trace(s: State, ts: seq<Step>)
    decreases |ts|
  {
    ts == [] || (Enabled(s, ts[0]) && Trace(Next(s, ts[0]), ts[1..]))
  }

  ghost function After(s: State, ts: seq<Step>): State
    requires Trace(s, ts)
    decreases |ts|
  {
    if ts == [] then s else After(Next(s, ts[0]), ts[1..])
  }

  // ---- What the log says ----

  ghost predicate WasRequested(log: seq<Entry>, epoch: nat) {
    exists i :: 0 <= i < |log| && log[i].Requested? && log[i].epoch == epoch
  }

  /** The epoch of the newest request. */
  function Newest(log: seq<Entry>): Option<nat> {
    if log == [] then None
    else if log[|log| - 1].Requested? then Some(log[|log| - 1].epoch)
    else Newest(log[..|log| - 1])
  }

  /** Started by `p` after a request of `epoch`. */
  ghost predicate StartedAfterRequest(log: seq<Entry>, p: nat, epoch: nat) {
    exists j :: 0 <= j < |log| && log[j].Started? && log[j].pid == p && log[j].epoch == epoch &&
      WasRequested(log[..j], epoch)
  }

  /** A restart command of `epoch` was started after the request and returned 0. */
  ghost predicate Restarted(log: seq<Entry>, epoch: nat) {
    exists k :: 0 <= k < |log| && log[k].Returned? && log[k].epoch == epoch && log[k].ok &&
      StartedAfterRequest(log[..k], log[k].pid, epoch)
  }

  /** The second check of `p` passed at a time when `epoch` was the newest request. */
  ghost predicate CheckedCurrent(log: seq<Entry>, p: nat, epoch: nat) {
    exists i :: 0 <= i < |log| && log[i] == Checked(p, epoch) && Newest(log[..i]) == Some(epoch)
  }

  ghost predicate StartedBy(log: seq<Entry>, p: nat) {
    exists i :: 0 <= i < |log| && log[i].Started? && log[i].pid == p
  }

  /** `p` died with its outcome unpublished. */
  ghost predicate HasDied(log: seq<Entry>, p: nat) {
    exists i :: 0 <= i < |log| && log[i].Died? && log[i].pid == p
  }

  /** Everyone who started a command for `epoch` died before publishing its outcome. */
  ghost predicate AllDied(log: seq<Entry>, epoch: nat) {
    forall i :: 0 <= i < |log| && log[i].Started? && log[i].epoch == epoch ==> HasDied(log, log[i].pid)
  }

  ghost predicate IsScheduled(log: seq<Entry>, epoch: nat) {
    exists i :: 0 <= i < |log| && log[i] == Requested(epoch, true)
  }

  /** What must hold of the log for `x` to be added. */
  ghost predicate EntryOk(log: seq<Entry>, x: Entry) {
    match x
    case Requested(epoch, _) => !WasRequested(log, epoch)
    case Checked(_, epoch) => Newest(log) == Some(epoch)
    case Started(pid, epoch, kind) =>
      && WasRequested(log, epoch)
      && (kind.Worker? ==> CheckedCurrent(log, pid, epoch))
      && (IsScheduled(log, epoch) ==> AllDied(log, epoch))
      && !StartedBy(log, pid) && !HasDied(log, pid) && !kind.Request?
    case Returned(pid, epoch, _) => StartedAfterRequest(log, pid, epoch)
    case Published(_, epoch, phase) => Newest(log) == Some(epoch) && (phase.Ready? ==> Restarted(log, epoch))
    case Died(_, _) => true
  }

  ghost predicate LogOk(log: seq<Entry>) {
    forall i :: 0 <= i < |log| ==> EntryOk(log[..i], log[i])
  }

  lemma AppendOk(log: seq<Entry>, x: Entry)
    requires LogOk(log) && EntryOk(log, x)
    ensures LogOk(log + [x])
  {
    forall i | 0 <= i < |log + [x]| ensures EntryOk((log + [x])[..i], (log + [x])[i]) {
      if i < |log| { assert (log + [x])[..i] == log[..i]; }
      else { assert (log + [x])[..i] == log; }
    }
  }

  lemma Prefix(log: seq<Entry>, x: Entry, i: nat)
    requires i <= |log|
    ensures (log + [x])[..i] == log[..i]
  {
  }

  lemma AppendRequests(log: seq<Entry>, x: Entry, e: nat)
    ensures WasRequested(log + [x], e) <==> WasRequested(log, e) || (x.Requested? && x.epoch == e)
    ensures IsScheduled(log + [x], e) <==> IsScheduled(log, e) || x == Requested(e, true)
    ensures Newest(log + [x]) == if x.Requested? then Some(x.epoch) else Newest(log)
  {
    var longer := log + [x];
    assert longer[..|longer| - 1] == log;
    if WasRequested(log, e) {
      var i :| 0 <= i < |log| && log[i].Requested? && log[i].epoch == e;
      assert longer[i] == log[i];
    }
    if IsScheduled(log, e) {
      var i :| 0 <= i < |log| && log[i] == Requested(e, true);
      assert longer[i] == log[i];
    }
    assert longer[|log|] == x;
  }

  lemma AppendStarts(log: seq<Entry>, x: Entry, p: nat, e: nat)
    ensures StartedBy(log + [x], p) <==> StartedBy(log, p) || (x.Started? && x.pid == p)
    ensures HasDied(log + [x], p) <==> HasDied(log, p) || (x.Died? && x.pid == p)
    ensures AllDied(log, e) && !(x.Started? && x.epoch == e) ==> AllDied(log + [x], e)
  {
    var longer := log + [x];
    assert longer[|log|] == x;
    forall q ensures HasDied(log, q) ==> HasDied(longer, q) {
      if HasDied(log, q) {
        var i :| 0 <= i < |log| && log[i].Died? && log[i].pid == q;
        assert longer[i] == log[i];
      }
    }
    if StartedBy(log, p) {
      var i :| 0 <= i < |log| && log[i].Started? && log[i].pid == p;
      assert longer[i] == log[i];
    }
  }

  lemma AppendKeeps(log: seq<Entry>, x: Entry, p: nat, e: nat)
    ensures StartedAfterRequest(log, p, e) ==> StartedAfterRequest(log + [x], p, e)
    ensures CheckedCurrent(log, p, e) ==> CheckedCurrent(log + [x], p, e)
    ensures Restarted(log, e) ==> Restarted(log + [x], e)
  {
    if StartedAfterRequest(log, p, e) {
      var j :| 0 <= j < |log| && log[j].Started? && log[j].pid == p && log[j].epoch == e && WasRequested(log[..j], e);
      Prefix(log, x, j);
      assert (log + [x])[j] == log[j];
    }
    if CheckedCurrent(log, p, e) {
      var i :| 0 <= i < |log| && log[i] == Checked(p, e) && Newest(log[..i]) == Some(e);
      Prefix(log, x, i);
      assert (log + [x])[i] == log[i];
    }
    if Restarted(log, e) {
      var k :| 0 <= k < |log| && log[k].Returned? && log[k].epoch == e && log[k].ok &&
          StartedAfterRequest(log[..k], log[k].pid, e);
      Prefix(log, x, k);
      assert (log + [x])[k] == log[k];
    }
  }

  // ---- Invariants ----

  predicate StateLockOk(s: State) {
    && (forall p :: p in s.procs && s.procs[p].HoldsState() ==> s.stateLock == Some(p))
    && (s.stateLock.Some? ==> s.stateLock.value in s.procs && s.procs[s.stateLock.value].HoldsState())
  }

  predicate WorkerLockOk(s: State) {
    && (forall p :: p in s.procs && s.procs[p].HoldsWorker() ==> s.workerLock == Some(p))
    && (s.workerLock.Some? ==> s.workerLock.value in s.procs && s.procs[s.workerLock.value].HoldsWorker())
  }

  /** A command in flight has its process, or its process is dead. */
  predicate FlyingOk(s: State) {
    && (forall p :: p in s.flying ==> p in s.procs && (s.procs[p].pc.InFlight? || s.procs[p].pc.Done?))
    && (forall p :: p in s.procs && s.procs[p].pc.InFlight? ==> p in s.flying)
  }

  ghost predicate Locks(s: State) {
    StateLockOk(s) && WorkerLockOk(s) && FlyingOk(s)
  }

  ghost predicate MarkerOk(s: State) {
    && Newest(s.log) == (if s.marker.None? then None else Some(s.marker.value.epoch))
    && (s.marker.Some? && s.marker.value.phase.Ready? ==> Restarted(s.log, s.marker.value.epoch))
  }

  predicate Shape(p: Proc) {
    && (p.pc.Begin? || p.pc.Announcing? ==> !p.kind.Worker?)
    && (p.pc.Draining? || p.pc.Cleared? ==> p.kind.Worker?)
    && (p.pc.Locked? || p.pc.InFlight? ==> !p.kind.Request?)
    && (p.HasOutcome() ==> !p.OutcomePhase().Restarting?)
  }

  /** How far the log goes when process `p` is where it is. */
  ghost predicate ProcOk(s: State, id: nat) requires id in s.procs {
    var p := s.procs[id];
    && Shape(p)
    && (p.pc.Begin? || p.pc.Announcing? ==> !WasRequested(s.log, p.epoch))
    && (!p.kind.Worker? && !p.pc.Begin? && !p.pc.Announcing? && !p.pc.Done? ==> WasRequested(s.log, p.epoch))
    && (p.kind.Sync? ==> !IsScheduled(s.log, p.epoch))
    && (p.pc.Cleared? ==> WasRequested(s.log, p.epoch) && CheckedCurrent(s.log, id, p.epoch))
    && (p.pc.InFlight? ==> StartedAfterRequest(s.log, id, p.epoch))
    && (p.HasOutcome() && p.OutcomePhase().Ready? ==> Restarted(s.log, p.epoch))
    && (p.pc.Compared? ==> p.pc.seen == s.marker)
  }

  /**
   What process `id` has started: a scheduled epoch is still with it, or it died, or no worker will accept
   the epoch; and whoever is cleared for a scheduled epoch comes after the death of all that started it.
   */
  ghost predicate Accounted(s: State, id: nat)
    requires id in s.procs
  {
    var p := s.procs[id];
    && (StartedBy(s.log, id) ==> p.pc.InFlight? || p.HasOutcome() || p.pc.Done?)
    && (HasDied(s.log, id) ==> p.pc.Done?)
    && (IsScheduled(s.log, p.epoch) && StartedBy(s.log, id) && StillWanted(s.marker, p.epoch) ==>
          p.pc.InFlight? || p.HasOutcome() || HasDied(s.log, id))
    && (p.pc.Cleared? && IsScheduled(s.log, p.epoch) ==> AllDied(s.log, p.epoch))
  }

  ghost predicate RequestersDiffer(s: State) {
    forall p, q :: p in s.procs && q in s.procs && p != q && !s.procs[p].kind.Worker? && !s.procs[q].kind.Worker? ==>
      s.procs[p].epoch != s.procs[q].epoch
  }

  /** Who starts or dies in the log is a process of that epoch and kind. */
  predicate EntryTracked(s: State, x: Entry) {
    && (x.Started? ==> x.pid in s.procs && s.procs[x.pid].epoch == x.epoch && s.procs[x.pid].kind == x.kind)
    && (x.Died? ==> x.pid in s.procs && s.procs[x.pid].epoch == x.epoch)
  }

  predicate LogTracked(s: State) {
    forall i :: 0 <= i < |s.log| ==> EntryTracked(s, s.log[i])
  }

  ghost predicate Inv(s: State) {
    && Locks(s) && LogOk(s.log) && MarkerOk(s) && RequestersDiffer(s) && LogTracked(s)
    && (forall p :: p in s.procs ==> ProcOk(s, p) && Accounted(s, p))
  }

  /** What was started was requested. */
  lemma StartedWasRequested(log: seq<Entry>, i: nat)
    requires LogOk(log) && i < |log| && log[i].Started?
    ensures WasRequested(log, log[i].epoch)
  {
    assert EntryOk(log[..i], log[i]);
    var k :| 0 <= k < i && log[..i][k].Requested? && log[..i][k].epoch == log[i].epoch;
    assert log[k].Requested?;
  }

  lemma StepStateLock(s: State, t: Step)
    requires StateLockOk(s) && Enabled(s, t)
    ensures StateLockOk(Next(s, t))
  {
  }

  lemma StepWorkerLock(s: State, t: Step)
    requires WorkerLockOk(s) && Enabled(s, t) && (forall p :: p in s.procs ==> Shape(s.procs[p]))
    ensures WorkerLockOk(Next(s, t))
  {
  }

  lemma StepFlying(s: State, t: Step)
    requires FlyingOk(s) && Enabled(s, t)
    ensures FlyingOk(Next(s, t))
  {
  }

  lemma StepRequesters(s: State, t: Step)
    requires RequestersDiffer(s) && Enabled(s, t)
    ensures RequestersDiffer(Next(s, t))
  {
  }

  /** What a step says in the log. */
  datatype Note = Note(announced: bool, started: bool, died: bool, pid: nat, epoch: nat, scheduled: bool)

  function NoteOf(s: State, t: Step): Note
    requires t.pid in s.procs
  {
    var p := s.procs[t.pid];
    Note(t.Announce?, t.Start?, t.Crash? && Unpublished(p), t.pid, p.epoch, p.kind.Request?)
  }

  /** At most one entry is added: a request is announced, a command started, a death noted, or something else. */
  ghost predicate Extends(log: seq<Entry>, longer: seq<Entry>, note: Note) {
    if longer == log then !note.announced && !note.started && !note.died
    else exists x :: longer == log + [x] && EntryOk(log, x) && Describes(x, note)
  }

  predicate Describes(x: Entry, note: Note) {
    && x.epoch == note.epoch && x.Requested? == note.announced && x.Started? == note.started && x.Died? == note.died
    && (note.announced ==> x.scheduled == note.scheduled)
    && (note.started || note.died ==> x.pid == note.pid)
  }

  lemma StepLog(s: State, t: Step)
    requires Inv(s) && Enabled(s, t) && !t.Spawn?
    ensures Extends(s.log, Next(s, t).log, NoteOf(s, t))
  {
    assert ProcOk(s, t.pid) && Accounted(s, t.pid);
    var s' := Next(s, t);
    if |s'.log| > |s.log| {
      var x := s'.log[|s.log|];
      assert s'.log == s.log + [x];
      assert EntryOk(s.log, x);
    } else {
      assert s'.log == s.log;
    }
  }

  lemma LongerLog(log: seq<Entry>, longer: seq<Entry>, note: Note, p: nat, e: nat)
    requires LogOk(log) && Extends(log, longer, note)
    ensures LogOk(longer)
    ensures WasRequested(longer, e) <==> WasRequested(log, e) || (note.announced && note.epoch == e)
    ensures IsScheduled(longer, e) <==> IsScheduled(log, e) || (note.announced && note.epoch == e && note.scheduled)
    ensures Newest(longer) == if note.announced then Some(note.epoch) else Newest(log)
    ensures StartedAfterRequest(log, p, e) ==> StartedAfterRequest(longer, p, e)
    ensures CheckedCurrent(log, p, e) ==> CheckedCurrent(longer, p, e)
    ensures Restarted(log, e) ==> Restarted(longer, e)
  {
    if longer != log {
      var x :| longer == log + [x] && EntryOk(log, x) && Describes(x, note);
      AppendOk(log, x);
      AppendRequests(log, x, e);
      AppendKeeps(log, x, p, e);
    }
  }

  lemma LongerStarts(log: seq<Entry>, longer: seq<Entry>, note: Note, p: nat, e: nat)
    requires Extends(log, longer, note)
    ensures StartedBy(longer, p) <==> StartedBy(log, p) || (note.started && note.pid == p)
    ensures HasDied(longer, p) <==> HasDied(log, p) || (note.died && note.pid == p)
    ensures AllDied(log, e) && !(note.started && note.epoch == e) ==> AllDied(longer, e)
  {
    if longer != log {
      var x :| longer == log + [x] && EntryOk(log, x) && Describes(x, note);
      AppendStarts(log, x, p, e);
    }
  }

  /** What the longer log still says about process `p` and epoch `e`. */
  lemma LogStep(s: State, t: Step, p: nat, e: nat)
    requires Inv(s) && Enabled(s, t)
    ensures LogOk(Next(s, t).log)
    ensures WasRequested(Next(s, t).log, e) <==> WasRequested(s.log, e) || (t.Announce? && s.procs[t.pid].epoch == e)
    ensures IsScheduled(Next(s, t).log, e) <==>
            IsScheduled(s.log, e) || (t.Announce? && s.procs[t.pid].epoch == e && s.procs[t.pid].kind.Request?)
    ensures Newest(Next(s, t).log) == if t.Announce? then Some(s.procs[t.pid].epoch) else Newest(s.log)
    ensures StartedAfterRequest(s.log, p, e) ==> StartedAfterRequest(Next(s, t).log, p, e)
    ensures CheckedCurrent(s.log, p, e) ==> CheckedCurrent(Next(s, t).log, p, e)
    ensures Restarted(s.log, e) ==> Restarted(Next(s, t).log, e)
  {
    if !t.Spawn? {
      StepLog(s, t);
      LongerLog(s.log, Next(s, t).log, NoteOf(s, t), p, e);
    }
  }

  /** Whom it names as starting or dying. */
  lemma StartsStep(s: State, t: Step, p: nat, e: nat)
    requires Inv(s) && Enabled(s, t)
    ensures StartedBy(Next(s, t).log, p) <==> StartedBy(s.log, p) || (t.Start? && t.pid == p)
    ensures HasDied(Next(s, t).log, p) <==> HasDied(s.log, p) || (t.Crash? && Unpublished(s.procs[t.pid]) && t.pid == p)
    ensures AllDied(s.log, e) && !(t.Start? && s.procs[t.pid].epoch == e) ==> AllDied(Next(s, t).log, e)
  {
    if !t.Spawn? {
      StepLog(s, t);
      LongerStarts(s.log, Next(s, t).log, NoteOf(s, t), p, e);
    }
  }

  /** The entry that a process adds about itself is there afterwards. */
  lemma OwnEntry(s: State, t: Step)
    requires Inv(s) && Enabled(s, t) && !t.Spawn?
    ensures var log, e := Next(s, t).log, s.procs[t.pid].epoch;
            && (t.Start? ==> StartedAfterRequest(log, t.pid, e))
            && (t.Return? && t.ok ==> Restarted(log, e))
            && (t.Check? && Next(s, t).procs[t.pid].pc.Cleared? ==> CheckedCurrent(log, t.pid, e))
  {
    var log, e := Next(s, t).log, s.procs[t.pid].epoch;
    assert ProcOk(s, t.pid);
    if |log| > |s.log| {
      assert log[..|s.log|] == s.log;
      assert log[|s.log|].epoch == e;
    }
  }

  /** The marker follows the newest request, if the log keeps what it said about both epochs. */
  lemma MarkerFollows(s: State, t: Step)
    requires Enabled(s, t) && !t.Spawn? && MarkerOk(s) && ProcOk(s, t.pid)
    requires var p, longer := s.procs[t.pid], Next(s, t).log;
             && Newest(longer) == (if t.Announce? then Some(p.epoch) else Newest(s.log))
             && (Restarted(s.log, p.epoch) ==> Restarted(longer, p.epoch))
             && (s.marker.Some? && Restarted(s.log, s.marker.value.epoch) ==> Restarted(longer, s.marker.value.epoch))
    ensures MarkerOk(Next(s, t))
  {
  }

  lemma StepMarker(s: State, t: Step)
    requires Inv(s) && Enabled(s, t)
    ensures MarkerOk(Next(s, t))
  {
    if !t.Spawn? {
      assert ProcOk(s, t.pid);
      LogStep(s, t, t.pid, s.procs[t.pid].epoch);
      if s.marker.Some? { LogStep(s, t, t.pid, s.marker.value.epoch); }
      MarkerFollows(s, t);
    }
  }

  /** Only the holder of the state lock changes the marker. */
  lemma MarkerChanges(s: State, t: Step)
    requires Inv(s) && Enabled(s, t) && Next(s, t).marker != s.marker
    ensures s.stateLock == Some(t.pid)
  {
    assert ProcOk(s, t.pid);
  }

  /** What a process that does nothing relies on in the longer log. */
  ghost predicate LogSuits(p: Proc, q: nat, log: seq<Entry>, longer: seq<Entry>) {
    && (WasRequested(log, p.epoch) ==> WasRequested(longer, p.epoch))
    && (p.pc.Begin? || p.pc.Announcing? ==> !WasRequested(longer, p.epoch))
    && (p.kind.Sync? ==> (IsScheduled(longer, p.epoch) ==> IsScheduled(log, p.epoch)))
    && (StartedAfterRequest(log, q, p.epoch) ==> StartedAfterRequest(longer, q, p.epoch))
    && (CheckedCurrent(log, q, p.epoch) ==> CheckedCurrent(longer, q, p.epoch))
    && (Restarted(log, p.epoch) ==> Restarted(longer, p.epoch))
  }

  lemma BystanderStep(s: State, t: Step, q: nat)
    requires Enabled(s, t) && q in s.procs && q != t.pid && ProcOk(s, q)
    requires q in Next(s, t).procs && Next(s, t).procs[q] == s.procs[q]
    requires s.procs[q].pc.Compared? ==> Next(s, t).marker == s.marker
    requires LogSuits(s.procs[q], q, s.log, Next(s, t).log)
    ensures ProcOk(Next(s, t), q)
  {
  }

  lemma BystanderLog(s: State, t: Step, q: nat)
    requires Inv(s) && Enabled(s, t) && q in s.procs && q != t.pid
    ensures LogSuits(s.procs[q], q, s.log, Next(s, t).log)
  {
    assert ProcOk(s, q);
    LogStep(s, t, q, s.procs[q].epoch);
    if !t.Spawn? { assert ProcOk(s, t.pid); }
  }

  lemma BystanderOk(s: State, t: Step, q: nat)
    requires Inv(s) && Enabled(s, t) && q in s.procs && q != t.pid
    ensures ProcOk(Next(s, t), q)
  {
    assert ProcOk(s, q);
    BystanderLog(s, t, q);
    if Next(s, t).marker != s.marker { MarkerChanges(s, t); }
    assert Next(s, t).procs[q] == s.procs[q];
    BystanderStep(s, t, q);
  }

  lemma {:induction false} NewestWasRequested(log: seq<Entry>)
    ensures Newest(log).Some? ==> WasRequested(log, Newest(log).value)
  {
    if log != [] && !log[|log| - 1].Requested? {
      NewestWasRequested(log[..|log| - 1]);
      if Newest(log).Some? {
        AppendRequests(log[..|log| - 1], log[|log| - 1], Newest(log).value);
        assert log[..|log| - 1] + [log[|log| - 1]] == log;
      }
    }
  }

  /** What the later proof about a process needs of the longer log. */
  ghost predicate LogFollows(log: seq<Entry>, longer: seq<Entry>, p: nat, e: nat) {
    && (WasRequested(longer, e) <==> WasRequested(log, e))
    && (IsScheduled(longer, e) <==> IsScheduled(log, e))
    && (CheckedCurrent(log, p, e) ==> CheckedCurrent(longer, p, e))
    && (Restarted(log, e) ==> Restarted(longer, e))
  }

  lemma CheckerStep(s: State, t: Step)
    requires Enabled(s, t) && t.Check? && ProcOk(s, t.pid)
    requires MarkerOk(s)
    requires LogFollows(s.log, Next(s, t).log, t.pid, s.procs[t.pid].epoch)
    requires Next(s, t).procs[t.pid].pc.Cleared? ==> CheckedCurrent(Next(s, t).log, t.pid, s.procs[t.pid].epoch)
    requires Newest(s.log).Some? ==> WasRequested(s.log, Newest(s.log).value)
    ensures ProcOk(Next(s, t), t.pid)
  {
  }

  lemma CheckerOk(s: State, t: Step)
    requires Inv(s) && Enabled(s, t) && t.Check?
    ensures ProcOk(Next(s, t), t.pid)
  {
    assert ProcOk(s, t.pid);
    var e := s.procs[t.pid].epoch;
    LogStep(s, t, t.pid, e);
    OwnEntry(s, t);
    NewestWasRequested(s.log);
    CheckerStep(s, t);
  }

  lemma StartStep(s: State, t: Step)
    requires Enabled(s, t) && t.Start? && ProcOk(s, t.pid)
    requires LogFollows(s.log, Next(s, t).log, t.pid, s.procs[t.pid].epoch)
    requires StartedAfterRequest(Next(s, t).log, t.pid, s.procs[t.pid].epoch)
    ensures ProcOk(Next(s, t), t.pid)
  {
  }

  lemma EndStep(s: State, t: Step)
    requires Enabled(s, t) && (t.Return? || t.Raise?) && ProcOk(s, t.pid)
    requires LogFollows(s.log, Next(s, t).log, t.pid, s.procs[t.pid].epoch)
    requires t.Return? && t.ok ==> Restarted(Next(s, t).log, s.procs[t.pid].epoch)
    ensures ProcOk(Next(s, t), t.pid)
  {
  }

  lemma CommandOk(s: State, t: Step)
    requires Inv(s) && Enabled(s, t) && (t.Start? || t.Return? || t.Raise?)
    ensures ProcOk(Next(s, t), t.pid)
  {
    assert ProcOk(s, t.pid);
    LogStep(s, t, t.pid, s.procs[t.pid].epoch);
    OwnEntry(s, t);
    if t.Start? { StartStep(s, t); } else { EndStep(s, t); }
  }

  lemma AnnounceStep(s: State, t: Step)
    requires Enabled(s, t) && t.Announce? && ProcOk(s, t.pid)
    requires var p, longer := s.procs[t.pid], Next(s, t).log;
             WasRequested(longer, p.epoch) &&
             (IsScheduled(longer, p.epoch) ==> IsScheduled(s.log, p.epoch) || p.kind.Request?)
    ensures ProcOk(Next(s, t), t.pid)
  {
  }

  lemma OtherStep(s: State, t: Step)
    requires Enabled(s, t) && !t.Spawn? && !t.Check? && !t.Start? && !t.Return? && !t.Raise? && !t.Announce?
    requires ProcOk(s, t.pid) && LogFollows(s.log, Next(s, t).log, t.pid, s.procs[t.pid].epoch)
    ensures ProcOk(Next(s, t), t.pid)
  {
  }

  lemma OtherOk(s: State, t: Step)
    requires Inv(s) && Enabled(s, t) && !t.Spawn? && !t.Check? && !t.Start? && !t.Return? && !t.Raise?
    ensures ProcOk(Next(s, t), t.pid)
  {
    assert ProcOk(s, t.pid);
    LogStep(s, t, t.pid, s.procs[t.pid].epoch);
    if t.Announce? { AnnounceStep(s, t); } else { OtherStep(s, t); }
  }

  lemma NewcomerOk(s: State, t: Step, q: nat)
    requires Inv(s) && Enabled(s, t) && q !in s.procs && q in Next(s, t).procs
    ensures ProcOk(Next(s, t), q)
  {
    LogStep(s, t, q, Next(s, t).procs[q].epoch);
  }

  lemma StepProc(s: State, t: Step, q: nat)
    requires Inv(s) && Enabled(s, t) && q in Next(s, t).procs
    ensures ProcOk(Next(s, t), q)
  {
    if q !in s.procs {
      NewcomerOk(s, t, q);
    } else if q == t.pid {
      if t.Check? { CheckerOk(s, t); }
      else if t.Start? || t.Return? || t.Raise? { CommandOk(s, t); }
      else { OtherOk(s, t); }
    } else {
      BystanderOk(s, t, q);
    }
  }

  // ---- Who has started what ----

  lemma StepTracked(s: State, t: Step)
    requires LogTracked(s) && Enabled(s, t)
    ensures LogTracked(Next(s, t))
  {
    var s' := Next(s, t);
    forall i | 0 <= i < |s'.log| ensures EntryTracked(s', s'.log[i]) {
      if i < |s.log| { assert EntryTracked(s, s.log[i]); }
    }
  }

  lemma StarterKnown(s: State, p: nat)
    requires LogOk(s.log) && LogTracked(s) && StartedBy(s.log, p)
    ensures p in s.procs && !s.procs[p].kind.Request? && WasRequested(s.log, s.procs[p].epoch)
  {
    var i :| 0 <= i < |s.log| && s.log[i].Started? && s.log[i].pid == p;
    assert EntryTracked(s, s.log[i]);
    assert EntryOk(s.log[..i], s.log[i]);
    StartedWasRequested(s.log, i);
  }

  lemma DeadKnown(s: State, p: nat)
    requires LogTracked(s) && HasDied(s.log, p)
    ensures p in s.procs
  {
    var i :| 0 <= i < |s.log| && s.log[i].Died? && s.log[i].pid == p;
    assert EntryTracked(s, s.log[i]);
  }

  /**
   Whoever is still wanted, holds the worker lock and has not started anything finds all starters of its epoch dead.
   */
  lemma StartersDied(s: State, p: nat)
    requires Inv(s) && p in s.procs && s.procs[p].kind.Worker? && s.procs[p].pc.Draining?
    requires StillWanted(s.marker, s.procs[p].epoch) && IsScheduled(s.log, s.procs[p].epoch)
    ensures AllDied(s.log, s.procs[p].epoch)
  {
    var e := s.procs[p].epoch;
    forall i | 0 <= i < |s.log| && s.log[i].Started? && s.log[i].epoch == e ensures HasDied(s.log, s.log[i].pid) {
      var q := s.log[i].pid;
      assert EntryTracked(s, s.log[i]);
      StarterKnown(s, q);
      assert ProcOk(s, p) && ProcOk(s, q) && Accounted(s, q);
    }
  }

  /** What a process that does nothing needs of the longer log and the new marker to stay accounted for. */
  ghost predicate Undisturbed(s: State, next: State, q: nat)
    requires q in s.procs
  {
    var e := s.procs[q].epoch;
    && (StartedBy(next.log, q) ==> StartedBy(s.log, q)) && (HasDied(next.log, q) <==> HasDied(s.log, q))
    && (StartedBy(s.log, q) && IsScheduled(next.log, e) ==> IsScheduled(s.log, e))
    && (StartedBy(s.log, q) && StillWanted(next.marker, e) ==> StillWanted(s.marker, e))
    && (s.procs[q].pc.Cleared? && IsScheduled(next.log, e) ==> IsScheduled(s.log, e))
    && (s.procs[q].pc.Cleared? && AllDied(s.log, e) ==> AllDied(next.log, e))
  }

  lemma AccountedStep(s: State, next: State, q: nat)
    requires q in s.procs && q in next.procs && next.procs[q] == s.procs[q]
    requires Accounted(s, q) && Undisturbed(s, next, q)
    ensures Accounted(next, q)
  {
  }

  /** Only an announcement makes a marker wait for an epoch. */
  lemma WantedBefore(s: State, t: Step, e: nat)
    requires Enabled(s, t) && (t.Spawn? || ProcOk(s, t.pid))
    ensures StillWanted(Next(s, t).marker, e) ==> StillWanted(s.marker, e) || (t.Announce? && s.procs[t.pid].epoch == e)
  {
  }

  /** While one process is cleared no other one starts a command. */
  lemma ClearedIsAlone(s: State, t: Step, q: nat)
    requires WorkerLockOk(s) && Enabled(s, t) && q in s.procs && q != t.pid && s.procs[q].pc.Cleared?
    requires s.procs[q].kind.Worker?
    ensures !t.Start?
  {
  }

  lemma OtherUndisturbed(s: State, t: Step, q: nat)
    requires Inv(s) && Enabled(s, t) && q in s.procs && q != t.pid
    ensures Undisturbed(s, Next(s, t), q)
  {
    var e := s.procs[q].epoch;
    assert ProcOk(s, q);
    LogStep(s, t, q, e);
    StartsStep(s, t, q, e);
    if StartedBy(s.log, q) { StarterKnown(s, q); }
    assert t.Spawn? || ProcOk(s, t.pid);
    WantedBefore(s, t, e);
    if s.procs[q].pc.Cleared? { ClearedIsAlone(s, t, q); }
  }

  lemma OtherAccounted(s: State, t: Step, q: nat)
    requires Inv(s) && Enabled(s, t) && q in s.procs && q != t.pid
    ensures Accounted(Next(s, t), q)
  {
    assert Accounted(s, q);
    OtherUndisturbed(s, t, q);
    AccountedStep(s, Next(s, t), q);
  }

  lemma CheckedAccounted(s: State, t: Step)
    requires Inv(s) && Enabled(s, t) && t.Check?
    ensures Accounted(Next(s, t), t.pid)
  {
    var e := s.procs[t.pid].epoch;
    assert ProcOk(s, t.pid) && Accounted(s, t.pid);
    LogStep(s, t, t.pid, e);
    StartsStep(s, t, t.pid, e);
    if Next(s, t).procs[t.pid].pc.Cleared? && IsScheduled(s.log, e) { StartersDied(s, t.pid); }
  }

  lemma PublishedAccounted(s: State, t: Step)
    requires Inv(s) && Enabled(s, t) && t.Publish?
    ensures Accounted(Next(s, t), t.pid)
  {
    assert ProcOk(s, t.pid) && Accounted(s, t.pid);
    LogStep(s, t, t.pid, s.procs[t.pid].epoch);
    StartsStep(s, t, t.pid, s.procs[t.pid].epoch);
  }

  lemma DeadAccounted(s: State, t: Step)
    requires Inv(s) && Enabled(s, t) && t.Crash?
    ensures Accounted(Next(s, t), t.pid)
  {
    assert ProcOk(s, t.pid) && Accounted(s, t.pid);
    LogStep(s, t, t.pid, s.procs[t.pid].epoch);
    StartsStep(s, t, t.pid, s.procs[t.pid].epoch);
    if StartedBy(s.log, t.pid) { StarterKnown(s, t.pid); }
  }

  lemma OwnAccounted(s: State, t: Step)
    requires Inv(s) && Enabled(s, t) && !t.Spawn? && !t.Check? && !t.Publish? && !t.Crash?
    ensures Accounted(Next(s, t), t.pid)
  {
    assert ProcOk(s, t.pid) && Accounted(s, t.pid);
    LogStep(s, t, t.pid, s.procs[t.pid].epoch);
    StartsStep(s, t, t.pid, s.procs[t.pid].epoch);
    if StartedBy(s.log, t.pid) { StarterKnown(s, t.pid); }
  }

  lemma NewcomerAccounted(s: State, t: Step, q: nat)
    requires Inv(s) && Enabled(s, t) && q !in s.procs && q in Next(s, t).procs
    ensures Accounted(Next(s, t), q)
  {
    StartsStep(s, t, q, Next(s, t).procs[q].epoch);
    if StartedBy(s.log, q) { StarterKnown(s, q); }
    if HasDied(s.log, q) { DeadKnown(s, q); }
  }

  lemma StepAccounted(s: State, t: Step, q: nat)
    requires Inv(s) && Enabled(s, t) && q in Next(s, t).procs
    ensures Accounted(Next(s, t), q)
  {
    if q !in s.procs { NewcomerAccounted(s, t, q); }
    else if q != t.pid { OtherAccounted(s, t, q); }
    else if t.Check? { CheckedAccounted(s, t); }
    else if t.Publish? { PublishedAccounted(s, t); }
    else if t.Crash? { DeadAccounted(s, t); }
    else { OwnAccounted(s, t); }
  }

  lemma StepKeepsInv(s: State, t: Step)
    requires Inv(s) && Enabled(s, t)
    ensures Inv(Next(s, t))
  {
    forall p | p in s.procs ensures Shape(s.procs[p]) {
      assert ProcOk(s, p);
    }
    StepStateLock(s, t);
    StepWorkerLock(s, t);
    StepFlying(s, t);
    StepRequesters(s, t);
    StepMarker(s, t);
    LogStep(s, t, 0, 0);
    StepTracked(s, t);
    forall q | q in Next(s, t).procs ensures ProcOk(Next(s, t), q) && Accounted(Next(s, t), q) {
      StepProc(s, t, q);
      StepAccounted(s, t, q);
    }
  }

  lemma {:induction false} TraceKeepsInv(s: State, ts: seq<Step>)
    requires Inv(s) && Trace(s, ts)
    ensures Inv(After(s, ts))
    decreases |ts|
  {
    if ts != [] {
      StepKeepsInv(s, ts[0]);
      TraceKeepsInv(Next(s, ts[0]), ts[1..]);
    }
  }

  lemma InitialInv()
    ensures Inv(INITIAL)
  {
  }

  /** Every state that an interleaving reaches from the start keeps the invariants. */
  lemma ReachedInv(ts: seq<Step>)
    requires Trace(INITIAL, ts)
    ensures Inv(After(INITIAL, ts))
  {
    InitialInv();
    TraceKeepsInv(INITIAL, ts);
  }

  // ---- Every interleaving ----

  /** A marker that reads ready comes from a restart that was started after its request and returned 0. */
  lemma ReadyMeansRestarted(ts: seq<Step>, epoch: nat)
    requires Trace(INITIAL, ts)
    requires var m := After(INITIAL, ts).marker; m.Some? && m.value.phase.Ready? && m.value.epoch == epoch
    ensures var log := After(INITIAL, ts).log;
            exists i, j, k :: 0 <= i < j < k < |log| && RestartAt(log, epoch, i, j, k)
  {
    ReachedInv(ts);
    RestartedInOrder(After(INITIAL, ts).log, epoch);
  }

  lemma RestartedInOrder(log: seq<Entry>, epoch: nat)
    requires Restarted(log, epoch)
    ensures exists i, j, k :: 0 <= i < j < k < |log| && RestartAt(log, epoch, i, j, k)
  {
    var k :| 0 <= k < |log| && log[k].Returned? && log[k].epoch == epoch && log[k].ok &&
        StartedAfterRequest(log[..k], log[k].pid, epoch);
    var j :| 0 <= j < k && log[..k][j].Started? && log[..k][j].pid == log[k].pid && log[..k][j].epoch == epoch &&
        WasRequested(log[..k][..j], epoch);
    var i :| 0 <= i < j && log[..k][..j][i].Requested? && log[..k][..j][i].epoch == epoch;
    assert RestartAt(log, epoch, i, j, k);
  }

  predicate RestartAt(log: seq<Entry>, epoch: nat, i: nat, j: nat, k: nat)
    requires i < |log| && j < |log| && k < |log|
  {
    && log[i].Requested? && log[i].epoch == epoch
    && log[j].Started? && log[j].epoch == epoch
    && log[k] == Returned(log[j].pid, epoch, true)
  }

  /** The marker always belongs to the newest request, and so does every outcome when it is published. */
  lemma OlderOutcomesNeverWin(ts: seq<Step>)
    requires Trace(INITIAL, ts)
    ensures var s := After(INITIAL, ts);
            && Newest(s.log) == (if s.marker.None? then None else Some(s.marker.value.epoch))
            && forall i :: 0 <= i < |s.log| && s.log[i].Published? ==> Newest(s.log[..i]) == Some(s.log[i].epoch)
  {
    ReachedInv(ts);
    var log := After(INITIAL, ts).log;
    forall i | 0 <= i < |log| && log[i].Published? ensures Newest(log[..i]) == Some(log[i].epoch) {
      assert EntryOk(log[..i], log[i]);
    }
  }

  /** Two restart commands are in flight. */
  ghost predicate Crowded(s: State) {
    exists p, q :: p in s.flying && q in s.flying && p != q
  }

  /** A command is in flight whose process is dead. */
  ghost predicate Orphaned(s: State) {
    exists p :: p in s.flying && p in s.procs && s.procs[p].pc.Done?
  }

  /** Of two restart commands in flight one has lost its process. */
  lemma OneCommandInFlight(ts: seq<Step>, p: nat, q: nat)
    requires Trace(INITIAL, ts)
    requires p in After(INITIAL, ts).flying && q in After(INITIAL, ts).flying && p != q
    ensures var procs := After(INITIAL, ts).procs;
            p in procs && q in procs && (procs[p].pc.Done? || procs[q].pc.Done?)
  {
    ReachedInv(ts);
    var s := After(INITIAL, ts);
    assert ProcOk(s, p) && ProcOk(s, q);
  }

  /** A second command comes into flight exactly when one is started while an orphan is still running. */
  lemma StartCrowds(s: State, t: Step)
    requires Inv(s) && Enabled(s, t) && !Crowded(s)
    ensures Crowded(Next(s, t)) <==> t.Start? && Orphaned(s)
  {
    if t.Start? {
      assert ProcOk(s, t.pid) && t.pid in Next(s, t).flying;
      forall p | p in s.flying ensures p != t.pid && s.procs[p].pc.Done? {
        assert ProcOk(s, p);
      }
    } else {
      assert Next(s, t).flying <= s.flying;
    }
  }

  lemma {:induction false} TracePrefix(s: State, ts: seq<Step>, k: nat)
    requires Trace(s, ts) && k <= |ts|
    ensures Trace(s, ts[..k])
    ensures k < |ts| ==> Enabled(After(s, ts[..k]), ts[k])
    ensures k < |ts| ==> Trace(s, ts[..k + 1]) && After(s, ts[..k + 1]) == Next(After(s, ts[..k]), ts[k])
    decreases |ts|
  {
    if k == 0 {
      if ts != [] { assert ts[..1][1..] == []; }
    } else {
      TracePrefix(Next(s, ts[0]), ts[1..], k - 1);
      assert ts[..k][1..] == ts[1..][..k - 1];
      if k < |ts| { assert ts[..k + 1][1..] == ts[1..][..k]; }
    }
  }

  /** Somewhere in the trace a command is started while an orphan is still running. */
  ghost predicate StartsBesideOrphan(ts: seq<Step>, n: nat)
    requires Trace(INITIAL, ts) && n <= |ts|
  {
    exists k: nat :: k < n && ts[k].Start? && Trace(INITIAL, ts[..k]) && Orphaned(After(INITIAL, ts[..k]))
  }

  ghost predicate CrowdedBy(ts: seq<Step>, n: nat)
    requires Trace(INITIAL, ts) && n <= |ts|
  {
    exists k: nat :: k <= n && Trace(INITIAL, ts[..k]) && Crowded(After(INITIAL, ts[..k]))
  }

  /** Two commands are ever in flight together if and only if one was started beside an orphan. */
  lemma {:induction false} OverlapExact(ts: seq<Step>, n: nat)
    requires Trace(INITIAL, ts) && n <= |ts|
    ensures CrowdedBy(ts, n) <==> StartsBesideOrphan(ts, n)
    decreases n
  {
    TracePrefix(INITIAL, ts, n);
    if n == 0 {
      assert After(INITIAL, ts[..0]) == INITIAL;
    } else {
      var k := n - 1;
      OverlapExact(ts, k);
      TracePrefix(INITIAL, ts, k);
      ReachedInv(ts[..k]);
      var s := After(INITIAL, ts[..k]);
      if !CrowdedBy(ts, k) {
        assert !Crowded(s);
        StartCrowds(s, ts[k]);
        CrowdedNow(ts, n);
      }
    }
  }

  lemma CrowdedNow(ts: seq<Step>, n: nat)
    requires Trace(INITIAL, ts) && 0 < n <= |ts| && Trace(INITIAL, ts[..n]) && Trace(INITIAL, ts[..n - 1])
    requires !CrowdedBy(ts, n - 1) && !StartsBesideOrphan(ts, n - 1)
    ensures CrowdedBy(ts, n) <==> Crowded(After(INITIAL, ts[..n]))
    ensures StartsBesideOrphan(ts, n) <==> ts[n - 1].Start? && Orphaned(After(INITIAL, ts[..n - 1]))
  {
    if CrowdedBy(ts, n) {
      var k: nat :| k <= n && Trace(INITIAL, ts[..k]) && Crowded(After(INITIAL, ts[..k]));
      assert k == n;
    }
    if StartsBesideOrphan(ts, n) {
      var k: nat :| k < n && ts[k].Start? && Trace(INITIAL, ts[..k]) && Orphaned(After(INITIAL, ts[..k]));
      assert k == n - 1;
    }
  }

  /** No process dies while its command is in flight. */
  ghost predicate SparesCommands(s: State, ts: seq<Step>)
    requires Trace(s, ts)
    decreases |ts|
  {
    ts == [] || (!(ts[0].Crash? && s.procs[ts[0].pid].pc.InFlight?) && SparesCommands(Next(s, ts[0]), ts[1..]))
  }

  lemma StepOrphansNothing(s: State, t: Step)
    requires FlyingOk(s) && !Orphaned(s) && Enabled(s, t) && !(t.Crash? && s.procs[t.pid].pc.InFlight?)
    ensures !Orphaned(Next(s, t))
  {
    forall p | p in Next(s, t).flying && p != t.pid ensures p in s.procs && !s.procs[p].pc.Done? {
      assert p in s.flying;
    }
  }

  lemma {:induction false} SparedCommandsAreOwned(s: State, ts: seq<Step>)
    requires Inv(s) && !Orphaned(s) && Trace(s, ts) && SparesCommands(s, ts)
    ensures !Orphaned(After(s, ts))
    decreases |ts|
  {
    if ts != [] {
      StepKeepsInv(s, ts[0]);
      StepOrphansNothing(s, ts[0]);
      SparedCommandsAreOwned(Next(s, ts[0]), ts[1..]);
    }
  }

  /** As long as no process dies with its command in flight, at most one command is. */
  lemma OneCommandUntilDeath(ts: seq<Step>)
    requires Trace(INITIAL, ts) && SparesCommands(INITIAL, ts)
    ensures !Crowded(After(INITIAL, ts))
  {
    InitialInv();
    SparedCommandsAreOwned(INITIAL, ts);
    ReachedInv(ts);
    if Crowded(After(INITIAL, ts)) {
      var p, q :| p in After(INITIAL, ts).flying && q in After(INITIAL, ts).flying && p != q;
      OneCommandInFlight(ts, p, q);
    }
  }

  lemma RequestsDiffer(log: seq<Entry>, k: nat, r: nat)
    requires LogOk(log) && k < r < |log| && log[k].Requested? && log[r].Requested?
    ensures log[k].epoch != log[r].epoch
  {
    assert EntryOk(log[..r], log[r]);
    assert log[..r][k] == log[k];
  }

  lemma RequestPrecedesStart(log: seq<Entry>, r: nat, i: nat)
    requires LogOk(log) && r < |log| && i < |log| && log[r].Requested? && log[i].Started? &&
             log[i].epoch == log[r].epoch
    ensures r < i
  {
    assert EntryOk(log[..i], log[i]);
    var k :| 0 <= k < i && log[..i][k].Requested? && log[..i][k].epoch == log[r].epoch;
    if k < r { RequestsDiffer(log, k, r); }
  }

  lemma NobodyDied(log: seq<Entry>, p: nat)
    requires !HasDied(log, p)
    ensures forall m :: 0 <= m < |log| && log[m].Died? ==> log[m].pid != p
  {
  }

  /** The log of a scheduled request `r`: between two starts of it lies the death of the one that made the first. */
  lemma DeathBetween(log: seq<Entry>, r: nat, i: nat, j: nat)
    requires LogOk(log) && r < i < j < |log| && log[r].Requested? && log[r].scheduled
    requires log[i].Started? && log[j].Started? && log[i].epoch == log[j].epoch == log[r].epoch
    ensures log[i].pid != log[j].pid
    ensures exists k :: i < k < j && log[k].Died? && log[k].pid == log[i].pid
  {
    var before := log[..j];
    assert EntryOk(before, log[j]) && before[r] == log[r] && before[i] == log[i];
    assert HasDied(before, log[i].pid);
    var k :| 0 <= k < j && before[k].Died? && before[k].pid == log[i].pid;
    assert EntryOk(log[..i], log[i]);
    NobodyDied(log[..i], log[i].pid);
    assert log[k] == before[k] && forall m :: 0 <= m < i ==> log[..i][m] == log[m];
  }

  /**
   However many workers are launched for it, a scheduled epoch is started again only after the worker that
   started it died with its command in flight or its outcome unpublished.
   */
  lemma StartsAgainAfterDeath(ts: seq<Step>, i: nat, j: nat)
    requires Trace(INITIAL, ts) && i < j < |After(INITIAL, ts).log|
    requires var log := After(INITIAL, ts).log;
             log[i].Started? && log[j].Started? && log[i].epoch == log[j].epoch && IsScheduled(log, log[i].epoch)
    ensures var log := After(INITIAL, ts).log;
            log[i].pid != log[j].pid && exists k :: i < k < j && log[k].Died? && log[k].pid == log[i].pid
  {
    ReachedInv(ts);
    var log := After(INITIAL, ts).log;
    var r :| 0 <= r < |log| && log[r] == Requested(log[i].epoch, true);
    RequestPrecedesStart(log, r, i);
    DeathBetween(log, r, i, j);
  }

  // ---- One worker for each epoch, as the program launches them ----

  /** Workers only come from requests that detach them. */
  predicate OnlyDetached(ts: seq<Step>) {
    forall t <- ts :: t.Spawn? ==> !t.kind.Worker?
  }

  ghost predicate WorkersDiffer(s: State) {
    forall p, q ::
      p in s.procs && q in s.procs && p != q && s.procs[p].kind.Worker? && s.procs[p].epoch == s.procs[q].epoch ==>
      s.procs[q].kind.Request? && s.procs[q].pc.Done?
  }

  lemma StepWorkersDiffer(s: State, t: Step)
    requires RequestersDiffer(s) && Enabled(s, t) && WorkersDiffer(s) && (t.Spawn? ==> !t.kind.Worker?)
    ensures WorkersDiffer(Next(s, t))
  {
  }

  lemma {:induction false} TraceWorkersDiffer(s: State, ts: seq<Step>)
    requires Inv(s) && Trace(s, ts) && WorkersDiffer(s) && OnlyDetached(ts)
    ensures WorkersDiffer(After(s, ts))
    decreases |ts|
  {
    if ts != [] {
      assert ts[0] in ts && forall t :: t in ts[1..] ==> t in ts;
      StepKeepsInv(s, ts[0]);
      StepWorkersDiffer(s, ts[0]);
      TraceWorkersDiffer(Next(s, ts[0]), ts[1..]);
    }
  }

  lemma ScheduledStarter(s: State, i: nat)
    requires Inv(s) && i < |s.log| && s.log[i].Started? && IsScheduled(s.log, s.log[i].epoch)
    ensures var p := s.log[i].pid; p in s.procs && s.procs[p].kind.Worker? && s.procs[p].epoch == s.log[i].epoch
  {
    var p := s.log[i].pid;
    assert EntryTracked(s, s.log[i]);
    StarterKnown(s, p);
    assert ProcOk(s, p);
  }

  /**
   With one worker for each request, as the program launches them, a scheduled epoch is started at most once, whoever
   dies.
   */
  lemma ScheduledEpochStartsOnce(ts: seq<Step>, i: nat, j: nat)
    requires Trace(INITIAL, ts) && OnlyDetached(ts) && i < j < |After(INITIAL, ts).log|
    requires var log := After(INITIAL, ts).log; log[i].Started? && log[j].Started? && log[i].epoch == log[j].epoch
    ensures !IsScheduled(After(INITIAL, ts).log, After(INITIAL, ts).log[i].epoch)
  {
    ReachedInv(ts);
    InitialInv();
    TraceWorkersDiffer(INITIAL, ts);
    var s := After(INITIAL, ts);
    if IsScheduled(s.log, s.log[i].epoch) {
      StartsAgainAfterDeath(ts, i, j);
      ScheduledStarter(s, i);
      ScheduledStarter(s, j);
    }
  }

  /** A worker starts the command only after a second check that saw its epoch as the newest request. */
  lemma WorkerStartsAfterCheck(ts: seq<Step>, j: nat)
    requires Trace(INITIAL, ts) && j < |After(INITIAL, ts).log|
    requires var log := After(INITIAL, ts).log; log[j].Started? && log[j].kind.Worker?
    ensures var log := After(INITIAL, ts).log;
            exists i :: 0 <= i < j && log[i] == Checked(log[j].pid, log[j].epoch) &&
              Newest(log[..i]) == Some(log[j].epoch)
  {
    ReachedInv(ts);
    var log := After(INITIAL, ts).log;
    assert EntryOk(log[..j], log[j]);
    var i :| 0 <= i < j && log[..j][i] == Checked(log[j].pid, log[j].epoch) &&
        Newest(log[..j][..i]) == Some(log[j].epoch);
    assert log[..j][..i] == log[..i];
  }

  /** A newer request exists and no worker of `e` has passed its second check. */
  ghost predicate Superseded(s: State, e: nat) {
    && WasRequested(s.log, e)
    && s.marker.Some? && s.marker.value.epoch != e
    && (forall p :: p in s.procs && s.procs[p].pc.Cleared? ==> s.procs[p].epoch != e)
  }

  predicate WorkerStartOf(x: Entry, e: nat) {
    x.Started? && x.epoch == e && x.kind.Worker?
  }

  lemma StepStaysSuperseded(s: State, t: Step, e: nat)
    requires Enabled(s, t) && Superseded(s, e) && (t.Spawn? || ProcOk(s, t.pid))
    requires WasRequested(Next(s, t).log, e)
    ensures Superseded(Next(s, t), e)
  {
  }

  lemma SupersededStep(s: State, t: Step, e: nat)
    requires Inv(s) && Enabled(s, t) && Superseded(s, e)
    ensures forall i :: |s.log| <= i < |Next(s, t).log| ==> !WorkerStartOf(Next(s, t).log[i], e)
  {
    if t.Start? { assert ProcOk(s, t.pid); }
  }

  lemma LogGrows(s: State, t: Step)
    requires Enabled(s, t)
    ensures s.log <= Next(s, t).log
  {
  }

  /** From then on no worker ever starts the command for `e`. */
  lemma {:induction false} SupersededNeverStarts(s: State, ts: seq<Step>, e: nat)
    requires Inv(s) && Trace(s, ts) && Superseded(s, e)
    ensures Superseded(After(s, ts), e) && s.log <= After(s, ts).log
    ensures forall i :: |s.log| <= i < |After(s, ts).log| ==> !WorkerStartOf(After(s, ts).log[i], e)
    decreases |ts|
  {
    if ts != [] {
      var next := Next(s, ts[0]);
      StepKeepsInv(s, ts[0]);
      LogStep(s, ts[0], 0, e);
      assert ts[0].Spawn? || ProcOk(s, ts[0].pid);
      StepStaysSuperseded(s, ts[0], e);
      SupersededStep(s, ts[0], e);
      LogGrows(s, ts[0]);
      SupersededNeverStarts(next, ts[1..], e);
      forall i | |s.log| <= i < |After(s, ts).log| ensures !WorkerStartOf(After(s, ts).log[i], e) {
        if i < |next.log| { assert After(s, ts).log[i] == next.log[i]; }
      }
    }
  }

  // ---- What a death lets happen ----

  /**
   A process that dies with its command in flight frees the worker lock while the command lives on: a
   synchronous request that waits starts a second one.
   */
  lemma DeathInFlightOverlaps(s: State, p: nat, q: nat)
    requires Inv(s) && p in s.procs && s.procs[p].pc.InFlight?
    requires q in s.procs && s.procs[q].kind.Sync? && s.procs[q].pc.Waiting?
    ensures var ts := [Crash(p), TakeWorker(q), Start(q)];
            Trace(s, ts) && p != q && {p, q} <= After(s, ts).flying
  {
    assert ProcOk(s, p) && ProcOk(s, q);
    var dead := Next(s, Crash(p));
    var locked := Next(dead, TakeWorker(q));
    OneStep(locked, Start(q), []);
    OneStep(dead, TakeWorker(q), [Start(q)]);
    OneStep(s, Crash(p), [TakeWorker(q), Start(q)]);
    assert [Crash(p)] + [TakeWorker(q), Start(q)] == [Crash(p), TakeWorker(q), Start(q)];
  }

  /**
   And a second worker for its epoch, if one was launched, starts the same epoch again while the marker waits for it.
   */
  lemma DeathStartsAgain(s: State, p: nat, q: nat, now: int)
    requires Inv(s) && p in s.procs && s.procs[p].kind.Worker? && s.procs[p].pc.InFlight?
    requires q in s.procs && s.procs[q].kind.Worker? && s.procs[q].pc.Waiting? && s.procs[q].epoch == s.procs[p].epoch
    requires StillWanted(s.marker, s.procs[p].epoch) && !IsStale(s.marker.value, now)
    ensures var ts := [Crash(p), TakeWorker(q), Check(q, now), Check(q, now), Start(q)];
            Trace(s, ts) && StartedBy(s.log, p) && StartedBy(After(s, ts).log, q)
  {
    assert ProcOk(s, p) && ProcOk(s, q);
    var started :| 0 <= started < |s.log| && s.log[started].Started? && s.log[started].pid == p;
    var check := Check(q, now);
    var s1 := Next(s, Crash(p));
    var s2 := Next(s1, TakeWorker(q));
    var s3 := Next(s2, check);
    var s4 := Next(s3, check);
    var s5 := Next(s4, Start(q));
    assert s5.log[|s4.log|] == Started(q, s.procs[q].epoch, Worker);
    OneStep(s4, Start(q), []);
    OneStep(s3, check, [Start(q)]);
    OneStep(s2, check, [check, Start(q)]);
    OneStep(s1, TakeWorker(q), [check, check, Start(q)]);
    OneStep(s, Crash(p), [TakeWorker(q), check, check, Start(q)]);
  }

  lemma OneStep(s: State, t: Step, ts: seq<Step>)
    requires Enabled(s, t) && Trace(Next(s, t), ts)
    ensures Trace(s, [t] + ts) && After(s, [t] + ts) == After(Next(s, t), ts)
  {
    assert ([t] + ts)[1..] == ts;
  }

  lemma {:induction false} TraceJoin(s: State, a: seq<Step>, b: seq<Step>)
    requires Trace(s, a) && Trace(After(s, a), b)
    ensures Trace(s, a + b) && After(s, a + b) == After(After(s, a), b)
    decreases |a|
  {
    if a == [] {
      assert a + b == b;
    } else {
      TraceJoin(Next(s, a[0]), a[1..], b);
      assert (a + b)[1..] == a[1..] + b;
    }
  }

  // ---- Both happen from the start ----

  /** One synchronous request has its command in flight while another one waits. */
  lemma OneFliesOneWaits() returns (ts: seq<Step>)
    ensures Trace(INITIAL, ts)
    ensures var s := After(INITIAL, ts);
            && 0 in s.procs && s.procs[0].pc.InFlight?
            && 1 in s.procs && s.procs[1].kind.Sync? && s.procs[1].pc.Waiting?
  {
    var s1 := Next(INITIAL, Spawn(0, Sync, 1));
    var s2 := Next(s1, TakeState(0));
    var s3 := Next(s2, Announce(0, 10));
    var s4 := Next(s3, Spawn(1, Sync, 2));
    var s5 := Next(s4, TakeState(1));
    var s6 := Next(s5, Announce(1, 10));
    var s7 := Next(s6, TakeWorker(0));
    OneStep(s7, Start(0), []);
    OneStep(s6, TakeWorker(0), [Start(0)] + []);
    var tail := [TakeWorker(0)] + ([Start(0)] + []);
    OneStep(s5, Announce(1, 10), tail);
    OneStep(s4, TakeState(1), [Announce(1, 10)] + tail);
    OneStep(s3, Spawn(1, Sync, 2), [TakeState(1)] + ([Announce(1, 10)] + tail));
    ts := [Spawn(1, Sync, 2)] + ([TakeState(1)] + ([Announce(1, 10)] + tail));
    OneStep(s2, Announce(0, 10), ts);
    OneStep(s1, TakeState(0), [Announce(0, 10)] + ts);
    OneStep(INITIAL, Spawn(0, Sync, 1), [TakeState(0)] + ([Announce(0, 10)] + ts));
    ts := [Spawn(0, Sync, 1)] + ([TakeState(0)] + ([Announce(0, 10)] + ts));
  }

  /** From the start, two commands come to be in flight together. */
  lemma OverlapIsReached() returns (ts: seq<Step>)
    ensures Trace(INITIAL, ts) && Crowded(After(INITIAL, ts))
  {
    var first := OneFliesOneWaits();
    ReachedInv(first);
    var rest := [Crash(0), TakeWorker(1), Start(1)];
    DeathInFlightOverlaps(After(INITIAL, first), 0, 1);
    TraceJoin(INITIAL, first, rest);
    ts := first + rest;
    assert 0 in After(INITIAL, ts).flying && 1 in After(INITIAL, ts).flying;
  }

  /** A detached worker has its command in flight while another worker of the same epoch waits. */
  lemma WorkerFliesWorkerWaits() returns (ts: seq<Step>)
    ensures Trace(INITIAL, ts)
    ensures var s := After(INITIAL, ts);
            && 1 in s.procs && s.procs[1] == Proc(Worker, 1, InFlight)
            && 2 in s.procs && s.procs[2] == Proc(Worker, 1, Waiting)
            && s.marker == Some(Marker(1, Restarting, 10)) && IsScheduled(s.log, 1)
  {
    var s1 := Next(INITIAL, Spawn(0, Request, 1));
    var s2 := Next(s1, TakeState(0));
    var s3 := Next(s2, Announce(0, 10));
    var s4 := Next(s3, Detach(0, 1));
    var s5 := Next(s4, Spawn(2, Worker, 1));
    var s6 := Next(s5, TakeWorker(1));
    var s7 := Next(s6, Check(1, 0));
    var s8 := Next(s7, Check(1, 0));
    var s9 := Next(s8, Start(1));
    assert s9.log[0] == Requested(1, true);
    OneStep(s8, Start(1), []);
    OneStep(s7, Check(1, 0), [Start(1)] + []);
    OneStep(s6, Check(1, 0), [Check(1, 0)] + ([Start(1)] + []));
    ts := [Check(1, 0)] + ([Check(1, 0)] + ([Start(1)] + []));
    OneStep(s5, TakeWorker(1), ts);
    OneStep(s4, Spawn(2, Worker, 1), [TakeWorker(1)] + ts);
    OneStep(s3, Detach(0, 1), [Spawn(2, Worker, 1)] + ([TakeWorker(1)] + ts));
    ts := [Detach(0, 1)] + ([Spawn(2, Worker, 1)] + ([TakeWorker(1)] + ts));
    OneStep(s2, Announce(0, 10), ts);
    OneStep(s1, TakeState(0), [Announce(0, 10)] + ts);
    OneStep(INITIAL, Spawn(0, Request, 1), [TakeState(0)] + ([Announce(0, 10)] + ts));
    ts := [Spawn(0, Request, 1)] + ([TakeState(0)] + ([Announce(0, 10)] + ts));
  }

  /** From the start, a scheduled epoch comes to be started by two different workers. */
  lemma SecondStartIsReached() returns (ts: seq<Step>)
    ensures Trace(INITIAL, ts)
    ensures var s := After(INITIAL, ts);
            && IsScheduled(s.log, 1) && StartedBy(s.log, 1) && StartedBy(s.log, 2)
            && {1, 2} <= s.procs.Keys && s.procs[1].epoch == 1 == s.procs[2].epoch
  {
    var first := WorkerFliesWorkerWaits();
    ReachedInv(first);
    var s := After(INITIAL, first);
    var rest := [Crash(1), TakeWorker(2), Check(2, 0), Check(2, 0), Start(2)];
    DeathStartsAgain(s, 1, 2, 0);
    TraceJoin(INITIAL, first, rest);
    ts := first + rest;
    TraceGrows(s, rest);
  }

  /** A trace forgets no process and nothing in the log. */
  lemma {:induction false} TraceGrows(s: State, ts: seq<Step>)
    requires Trace(s, ts)
    ensures var s' := After(s, ts);
            && s.log <= s'.log
            && (forall p :: p in s.procs ==> p in s'.procs && s'.procs[p].epoch == s.procs[p].epoch)
            && (forall e :: IsScheduled(s.log, e) ==> IsScheduled(s'.log, e))
            && (forall p :: StartedBy(s.log, p) ==> StartedBy(s'.log, p))
    decreases |ts|
  {
    if ts != [] {
      LogGrows(s, ts[0]);
      TraceGrows(Next(s, ts[0]), ts[1..]);
    }
    var s' := After(s, ts);
    assert forall i :: 0 <= i < |s.log| ==> s'.log[i] == s.log[i];
  }

  // ---- The marker file ----

  class MarkerFile {
    var marker: Option<Marker>

    /** `write_restart_state` under the state lock, for a new request. */
    method Request(epoch: nat, timeout: Option<int>, drain: int, now: int)
      modifies this
      ensures marker == Some(Marker(epoch, Restarting, now + OutcomeTimeout(timeout, drain)))
      ensures !IsStale(marker.value, now)
      ensures forall later :: IsStale(marker.value, later) <==>
                later >= now + Max(0, drain) + (if timeout.Some? && timeout.value > 0 then timeout.value else 60) + 5
    {
      var deadline := now + OutcomeTimeout(timeout, drain);
      marker := Some(Marker(epoch, Restarting, Max(now, deadline)));
    }

    method PublishIfCurrent(epoch: nat, phase: Phase, now: int) returns (published: bool)
      requires !phase.Restarting?
      modifies this
      ensures published <==> old(marker).Some? && old(marker).value.epoch == epoch
      ensures marker == Outcome(old(marker), epoch, phase, now)
      ensures !published ==> marker == old(marker)
      ensures published ==> marker == Some(old(marker).value.(phase := phase,
                                           deadline := if phase.Failed? then now + 15 else old(marker).value.deadline))
      ensures published && phase.Failed? ==> forall later :: IsStale(marker.value, later) <==>
              later >= now + FAILED_RETENTION
    {
      if marker.None? || marker.value.epoch != epoch {
        return false;
      }
      var deadline := marker.value.deadline;
      if phase.Failed? {
        deadline := now + FAILED_RETENTION;
      }
      marker := Some(Marker(epoch, phase, deadline));
      return true;
    }
  }
}
