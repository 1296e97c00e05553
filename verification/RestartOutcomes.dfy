/**
 What the restart barrier reports: a published outcome is ready exactly when the command of the process that
 publishes it returned 0, and whoever has an outcome for the current request can always publish it.
 */
module RestartOutcomes {
  import opened Common
  import opened RestartBarrier

  /** The command that `p` ran for `epoch` returned 0. */
  ghost predicate ReturnedZero(log: seq<Entry>, p: nat, epoch: nat) {
    exists k :: 0 <= k < |log| && log[k] == Returned(p, epoch, true)
  }

  ghost predicate NeverReturned(log: seq<Entry>, p: nat) {
    forall k :: 0 <= k < |log| && log[k].Returned? ==> log[k].pid != p
  }

  /** A published outcome is ready exactly when the publisher's own command returned 0 before. */
  ghost predicate Honest(log: seq<Entry>, i: nat)
    requires i < |log| && log[i].Published?
  {
    && !log[i].phase.Restarting?
    && (log[i].phase.Ready? <==> ReturnedZero(log[..i], log[i].pid, log[i].epoch))
  }

  /** Process `p` has the outcome that its command had, and no outcome before. */
  ghost predicate OutcomeOk(s: State, p: nat)
    requires p in s.procs
  {
    var proc := s.procs[p];
    if proc.HasOutcome() then
      !proc.OutcomePhase().Restarting? && (proc.OutcomePhase().Ready? <==> ReturnedZero(s.log, p, proc.epoch))
    else !proc.pc.Done? ==> NeverReturned(s.log, p)
  }

  ghost predicate Reports(s: State) {
    && (forall p :: p in s.procs ==> OutcomeOk(s, p))
    && (forall k :: 0 <= k < |s.log| && s.log[k].Returned? ==> s.log[k].pid in s.procs)
    && (forall i :: 0 <= i < |s.log| && s.log[i].Published? ==> Honest(s.log, i))
  }

  lemma AppendReturned(log: seq<Entry>, x: Entry, p: nat, e: nat)
    ensures ReturnedZero(log + [x], p, e) <==> ReturnedZero(log, p, e) || x == Returned(p, e, true)
    ensures NeverReturned(log + [x], p) <==> NeverReturned(log, p) && !(x.Returned? && x.pid == p)
  {
    var longer := log + [x];
    assert longer[|log|] == x;
    if ReturnedZero(log, p, e) {
      var k :| 0 <= k < |log| && log[k] == Returned(p, e, true);
      assert longer[k] == log[k];
    }
    if NeverReturned(longer, p) {
      forall k | 0 <= k < |log| && log[k].Returned? ensures log[k].pid != p {
        assert longer[k] == log[k];
      }
    }
  }

  lemma AppendHonest(log: seq<Entry>, x: Entry)
    requires forall i :: 0 <= i < |log| && log[i].Published? ==> Honest(log, i)
    requires x.Published? ==> !x.phase.Restarting? && (x.phase.Ready? <==> ReturnedZero(log, x.pid, x.epoch))
    ensures forall i :: 0 <= i < |log + [x]| && (log + [x])[i].Published? ==> Honest(log + [x], i)
  {
    var longer := log + [x];
    forall i | 0 <= i < |longer| && longer[i].Published? ensures Honest(longer, i) {
      if i < |log| {
        assert longer[i] == log[i] && longer[..i] == log[..i];
      } else {
        assert longer[..i] == log;
      }
    }
  }

  lemma AddsOne(s: State, t: Step)
    requires Enabled(s, t)
    ensures Next(s, t).log == s.log || exists x :: Next(s, t).log == s.log + [x]
  {
  }

  lemma StepPublishes(s: State, t: Step)
    requires Reports(s) && Enabled(s, t)
    ensures forall i :: 0 <= i < |Next(s, t).log| && Next(s, t).log[i].Published? ==> Honest(Next(s, t).log, i)
  {
    AddsOne(s, t);
    if Next(s, t).log != s.log {
      var x :| Next(s, t).log == s.log + [x];
      assert (s.log + [x])[|s.log|] == x;
      if t.Publish? { assert OutcomeOk(s, t.pid); }
      AppendHonest(s.log, x);
    }
  }

  lemma StepOutcome(s: State, t: Step, p: nat)
    requires Reports(s) && Enabled(s, t) && p in Next(s, t).procs
    ensures OutcomeOk(Next(s, t), p)
  {
    var s' := Next(s, t);
    AddsOne(s, t);
    if s'.log != s.log {
      var x :| s'.log == s.log + [x];
      assert (s.log + [x])[|s.log|] == x;
      AppendReturned(s.log, x, p, s'.procs[p].epoch);
    }
    if p in s.procs { assert OutcomeOk(s, p); }
  }

  lemma StepKeepsReports(s: State, t: Step)
    requires Reports(s) && Enabled(s, t)
    ensures Reports(Next(s, t))
  {
    var s' := Next(s, t);
    StepPublishes(s, t);
    forall p | p in s'.procs ensures OutcomeOk(s', p) {
      StepOutcome(s, t, p);
    }
  }

  lemma {:induction false} TraceReports(s: State, ts: seq<Step>)
    requires Reports(s) && Trace(s, ts)
    ensures Reports(After(s, ts))
    decreases |ts|
  {
    if ts != [] {
      StepKeepsReports(s, ts[0]);
      TraceReports(Next(s, ts[0]), ts[1..]);
    }
  }

  /** In every interleaving a published outcome is ready if and only if the publisher's command returned 0 before. */
  lemma PublishedIsHonest(ts: seq<Step>, i: nat)
    requires Trace(INITIAL, ts) && i < |After(INITIAL, ts).log| && After(INITIAL, ts).log[i].Published?
    ensures Honest(After(INITIAL, ts).log, i)
  {
    TraceReports(INITIAL, ts);
  }

  // ---- Reporting ----

  /** What a process with outcome `phase` leaves in the marker when it publishes at `now`. */
  predicate Reported(before: Option<Marker>, after: Option<Marker>, epoch: nat, phase: Phase, now: int) {
    if before.None? || before.value.epoch != epoch then after == before
    else
      && after.Some? && after.value.epoch == epoch && after.value.phase == phase
      && after.value.deadline == if phase.Failed? then now + 15 else before.value.deadline
  }

  /**
   A process that has an outcome, with nobody else at the marker, publishes it in three steps: the marker then
   has this outcome if it still was for the process's epoch, and is left alone otherwise. Both locks are free of it.
   */
  lemma EndedPublishes(s: State, p: nat, now: int)
    requires p in s.procs && s.procs[p].pc.Ended? && s.stateLock.None?
    ensures var ts := [TakeState(p), ReadMarker(p), Publish(p, now)];
            && Trace(s, ts)
            && var s' := After(s, ts);
               && Reported(s.marker, s'.marker, s.procs[p].epoch, s.procs[p].OutcomePhase(), now)
               && s'.procs == s.procs[p := s.procs[p].(pc := Done)]
               && s'.stateLock.None? && s'.workerLock != Some(p) && s'.flying == s.flying
               && s'.log == if s.marker.Some? && s.marker.value.epoch == s.procs[p].epoch
                            then s.log + [Published(p, s.procs[p].epoch, s.procs[p].OutcomePhase())] else s.log
  {
    var s1 := Next(s, TakeState(p));
    var s2 := Next(s1, ReadMarker(p));
    OneStep(s2, Publish(p, now), []);
    OneStep(s1, ReadMarker(p), [Publish(p, now)]);
    OneStep(s, TakeState(p), [ReadMarker(p), Publish(p, now)]);
    assert [Publish(p, now)] + [] == [Publish(p, now)];
  }

  /**
   A command that returns leaves the marker of its request ready if it returned 0, and failed for 15 seconds
   otherwise.
   */
  lemma ReturnIsReported(s: State, p: nat, ok: bool, now: int)
    requires p in s.procs && s.procs[p].pc.InFlight? && s.stateLock.None?
    ensures var ts := [Return(p, ok), TakeState(p), ReadMarker(p), Publish(p, now)];
            Trace(s, ts) && Reported(s.marker, After(s, ts).marker, s.procs[p].epoch, if ok then Ready else Failed, now)
  {
    var s1 := Next(s, Return(p, ok));
    EndedPublishes(s1, p, now);
    OneStep(s, Return(p, ok), [TakeState(p), ReadMarker(p), Publish(p, now)]);
  }

  /**
   So does an exception: before a worker's command, while a synchronous request waits or holds the lock, or in flight.
   */
  lemma RaiseIsReported(s: State, p: nat, now: int)
    requires p in s.procs && Enabled(s, Raise(p)) && s.stateLock.None?
    ensures var ts := [Raise(p), TakeState(p), ReadMarker(p), Publish(p, now)];
            Trace(s, ts) && Reported(s.marker, After(s, ts).marker, s.procs[p].epoch, Failed, now)
  {
    var s1 := Next(s, Raise(p));
    EndedPublishes(s1, p, now);
    OneStep(s, Raise(p), [TakeState(p), ReadMarker(p), Publish(p, now)]);
  }

  /** A worker that finds its request overdue, at either check, reports it as failed and starts nothing. */
  lemma OverdueIsReported(s: State, p: nat, seen: int, now: int)
    requires p in s.procs && s.procs[p].kind.Worker? && (s.procs[p].pc.Locked? || s.procs[p].pc.Draining?) &&
             s.stateLock.None?
    requires StillWanted(s.marker, s.procs[p].epoch) && seen >= s.marker.value.deadline
    ensures var ts := [Check(p, seen), TakeState(p), ReadMarker(p), Publish(p, now)];
            && Trace(s, ts) && After(s, ts).marker == Some(Marker(s.procs[p].epoch, Failed, now + 15))
            && After(s, ts).flying == s.flying
  {
    var s1 := Next(s, Check(p, seen));
    EndedPublishes(s1, p, now);
    OneStep(s, Check(p, seen), [TakeState(p), ReadMarker(p), Publish(p, now)]);
  }

  /** A worker that is no longer wanted, at either check, ends without a word and frees the lock. */
  lemma UnwantedEnds(s: State, p: nat, seen: int)
    requires p in s.procs && s.procs[p].kind.Worker? && (s.procs[p].pc.Locked? || s.procs[p].pc.Draining?)
    requires !StillWanted(s.marker, s.procs[p].epoch)
    ensures Enabled(s, Check(p, seen))
    ensures var s' := Next(s, Check(p, seen));
            && s'.procs == s.procs[p := s.procs[p].(pc := Done)] && s'.workerLock != Some(p)
            && s'.marker == s.marker && s'.log == s.log && s'.flying == s.flying
  {
  }

  /** Otherwise a waiting worker that gets the lock carries its request through to the outcome of the command. */
  lemma WorkerCarriesThrough(s: State, p: nat, seen: int, ok: bool, now: int)
    requires p in s.procs && s.procs[p].kind.Worker? && s.procs[p].pc.Waiting? && s.workerLock.None? &&
             s.stateLock.None?
    requires StillWanted(s.marker, s.procs[p].epoch) && seen < s.marker.value.deadline
    ensures var ts := [TakeWorker(p), Check(p, seen), Check(p, seen), Start(p)];
            var rest := [Return(p, ok), TakeState(p), ReadMarker(p), Publish(p, now)];
            && Trace(s, ts + rest)
            && Reported(s.marker, After(s, ts + rest).marker, s.procs[p].epoch, if ok then Ready else Failed, now)
  {
    var s1 := Next(s, TakeWorker(p));
    var s2 := Next(s1, Check(p, seen));
    var s3 := Next(s2, Check(p, seen));
    var s4 := Next(s3, Start(p));
    var rest := [Return(p, ok), TakeState(p), ReadMarker(p), Publish(p, now)];
    ReturnIsReported(s4, p, ok, now);
    OneStep(s3, Start(p), []);
    OneStep(s2, Check(p, seen), [Start(p)] + []);
    OneStep(s1, Check(p, seen), [Check(p, seen)] + ([Start(p)] + []));
    OneStep(s, TakeWorker(p), [Check(p, seen)] + ([Check(p, seen)] + ([Start(p)] + [])));
    var ts := [TakeWorker(p), Check(p, seen), Check(p, seen), Start(p)];
    assert ts == [TakeWorker(p)] + ([Check(p, seen)] + ([Check(p, seen)] + ([Start(p)] + [])));
    TraceJoin(s, ts, rest);
  }

  /** And so does a synchronous request, from its announcement on. */
  lemma SyncCarriesThrough(s: State, p: nat, deadline: int, ok: bool, now: int)
    requires p in s.procs && s.procs[p].kind.Sync? && s.procs[p].pc.Begin? && s.workerLock.None? && s.stateLock.None?
    ensures var ts := [TakeState(p), Announce(p, deadline), TakeWorker(p), Start(p)];
            var rest := [Return(p, ok), TakeState(p), ReadMarker(p), Publish(p, now)];
            && Trace(s, ts + rest)
            && After(s, ts + rest).marker
               == Some(Marker(s.procs[p].epoch, if ok then Ready else Failed, if ok then deadline else now + 15))
  {
    var s1 := Next(s, TakeState(p));
    var s2 := Next(s1, Announce(p, deadline));
    var s3 := Next(s2, TakeWorker(p));
    var s4 := Next(s3, Start(p));
    var rest := [Return(p, ok), TakeState(p), ReadMarker(p), Publish(p, now)];
    ReturnIsReported(s4, p, ok, now);
    OneStep(s3, Start(p), []);
    OneStep(s2, TakeWorker(p), [Start(p)] + []);
    OneStep(s1, Announce(p, deadline), [TakeWorker(p)] + ([Start(p)] + []));
    OneStep(s, TakeState(p), [Announce(p, deadline)] + ([TakeWorker(p)] + ([Start(p)] + [])));
    var ts := [TakeState(p), Announce(p, deadline), TakeWorker(p), Start(p)];
    assert ts == [TakeState(p)] + ([Announce(p, deadline)] + ([TakeWorker(p)] + ([Start(p)] + [])));
    TraceJoin(s, ts, rest);
  }

  /** The command of this process has been started and has not ended since: not returned, raised, or run out. */
  predicate StillRuns(ts: seq<Step>, p: nat) {
    if ts == [] then false
    else
      match ts[|ts| - 1]
      case Start(q) => q == p || StillRuns(ts[..|ts| - 1], p)
      case Return(q, _) => q != p && StillRuns(ts[..|ts| - 1], p)
      case Raise(q) => q != p && StillRuns(ts[..|ts| - 1], p)
      case Expire(q) => q != p && StillRuns(ts[..|ts| - 1], p)
      case _ => StillRuns(ts[..|ts| - 1], p)
  }

  /** The death of a process ends no command of its own; only these three steps do. */
  lemma {:induction false} FlyingExactly(ts: seq<Step>, p: nat)
    requires Trace(INITIAL, ts)
    ensures p in After(INITIAL, ts).flying <==> StillRuns(ts, p)
  {
    if ts != [] {
      var front, last := ts[..|ts| - 1], ts[|ts| - 1];
      assert ts == front + [last];
      TraceSplit(INITIAL, front, last);
      FlyingExactly(front, p);
    }
  }

  lemma {:induction false} TraceSplit(s: State, front: seq<Step>, last: Step)
    requires Trace(s, front + [last])
    ensures Trace(s, front) && Enabled(After(s, front), last)
    ensures After(s, front + [last]) == Next(After(s, front), last)
    decreases |front|
  {
    if front == [] {
      assert front + [last] == [last] && [last][1..] == [];
    } else {
      assert (front + [last])[1..] == front[1..] + [last];
      TraceSplit(Next(s, front[0]), front[1..], last);
    }
  }
}
