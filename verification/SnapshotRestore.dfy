/**
 The rollback image of a release: the Work databases of both engines, fifteen private state files with
 the profile journals last, and the checkpoint tree. Restoring is a fixed list of atomic steps that may
 be cut off anywhere and simply run again.

 The main results: how far a restore gets is decided by the disk it starts from, and after k steps the
 disk is known exactly; whatever was cut off or changed before, a restore that finishes leaves the
 captured image, including the files that did not exist; a journal is only touched once everything
 else is in place; and a replaced database never lies beside the log of another one.
 */
module SnapshotRestore {
  import opened Common
  import A = CheckpointArchive

  type Bytes = A.Bytes

  datatype Engine = Claude | Codex

  datatype File =
    | Database(engine: Engine)
    | Wal(engine: Engine)
    | Shm(engine: Engine)
    | Store(n: nat)
    | Elsewhere(name: string)

  /** What a path holds: a regular file, or anything a restore refuses to replace. */
  datatype Item = Regular(meta: A.Meta, data: Bytes) | Irregular

  datatype Checkpoints = NoTree | Live(tree: A.Tree) | Blocked

  datatype Disk = Disk(files: map<File, Item>, checkpoints: Checkpoints, displaced: seq<A.Tree>)

  /** A captured file; `None` in its place records that there was none. */
  datatype Saved = Saved(meta: A.Meta, data: Bytes)

  /**
   The manifest. Older versions cover no state file, or only the first one, and no checkpoints;
   `checkpoints` is then `None`.
   */
  datatype Snapshot = Snapshot(claude: Option<Saved>, codex: Option<Saved>,
                               stores: seq<Option<Saved>>, checkpoints: Option<Option<A.Tree>>)

  /** Who restores: only a privileged user may give files away. */
  datatype User = User(privileged: bool, me: A.Owner)

  /** What SQLite reads from a database file and the log beside it: a sound image, or an error. */
  type Sqlite = (Bytes, Option<Item>) -> Option<Bytes>

  /** The state files in manifest order; the last four are the profile journals. */
  const STORE_LIMITS: seq<nat> := [
    1048576, 1048576, 65536, 1048576, 2097152, 4194304, 4194304, 2097152, 16777216, 16777216, 4194304,
    65536, 65536, 65536, 65536]
  const FIRST_JOURNAL := 11

  function Lookup(d: Disk, f: File): Option<Item> {
    if f in d.files then Some(d.files[f]) else None
  }

  function Without(files: map<File, Item>, f: File): map<File, Item> {
    files - {f}
  }

  // ----- capturing -----

  predicate Private(m: A.Meta) {
    m.mode < 512 && m.mode % 64 == 0
  }

  function DatabaseOf(s: Snapshot, e: Engine): Option<Saved> {
    if e.Claude? then s.claude else s.codex
  }

  /** The state a snapshot can be taken of. */
  ghost predicate Capturable(sqlite: Sqlite, d: Disk) {
    && (forall e :: Database(e) in d.files ==> d.files[Database(e)].Regular? &&
                                               sqlite(d.files[Database(e)].data, Lookup(d, Wal(e))).Some?)
    && (forall n: nat :: n < |STORE_LIMITS| && Store(n) in d.files ==>
                           var i := d.files[Store(n)];
                           i.Regular? && Private(i.meta) && |i.data| <= STORE_LIMITS[n])
    && (d.checkpoints.NoTree? || (d.checkpoints.Live? && A.CanArchive(d.checkpoints.tree)))
  }

  /** What the snapshot must say: the image SQLite reads, every state file as it is, and the checkpoint tree. */
  ghost predicate Captures(sqlite: Sqlite, d: Disk, s: Snapshot) {
    && (forall e :: if Database(e) in d.files
                    then d.files[Database(e)].Regular? &&
                         var image := sqlite(d.files[Database(e)].data, Lookup(d, Wal(e)));
                         image.Some? && DatabaseOf(s, e) == Some(Saved(d.files[Database(e)].meta, image.value))
                    else DatabaseOf(s, e).None?)
    && |s.stores| == |STORE_LIMITS|
    && (forall n: nat :: n < |STORE_LIMITS| ==> Lookup(d, Store(n)) == ItemOf(s.stores[n]))
    && (d.checkpoints.NoTree? ==> s.checkpoints == Some(None))
    && (d.checkpoints.Live? ==> s.checkpoints == Some(Some(d.checkpoints.tree)))
  }

  function ItemOf(saved: Option<Saved>): Option<Item> {
    if saved.Some? then Some(Regular(saved.value.meta, saved.value.data)) else None
  }

  method BackupDatabase(sqlite: Sqlite, d: Disk, e: Engine) returns (r: Result<Option<Saved>, ()>)
    ensures Database(e) !in d.files ==> r == Ok(None)
    ensures Database(e) in d.files && d.files[Database(e)].Irregular? ==> r.Err?
    ensures Database(e) in d.files && d.files[Database(e)].Regular? ==>
              var image := sqlite(d.files[Database(e)].data, Lookup(d, Wal(e)));
              r == if image.None? then Err(()) else Ok(Some(Saved(d.files[Database(e)].meta, image.value)))
  {
    if Database(e) !in d.files {
      return Ok(None);
    }
    match d.files[Database(e)] {
      case Irregular =>
        return Err(());
      case Regular(meta, data) =>
        var image := sqlite(data, Lookup(d, Wal(e)));
        if image.None? {
          return Err(());
        }
        return Ok(Some(Saved(meta, image.value)));
    }
  }

  /** The whole backup. The checkpoint tree is archived and, by the round trip of the archive, stands for itself. */
  method CreateSnapshot(sqlite: Sqlite, d: Disk) returns (r: Result<Snapshot, ()>)
    ensures r.Ok? <==> Capturable(sqlite, d)
    ensures r.Ok? ==> Captures(sqlite, d, r.value)
  {
    var claude :- BackupDatabase(sqlite, d, Claude);
    var codex :- BackupDatabase(sqlite, d, Codex);
    var stores: seq<Option<Saved>> := [];
    for n := 0 to |STORE_LIMITS|
      invariant |stores| == n
      invariant forall k: nat :: k < n ==> Lookup(d, Store(k)) == ItemOf(stores[k])
      invariant forall k: nat :: k < n && Store(k) in d.files ==>
                                   var i := d.files[Store(k)];
                                   i.Regular? && Private(i.meta) && |i.data| <= STORE_LIMITS[k]
    {
      if Store(n) !in d.files {
        stores := stores + [None];
      } else {
        var item := d.files[Store(n)];
        if item.Irregular? || !Private(item.meta) || |item.data| > STORE_LIMITS[n] {
          return Err(());
        }
        stores := stores + [Some(Saved(item.meta, item.data))];
      }
    }
    if d.checkpoints.Blocked? {
      return Err(());
    }
    var tree := if d.checkpoints.Live? then Some(d.checkpoints.tree) else None;
    var archive := A.BackupCheckpoints(tree);
    if archive.Err? {
      return Err(());
    }
    r := Ok(Snapshot(claude, codex, stores, Some(tree)));
    forall e
      ensures Database(e) in d.files ==> d.files[Database(e)].Regular? &&
                                         sqlite(d.files[Database(e)].data, Lookup(d, Wal(e))).Some?
    {
      match e
      case Claude =>
      case Codex =>
    }
  }

  // ----- the steps of a restore -----

  datatype Step = Drop(file: File) | Put(file: File, saved: Saved) | Displace | Install(tree: A.Tree)

  /** One step on the disk; `None` is a refusal, which changes nothing. */
  function Apply(user: User, d: Disk, step: Step): Option<Disk> {
    match step
    case Drop(f) =>
      if f !in d.files then Some(d)
      else if d.files[f].Irregular? then None
      else Some(d.(files := Without(d.files, f)))
    case Put(f, saved) =>
      if f in d.files && d.files[f].Irregular? then None
      else Some(d.(files := d.files[f := Restored(user, saved)]))
    case Displace =>
      (match d.checkpoints
       case NoTree => Some(d)
       case Blocked => None
       case Live(t) => Some(d.(checkpoints := NoTree, displaced := d.displaced + [t])))
    case Install(t) =>
      if d.checkpoints.NoTree? then Some(d.(checkpoints := Live(A.Kept(user.privileged, user.me, t)))) else None
  }

  function Restored(user: User, saved: Saved): Item {
    Regular(saved.meta.(owner := A.OwnerFor(user.privileged, user.me, saved.meta.owner)), saved.data)
  }

  function Replacement(f: File, saved: Option<Saved>): Step {
    if saved.Some? then Put(f, saved.value) else Drop(f)
  }

  function DatabaseSteps(e: Engine, saved: Option<Saved>): seq<Step> {
    [Drop(Wal(e)), Drop(Shm(e)), Replacement(Database(e), saved)]
  }

  function TreeSteps(c: Option<Option<A.Tree>>): seq<Step> {
    match c
    case None => []
    case Some(None) => [Displace]
    case Some(Some(t)) => [Displace, Install(t)]
  }

  function StoreSteps(stores: seq<Option<Saved>>): (steps: seq<Step>)
    ensures |steps| == |stores| && forall i :: 0 <= i < |stores| ==> steps[i] == Replacement(Store(i), stores[i])
  {
    seq(|stores|, i requires 0 <= i < |stores| => Replacement(Store(i), stores[i]))
  }

  function Plan(s: Snapshot): seq<Step> {
    DatabaseSteps(Claude, s.claude) + DatabaseSteps(Codex, s.codex) + TreeSteps(s.checkpoints) + StoreSteps(s.stores)
  }

  datatype Outcome = Outcome(disk: Disk, ok: bool)

  function Then(user: User, o: Outcome, step: Step): Outcome {
    if !o.ok then o else
      match Apply(user, o.disk, step)
      case None => o.(ok := false)
      case Some(x) => Outcome(x, true)
  }

  /** The steps in turn, up to the first refusal. */
  function Run(user: User, d: Disk, steps: seq<Step>): Outcome {
    if steps == [] then Outcome(d, true) else Then(user, Run(user, d, steps[..|steps| - 1]), steps[|steps| - 1])
  }

  lemma {:induction false} RunJoin(user: User, d: Disk, a: seq<Step>, b: seq<Step>)
    ensures var o := Run(user, d, a);
            Run(user, d, a + b) == if o.ok then Run(user, o.disk, b) else o
    decreases |b|
  {
    if b == [] {
      assert a + b == a;
    } else {
      assert (a + b)[..|a + b| - 1] == a + b[..|b| - 1];
      RunJoin(user, d, a, b[..|b| - 1]);
    }
  }

  lemma RunOne(user: User, d: Disk, step: Step)
    ensures var next := Apply(user, d, step);
            Run(user, d, [step]) == if next.None? then Outcome(d, false) else Outcome(next.value, true)
  {
    assert [step][..0] == [];
  }

  /** The private files of a host, changed one at a time. */
  class Restorer {
    const user: User
    var files: map<File, Item>
    var checkpoints: Checkpoints
    var displaced: seq<A.Tree>

    constructor (user: User, d: Disk)
      ensures this.user == user && Now() == d
    {
      this.user, files, checkpoints, displaced := user, d.files, d.checkpoints, d.displaced;
    }

    ghost function Now(): Disk
      reads this
    {
      Disk(files, checkpoints, displaced)
    }

    method Unlink(f: File) returns (ok: bool)
      modifies this
      ensures Outcome(Now(), ok) == Run(user, old(Now()), [Drop(f)])
    {
      RunOne(user, Now(), Drop(f));
      if f !in files {
        return true;
      }
      if files[f].Irregular? {
        return false;
      }
      files := Without(files, f);
      return true;
    }

    method Replace(f: File, saved: Saved) returns (ok: bool)
      modifies this
      ensures Outcome(Now(), ok) == Run(user, old(Now()), [Put(f, saved)])
    {
      RunOne(user, Now(), Put(f, saved));
      if f in files && files[f].Irregular? {
        return false;
      }
      files := files[f := Restored(user, saved)];
      return true;
    }

    method Settle(f: File, saved: Option<Saved>) returns (ok: bool)
      modifies this
      ensures Outcome(Now(), ok) == Run(user, old(Now()), [Replacement(f, saved)])
    {
      match saved {
        case None => ok := Unlink(f);
        case Some(v) => ok := Replace(f, v);
      }
    }

    /** The log files go first, so that the database that follows is never read with them. */
    method RestoreDatabase(e: Engine, saved: Option<Saved>) returns (ok: bool)
      modifies this
      ensures Outcome(Now(), ok) == Run(user, old(Now()), DatabaseSteps(e, saved))
    {
      var last := Replacement(Database(e), saved);
      ghost var d := Now();
      RunJoin(user, d, [Drop(Wal(e)), Drop(Shm(e))], [last]);
      RunJoin(user, d, [Drop(Wal(e))], [Drop(Shm(e))]);
      assert [Drop(Wal(e))] + [Drop(Shm(e))] == [Drop(Wal(e)), Drop(Shm(e))];
      assert [Drop(Wal(e)), Drop(Shm(e))] + [last] == DatabaseSteps(e, saved);
      ok := Unlink(Wal(e));
      if ok {
        ok := Unlink(Shm(e));
      }
      if ok {
        ok := Settle(Database(e), saved);
      }
    }

    /** A live tree is moved aside, never deleted, before the captured one takes its place. */
    method RestoreCheckpoints(c: Option<Option<A.Tree>>) returns (ok: bool)
      modifies this
      ensures Outcome(Now(), ok) == Run(user, old(Now()), TreeSteps(c))
    {
      ok := true;
      if c.None? {
        return;
      }
      ghost var d := Now();
      RunOne(user, d, Displace);
      match checkpoints {
        case Blocked =>
          ok := false;
        case NoTree =>
        case Live(t) =>
          displaced, checkpoints := displaced + [t], NoTree;
      }
      if c.value.Some? {
        RunJoin(user, d, [Displace], [Install(c.value.value)]);
        assert [Displace] + [Install(c.value.value)] == TreeSteps(c);
        if ok {
          RunOne(user, Now(), Install(c.value.value));
          checkpoints := Live(A.Kept(user.privileged, user.me, c.value.value));
        }
      }
    }

    method RestoreStores(stores: seq<Option<Saved>>) returns (ok: bool)
      modifies this
      ensures Outcome(Now(), ok) == Run(user, old(Now()), StoreSteps(stores))
    {
      ghost var d, steps := Now(), StoreSteps(stores);
      ok := true;
      for n := 0 to |stores|
        invariant ok && Outcome(Now(), true) == Run(user, d, steps[..n])
      {
        RunJoin(user, d, steps[..n], [steps[n]]);
        assert steps[..n] + [steps[n]] == steps[..n + 1];
        ok := Settle(Store(n), stores[n]);
        if !ok {
          RunJoin(user, d, steps[..n + 1], steps[n + 1..]);
          assert steps[..n + 1] + steps[n + 1..] == steps;
          return;
        }
      }
      assert steps[..|stores|] == steps;
    }

    /** The whole restore; a refusal anywhere ends it there. */
    method RestoreSnapshot(s: Snapshot) returns (ok: bool)
      modifies this
      ensures Outcome(Now(), ok) == Run(user, old(Now()), Plan(s))
    {
      ghost var d := Now();
      ghost var a, b, c := DatabaseSteps(Claude, s.claude), DatabaseSteps(Codex, s.codex), TreeSteps(s.checkpoints);
      RunJoin(user, d, a + b + c, StoreSteps(s.stores));
      RunJoin(user, d, a + b, c);
      RunJoin(user, d, a, b);
      ok := RestoreDatabase(Claude, s.claude);
      if ok {
        ok := RestoreDatabase(Codex, s.codex);
      }
      if ok {
        ok := RestoreCheckpoints(s.checkpoints);
      }
      if ok {
        ok := RestoreStores(s.stores);
      }
    }
  }

  // ----- the disk after k steps -----

  predicate Tracked(s: Snapshot, f: File) {
    match f
    case Store(n) => n < |s.stores|
    case Elsewhere(_) => false
    case _ => true
  }

  /** What the restored disk holds for a tracked file. */
  function Captured(user: User, s: Snapshot, f: File): Option<Item>
    requires Tracked(s, f)
  {
    var saved :=
      match f
      case Database(e) => DatabaseOf(s, e)
      case Store(n) => s.stores[n]
      case _ => None;
    if saved.Some? then Some(Restored(user, saved.value)) else None
  }

  /** The position of the one step that settles a tracked file. */
  function Position(s: Snapshot, f: File): nat
    requires Tracked(s, f)
  {
    var base := if f.Store? || f.engine.Claude? then 0 else 3;
    match f
    case Wal(_) => base
    case Shm(_) => base + 1
    case Database(_) => base + 2
    case Store(n) => 6 + |TreeSteps(s.checkpoints)| + n
  }

  lemma PlanAt(s: Snapshot, k: nat)
    requires k < |Plan(s)|
    ensures var t := |TreeSteps(s.checkpoints)|;
            (k < 6 ==> Plan(s)[k].Drop? || Plan(s)[k].Put?) &&
            (6 <= k < 6 + t ==> Plan(s)[k] == TreeSteps(s.checkpoints)[k - 6]) &&
            (k >= 6 + t ==> Plan(s)[k] == StoreSteps(s.stores)[k - 6 - t])
  {
  }

  /** Step k and the file it settles belong together. */
  lemma StepFile(user: User, s: Snapshot, k: nat)
    requires k < |Plan(s)| && (Plan(s)[k].Drop? || Plan(s)[k].Put?)
    ensures var step := Plan(s)[k];
            Tracked(s, step.file) && Position(s, step.file) == k &&
            Captured(user, s, step.file) == if step.Put? then Some(Restored(user, step.saved)) else None
  {
    PlanAt(s, k);
  }

  lemma FileStep(s: Snapshot, f: File)
    requires Tracked(s, f)
    ensures Position(s, f) < |Plan(s)|
    ensures (Plan(s)[Position(s, f)].Drop? || Plan(s)[Position(s, f)].Put?) && Plan(s)[Position(s, f)].file == f
  {
    if f.Store? {
      assert Plan(s)[Position(s, f)] == StoreSteps(s.stores)[f.n];
    }
  }

  lemma TreeStep(s: Snapshot, k: nat)
    requires k < |Plan(s)| && (Plan(s)[k].Displace? || Plan(s)[k].Install?)
    ensures s.checkpoints.Some?
    ensures Plan(s)[k].Displace? ==> k == 6
    ensures Plan(s)[k].Install? ==> k == 7 && s.checkpoints.value == Some(Plan(s)[k].tree)
  {
    PlanAt(s, k);
  }

  function MovedAside(d: Disk): seq<A.Tree> {
    if d.checkpoints.Live? then d.displaced + [d.checkpoints.tree] else d.displaced
  }

  /** What the checkpoints are after k steps. */
  predicate TreeAt(user: User, x: Disk, d: Disk, s: Snapshot, k: nat) {
    if s.checkpoints.None? || k <= 6 then x.checkpoints == d.checkpoints && x.displaced == d.displaced
    else
      && x.displaced == MovedAside(d)
      && x.checkpoints == if s.checkpoints.value.None? || k == 7 then NoTree
                          else Live(A.Kept(user.privileged, user.me, s.checkpoints.value.value))
  }

  /** The disk after k steps: settled files are as captured, all others as they were. */
  ghost predicate At(user: User, x: Disk, d: Disk, s: Snapshot, k: nat) {
    && (forall f :: Lookup(x, f) == if Tracked(s, f) && Position(s, f) < k then Captured(user, s, f) else Lookup(d, f))
    && TreeAt(user, x, d, s, k)
  }

  /** A step that the starting disk does not stand in the way of. */
  predicate Clear(d: Disk, step: Step) {
    match step
    case Drop(f) => Lookup(d, f) != Some(Irregular)
    case Put(f, _) => Lookup(d, f) != Some(Irregular)
    case Displace => !d.checkpoints.Blocked?
    case Install(_) => true
  }

  lemma StepAt(user: User, x: Disk, d: Disk, s: Snapshot, k: nat)
    requires k < |Plan(s)| && At(user, x, d, s, k)
    ensures Apply(user, x, Plan(s)[k]).Some? <==> Clear(d, Plan(s)[k])
    ensures Clear(d, Plan(s)[k]) ==> At(user, Apply(user, x, Plan(s)[k]).value, d, s, k + 1)
  {
    var step := Plan(s)[k];
    if step.Drop? || step.Put? {
      StepFile(user, s, k);
      assert Lookup(x, step.file) == Lookup(d, step.file);
      if Clear(d, step) {
        var y := Apply(user, x, step).value;
        forall f
          ensures Lookup(y, f) == if Tracked(s, f) && Position(s, f) < k + 1 then Captured(user, s, f) else Lookup(d, f)
        {
          if Tracked(s, f) && Position(s, f) == k {
            FileStep(s, f);
          }
        }
        TreeBetween(user, x, d, s, k);
      }
    } else {
      TreeStep(s, k);
      forall f | Tracked(s, f)
        ensures Position(s, f) != k
      {
        FileStep(s, f);
      }
    }
  }

  /** A file step leaves the checkpoints at the same stage. */
  lemma TreeBetween(user: User, x: Disk, d: Disk, s: Snapshot, k: nat)
    requires k < |Plan(s)| && (Plan(s)[k].Drop? || Plan(s)[k].Put?) && TreeAt(user, x, d, s, k)
    ensures TreeAt(user, x, d, s, k + 1)
  {
    PlanAt(s, k);
  }

  ghost predicate ClearUpTo(d: Disk, s: Snapshot, k: nat)
    requires k <= |Plan(s)|
  {
    forall i :: 0 <= i < k ==> Clear(d, Plan(s)[i])
  }

  /** Refused at step j, with everything before it done and nothing after it. */
  ghost predicate RefusedAt(user: User, x: Disk, d: Disk, s: Snapshot, j: nat) {
    j < |Plan(s)| && ClearUpTo(d, s, j) && !Clear(d, Plan(s)[j]) && At(user, x, d, s, j)
  }

  lemma NothingDone(user: User, d: Disk, s: Snapshot)
    ensures At(user, d, d, s, 0)
  {
  }

  /** How far a restore got that was cut off before step k: there, or refused at the first step that is not clear. */
  ghost predicate Reached(user: User, o: Outcome, d: Disk, s: Snapshot, k: nat)
    requires k <= |Plan(s)|
  {
    if ClearUpTo(d, s, k) then o.ok && At(user, o.disk, d, s, k)
    else !o.ok && exists j: nat :: j < k && RefusedAt(user, o.disk, d, s, j)
  }

  lemma ReachClear(user: User, o: Outcome, d: Disk, s: Snapshot, k: nat)
    requires k < |Plan(s)| && ClearUpTo(d, s, k) && o.ok && At(user, o.disk, d, s, k)
    ensures Reached(user, Then(user, o, Plan(s)[k]), d, s, k + 1)
  {
    StepAt(user, o.disk, d, s, k);
    if !Clear(d, Plan(s)[k]) {
      assert RefusedAt(user, o.disk, d, s, k);
    }
  }

  lemma ReachRefused(user: User, o: Outcome, d: Disk, s: Snapshot, k: nat)
    requires k < |Plan(s)| && !ClearUpTo(d, s, k) && Reached(user, o, d, s, k)
    ensures Reached(user, o, d, s, k + 1)
  {
  }

  lemma {:induction false} RunAt(user: User, d: Disk, s: Snapshot, k: nat)
    requires k <= |Plan(s)|
    ensures Reached(user, Run(user, d, Plan(s)[..k]), d, s, k)
  {
    if k == 0 {
      NothingDone(user, d, s);
    } else {
      RunAt(user, d, s, k - 1);
      RunNext(user, d, Plan(s), k - 1);
      var o := Run(user, d, Plan(s)[..k - 1]);
      if ClearUpTo(d, s, k - 1) {
        ReachClear(user, o, d, s, k - 1);
      } else {
        ReachRefused(user, o, d, s, k - 1);
      }
    }
  }

  lemma RunNext(user: User, d: Disk, plan: seq<Step>, k: nat)
    requires k < |plan|
    ensures Run(user, d, plan[..k + 1]) == Then(user, Run(user, d, plan[..k]), plan[k])
  {
    assert plan[..k + 1][..k] == plan[..k];
  }

  // ----- what a restore promises -----

  /** Nothing that a restore refuses to replace stands in its way. */
  ghost predicate Restorable(d: Disk, s: Snapshot) {
    && (forall f :: Tracked(s, f) ==> Lookup(d, f) != Some(Irregular))
    && (s.checkpoints.Some? ==> !d.checkpoints.Blocked?)
  }

  ghost predicate TrackedRestored(user: User, x: Disk, s: Snapshot) {
    && (forall f :: Tracked(s, f) ==> Lookup(x, f) == Captured(user, s, f))
    && (s.checkpoints.Some? ==>
          x.checkpoints == if s.checkpoints.value.None? then NoTree
                           else Live(A.Kept(user.privileged, user.me, s.checkpoints.value.value)))
  }

  ghost predicate UntrackedKept(x: Disk, d: Disk, s: Snapshot) {
    && (forall f :: !Tracked(s, f) ==> Lookup(x, f) == Lookup(d, f))
    && (s.checkpoints.None? ==> x.checkpoints == d.checkpoints)
  }

  lemma ClearIsRestorable(d: Disk, s: Snapshot)
    ensures ClearUpTo(d, s, |Plan(s)|) <==> Restorable(d, s)
  {
    if Restorable(d, s) {
      forall k | 0 <= k < |Plan(s)|
        ensures Clear(d, Plan(s)[k])
      {
        if Plan(s)[k].Drop? || Plan(s)[k].Put? {
          StepFile(User(false, A.Owner(0, 0)), s, k);
        } else {
          TreeStep(s, k);
        }
      }
    }
    if ClearUpTo(d, s, |Plan(s)|) {
      forall f | Tracked(s, f)
        ensures Lookup(d, f) != Some(Irregular)
      {
        FileStep(s, f);
        assert Clear(d, Plan(s)[Position(s, f)]);
      }
      if s.checkpoints.Some? {
        PlanAt(s, 6);
        assert Clear(d, Plan(s)[6]);
      }
    }
  }

  /** A restore finishes exactly on a restorable disk, and then leaves the captured image and nothing else changed. */
  lemma RestoreExact(user: User, d: Disk, s: Snapshot)
    ensures var o := Run(user, d, Plan(s));
            (o.ok <==> Restorable(d, s)) &&
            (o.ok ==> TrackedRestored(user, o.disk, s) && UntrackedKept(o.disk, d, s) &&
                      o.disk.displaced == if s.checkpoints.Some? then MovedAside(d) else d.displaced)
  {
    var n := |Plan(s)|;
    assert Plan(s)[..n] == Plan(s);
    RunAt(user, d, s, n);
    ClearIsRestorable(d, s);
    var x := Run(user, d, Plan(s)).disk;
    if ClearUpTo(d, s, n) {
      forall f | Tracked(s, f)
        ensures Lookup(x, f) == Captured(user, s, f)
      {
        FileStep(s, f);
      }
    }
  }

  /** Wherever a restore is cut off or refused, the disk is the one after some number of whole steps. */
  lemma CutOffAt(user: User, d: Disk, s: Snapshot, k: nat) returns (j: nat)
    requires k <= |Plan(s)|
    ensures j <= k && At(user, Run(user, d, Plan(s)[..k]).disk, d, s, j)
    ensures Restorable(d, s) ==> j == k
  {
    RunAt(user, d, s, k);
    ClearIsRestorable(d, s);
    if ClearUpTo(d, s, k) {
      j := k;
    } else {
      j :| j < k && RefusedAt(user, Run(user, d, Plan(s)[..k]).disk, d, s, j);
    }
  }

  predicate Journal(f: File) {
    f.Store? && f.n >= FIRST_JOURNAL
  }

  /** A journal is changed only once every other store, database and the checkpoints are restored. */
  lemma JournalsLast(user: User, d: Disk, s: Snapshot, k: nat, journal: File)
    requires k <= |Plan(s)| && Journal(journal)
    requires Lookup(Run(user, d, Plan(s)[..k]).disk, journal) != Lookup(d, journal)
    ensures var x := Run(user, d, Plan(s)[..k]).disk;
            (forall f :: Tracked(s, f) && !Journal(f) ==> Lookup(x, f) == Captured(user, s, f)) &&
            (s.checkpoints.Some? ==>
               x.checkpoints == if s.checkpoints.value.None? then NoTree
                                else Live(A.Kept(user.privileged, user.me, s.checkpoints.value.value)))
  {
    var j := CutOffAt(user, d, s, k);
    assert Tracked(s, journal) && Position(s, journal) < j;
    forall f | Tracked(s, f) && !Journal(f)
      ensures Position(s, f) < j
    {
    }
  }

  /** A database that a restore has replaced is never seen with a log or index of another one. */
  lemma NoForeignLog(user: User, d: Disk, s: Snapshot, k: nat, e: Engine)
    requires k <= |Plan(s)|
    requires Lookup(Run(user, d, Plan(s)[..k]).disk, Database(e)) != Lookup(d, Database(e))
    ensures var x := Run(user, d, Plan(s)[..k]).disk;
            Lookup(x, Wal(e)).None? && Lookup(x, Shm(e)).None?
  {
    var j := CutOffAt(user, d, s, k);
    assert Position(s, Database(e)) < j;
    assert Position(s, Wal(e)) < j && Position(s, Shm(e)) < j;
  }

  /** A refused restore has changed nothing at or after the step that was refused. */
  lemma RefusedLeavesTheRest(user: User, d: Disk, s: Snapshot) returns (j: nat)
    requires !Restorable(d, s)
    ensures var x := Run(user, d, Plan(s)).disk;
            RefusedAt(user, x, d, s, j) &&
            forall f :: Tracked(s, f) && Position(s, f) >= j ==> Lookup(x, f) == Lookup(d, f)
  {
    var n := |Plan(s)|;
    assert Plan(s)[..n] == Plan(s);
    RunAt(user, d, s, n);
    ClearIsRestorable(d, s);
    j :| j < n && RefusedAt(user, Run(user, d, Plan(s)).disk, d, s, j);
  }

  // ----- cut off and run again -----

  /** Between two restores: one was cut off before a step, or the host changed its files. */
  datatype Event = CutOff(step: nat) | Changed(disk: Disk)

  function Happened(user: User, d: Disk, s: Snapshot, e: Event): Disk {
    match e
    case Changed(x) => x
    case CutOff(k) => Run(user, d, Plan(s)[..if k <= |Plan(s)| then k else |Plan(s)|]).disk
  }

  function History(user: User, d: Disk, s: Snapshot, events: seq<Event>): Disk {
    if events == [] then d
    else Happened(user, History(user, d, s, events[..|events| - 1]), s, events[|events| - 1])
  }

  /** The disk as the host last left it. */
  function LeftBehind(d: Disk, events: seq<Event>): Disk {
    if events == [] then d
    else if events[|events| - 1].Changed? then events[|events| - 1].disk
    else LeftBehind(d, events[..|events| - 1])
  }

  /** The trees nobody may lose: those set aside and the live one. */
  ghost predicate Holds(d: Disk, t: A.Tree) {
    t in d.displaced || d.checkpoints == Live(t)
  }

  lemma CutOffIsHarmless(user: User, d: Disk, s: Snapshot, k: nat)
    requires Restorable(d, s) && k <= |Plan(s)|
    ensures var x := Run(user, d, Plan(s)[..k]).disk;
            Restorable(x, s) && UntrackedKept(x, d, s) && forall t :: Holds(d, t) ==> Holds(x, t)
  {
    var j := CutOffAt(user, d, s, k);
  }

  lemma {:induction false} HistoryIsHarmless(user: User, d: Disk, s: Snapshot, events: seq<Event>)
    requires Restorable(d, s)
    requires forall i :: 0 <= i < |events| && events[i].Changed? ==> Restorable(events[i].disk, s)
    ensures var x, left := History(user, d, s, events), LeftBehind(d, events);
            Restorable(x, s) && UntrackedKept(x, left, s) && forall t :: Holds(left, t) ==> Holds(x, t)
    decreases |events|
  {
    if events != [] {
      var front, last := events[..|events| - 1], events[|events| - 1];
      HistoryIsHarmless(user, d, s, front);
      if last.CutOff? {
        var k := if last.step <= |Plan(s)| then last.step else |Plan(s)|;
        CutOffIsHarmless(user, History(user, d, s, front), s, k);
      }
    }
  }

  /**
   However often a restore was cut off and the tracked files changed, the next one that runs to the end
   leaves exactly the captured image; other files stay as the host last left them, and no checkpoint tree
   that the host had is gone.
   */
  lemma RerunCompletes(user: User, d: Disk, s: Snapshot, events: seq<Event>)
    requires Restorable(d, s)
    requires forall i :: 0 <= i < |events| && events[i].Changed? ==> Restorable(events[i].disk, s)
    ensures var o := Run(user, History(user, d, s, events), Plan(s));
            var left := LeftBehind(d, events);
            o.ok && TrackedRestored(user, o.disk, s) && UntrackedKept(o.disk, left, s) &&
            forall t :: Holds(left, t) ==> Holds(o.disk, t)
  {
    HistoryIsHarmless(user, d, s, events);
    RestoreExact(user, History(user, d, s, events), s);
  }

  // ----- capture and roll back -----

  /** A sound image without a log reads as itself. */
  ghost predicate ImagesReadBack(sqlite: Sqlite) {
    forall data, log :: sqlite(data, log).Some? ==> sqlite(sqlite(data, log).value, None) == sqlite(data, log)
  }

  /** What SQLite finds in the registry of an engine, if there is one. */
  function Reads(sqlite: Sqlite, d: Disk, e: Engine): Option<Option<Bytes>> {
    match Lookup(d, Database(e))
    case Some(Regular(_, data)) => Some(sqlite(data, Lookup(d, Wal(e))))
    case _ => None
  }

  /**
   The captured image on its own reads as the live database does with its log, and there is one exactly for a live
   one.
   */
  lemma CapturedReadsAlone(sqlite: Sqlite, d: Disk, s: Snapshot, e: Engine)
    requires ImagesReadBack(sqlite) && Captures(sqlite, d, s)
    ensures DatabaseOf(s, e).Some? <==> Database(e) in d.files
    ensures Reads(sqlite, AloneOn(e, DatabaseOf(s, e)), e) == Reads(sqlite, d, e)
  {
    var alone := AloneOn(e, DatabaseOf(s, e));
    assert Lookup(alone, Wal(e)) == None;
  }

  /** A disk that holds this database and nothing else. */
  function AloneOn(e: Engine, saved: Option<Saved>): Disk {
    Disk(if saved.Some? then map[Database(e) := Regular(saved.value.meta, saved.value.data)] else map[], NoTree, [])
  }

  /** The user may give a file the owner it had. */
  predicate MayOwn(user: User, m: A.Meta) {
    user.privileged || m.owner == user.me
  }

  /**
   A snapshot of d0 brings back d0 over any restorable disk: the registries read as they did, every state
   file is what it was, absent ones are absent again, and the checkpoints are the archived tree.
   */
  lemma RollBack(sqlite: Sqlite, user: User, d0: Disk, s: Snapshot, d1: Disk)
    requires ImagesReadBack(sqlite)
    requires Capturable(sqlite, d0) && Captures(sqlite, d0, s) && Restorable(d1, s)
    ensures var x := Run(user, d1, Plan(s)).disk;
            (forall e :: Reads(sqlite, x, e) == Reads(sqlite, d0, e)) &&
            (forall n: nat :: n < |STORE_LIMITS| ==>
              (Store(n) in x.files <==> Store(n) in d0.files) &&
              (Store(n) in d0.files && MayOwn(user, d0.files[Store(n)].meta) ==>
               x.files[Store(n)] == d0.files[Store(n)])) &&
            x.checkpoints == if d0.checkpoints.Live? then Live(A.Kept(user.privileged, user.me, d0.checkpoints.tree))
                             else NoTree
  {
    RestoreExact(user, d1, s);
    var x := Run(user, d1, Plan(s)).disk;
    forall e
      ensures Reads(sqlite, x, e) == Reads(sqlite, d0, e)
    {
      assert Lookup(x, Database(e)) == Captured(user, s, Database(e));
      assert Lookup(x, Wal(e)) == Captured(user, s, Wal(e)) == None;
    }
    forall n: nat | n < |STORE_LIMITS|
      ensures Lookup(x, Store(n)).Some? <==> Lookup(d0, Store(n)).Some?
      ensures Store(n) in d0.files && MayOwn(user, d0.files[Store(n)].meta) ==>
              Lookup(x, Store(n)) == Lookup(d0, Store(n))
    {
      assert Lookup(x, Store(n)) == Captured(user, s, Store(n));
      assert Lookup(d0, Store(n)) == ItemOf(s.stores[n]);
    }
  }
}
