/**
 A topology change as a protocol over the topology files and any number of independent stores.

 The wrapper may die between any two writes. Every start prepares the transition, every store applies
 it under its own revision guard, and only when all stores are done are the topology file replaced
 and the marker removed, again as two separate writes.
 */
module TopologyMigration {
  import opened Common
  import opened ProfileRemaps
  import opened ProfileRegistry
  import opened TopologyStore

  /** How a store knows which revisions it has applied: JSON stores keep the last one, SQLite keeps a ledger. */
  datatype Guard = HighWater(last: nat) | Ledger(applied: set<nat>) {
    predicate Applied(revision: nat) {
      match this
      case HighWater(last) => last >= revision
      case Ledger(applied) => revision in applied
    }

    function Stamp(revision: nat): Guard {
      match this
      case HighWater(_) => HighWater(revision)
      case Ledger(applied) => Ledger(applied + {revision})
    }

    predicate Below(revision: nat) {
      match this
      case HighWater(last) => last < revision
      case Ledger(applied) => forall a <- applied :: a < revision
    }
  }

  /** What happened to a store's content: a transition took effect, or the running service edited it. */
  datatype Effect<C> = Migrated(t: Transition) | Edited(content: C)

  datatype Store<C> = Store(content: C, guard: Guard, history: seq<Effect<C>>)

  datatype Process =
    | Down
    | Refused
    | Steady
    | Migrating(registry: Registry, t: Transition, done: set<nat>)
    | Replaced(t: Transition)

  datatype World<C> = World(
    stored: Option<Stored>,
    pending: Option<Marker>,
    stores: seq<Store<C>>,
    process: Process,
    completed: seq<Transition>)

  datatype Event<C> =
    | Start(registry: Registry, legacyHome: string)
    | Migrate(store: nat)
    | ReplaceTopology
    | ClearMarker
    | Edit(store: nat, content: C)
    | Crash

  /** `apply(i, t, c)` is store i's rewrite; None when it raises and the store keeps its content. */
  type Rewrite<!C> = (nat, Transition, C) -> Option<C>

  function StartProcess(registry: Registry, answer: Result<Option<Transition>, StoreError>): Process {
    if answer.Err? then Refused
    else if answer.value.None? then Steady
    else Migrating(registry, answer.value.value, {})
  }

  function MigrateStore<C>(apply: Rewrite<C>, t: Transition, i: nat, s: Store<C>): Store<C> {
    if s.guard.Applied(t.revision) then s
    else
      var rewritten := apply(i, t, s.content);
      if rewritten.None? then s
      else Store(rewritten.value, s.guard.Stamp(t.revision), s.history + [Migrated(t)])
  }

  predicate AllDone<C>(w: World<C>)
    requires w.process.Migrating?
  {
    forall i :: 0 <= i < |w.stores| ==> i in w.process.done
  }

  /** The successor of `w`, or None when `e` cannot happen there. */
  function StepOf<C>(engine: Engine, apply: Rewrite<C>, w: World<C>, e: Event<C>): Option<World<C>> {
    match e
    case Start(registry, legacyHome) =>
      if !w.process.Down? || !registry.Valid() then None
      else
        var prepared := PrepareOf(engine, w.stored, w.pending, registry, legacyHome);
        Some(World(w.stored, prepared.1, w.stores, StartProcess(registry, prepared.0), w.completed))
    case Migrate(i) =>
      if !w.process.Migrating? || i >= |w.stores| then None
      else
        var after := MigrateStore(apply, w.process.t, i, w.stores[i]);
        var done := if after.guard.Applied(w.process.t.revision) then w.process.done + {i} else w.process.done;
        Some(World(w.stored, w.pending, w.stores[i := after], Migrating(w.process.registry, w.process.t, done),
                   w.completed))
    case ReplaceTopology =>
      if !w.process.Migrating? || !AllDone(w) || w.pending != Some(MarkerOf(w.process.t)) then None
      else
        Some(World(Some(StoredOf(engine, w.process.registry, w.process.t.revision)), w.pending, w.stores,
                   Replaced(w.process.t), w.completed + [w.process.t]))
    case ClearMarker =>
      if !w.process.Replaced? then None
      else Some(World(w.stored, None, w.stores, Steady, w.completed))
    case Edit(i, content) =>
      if i >= |w.stores| then None
      else if w.process.Steady? || (w.process.Migrating? && i in w.process.done) then
        var after := Store(content, w.stores[i].guard, w.stores[i].history + [Edited(content)]);
        Some(World(w.stored, w.pending, w.stores[i := after], w.process, w.completed))
      else None
    case Crash => Some(World(w.stored, w.pending, w.stores, Down, w.completed))
  }

  function RunOf<C>(engine: Engine, apply: Rewrite<C>, w: World<C>, es: seq<Event<C>>): Option<World<C>> {
    if es == [] then Some(w)
    else match RunOf(engine, apply, w, es[..|es| - 1])
         case None => None
         case Some(mid) => StepOf(engine, apply, mid, es[|es| - 1])
  }

  /** The transitions that took effect on a store, in order. */
  function Transitions<C>(history: seq<Effect<C>>): seq<Transition> {
    if history == [] then []
    else
      var rest := Transitions(history[..|history| - 1]);
      match history[|history| - 1]
      case Migrated(t) => rest + [t]
      case Edited(_) => rest
  }

  /** The content that a history leaves behind. */
  function Replay<C>(apply: Rewrite<C>, i: nat, initial: C, history: seq<Effect<C>>): Option<C> {
    if history == [] then Some(initial)
    else match Replay(apply, i, initial, history[..|history| - 1])
         case None => None
         case Some(content) =>
           match history[|history| - 1]
           case Migrated(t) => apply(i, t, content)
           case Edited(c) => Some(c)
  }

  /** A quiet start: no marker, no process, and no store ahead of the topology file. */
  ghost predicate Initial<C>(engine: Engine, w: World<C>) {
    && w.pending.None? && w.process.Down? && w.completed == []
    && (w.stored.Some? ==> ValidStored(engine, w.stored.value))
    && (forall s <- w.stores :: s.history == [] && s.guard.Below(NextRevision(w.stored)))
  }

  /** A transition is recorded in the marker file and the topology file is still the previous one. */
  predicate Unfinished<C>(w: World<C>) {
    w.pending.Some? && w.pending.value.revision == NextRevision(w.stored)
  }

  /** `t` is what some registry asks of the present topology file. */
  ghost predicate Planned(engine: Engine, stored: Option<Stored>, t: Transition) {
    exists r: Registry, legacyHome: string ::
      r.Valid() && TransitionOf(engine, stored, r, legacyHome) == Ok(Some(t))
  }

  /** Store `s` has either not seen the pending transition or has applied it exactly once. */
  predicate OneOf<C>(s: Store<C>, completed: seq<Transition>, t: Transition) {
    if s.guard.Applied(t.revision) then Transitions(s.history) == completed + [t]
    else Transitions(s.history) == completed
  }

  /** The transition that the marker stands for. */
  function TransitionOfMarker(m: Marker): Transition {
    Transition(m.revision, m.previous, m.previousDefault, m.current, m.currentDefault, RemapsOf(m.previous, m.current))
  }

  ghost predicate StoresAgree<C>(w: World<C>) {
    if Unfinished(w) then StoresDuring(w.stores, w.completed, TransitionOfMarker(w.pending.value))
    else StoresBetween(w.stores, w.completed, NextRevision(w.stored))
  }

  ghost predicate StoresDuring<C>(stores: seq<Store<C>>, completed: seq<Transition>, t: Transition) {
    forall s <- stores :: s.guard.Below(t.revision + 1) && OneOf(s, completed, t)
  }

  ghost predicate StoresBetween<C>(stores: seq<Store<C>>, completed: seq<Transition>, next: nat) {
    forall s <- stores :: s.guard.Below(next) && Transitions(s.history) == completed
  }

  ghost predicate DoneApplied<C>(stores: seq<Store<C>>, revision: nat, done: set<nat>) {
    forall i <- done :: i < |stores| && stores[i].guard.Applied(revision)
  }

  ghost predicate ProcessAgrees<C>(engine: Engine, w: World<C>) {
    match w.process
    case Down => true
    case Refused => true
    case Steady => w.pending.None?
    case Migrating(registry, t, done) =>
      && registry.Valid() && t.Target() == registry && t.Consistent()
      && t.revision == NextRevision(w.stored) && w.pending == Some(MarkerOf(t))
      && (w.stored.Some? ==> t.previous == w.stored.value.profiles)
      && DoneApplied(w.stores, t.revision, done)
    case Replaced(t) =>
      w.pending == Some(MarkerOf(t)) && !Unfinished(w)
  }

  ghost predicate MarkerAgrees<C>(engine: Engine, w: World<C>) {
    match w.pending
    case None => true
    case Some(m) =>
      if Unfinished(w) then Planned(engine, w.stored, TransitionOfMarker(m))
      else w.completed != [] && MarkerOf(w.completed[|w.completed| - 1]) == m
           && w.stored == Some(StoredOf(engine, w.completed[|w.completed| - 1].Target(), m.revision))
  }

  ghost predicate Inv<C>(engine: Engine, w: World<C>) {
    && (w.stored.Some? ==> ValidStored(engine, w.stored.value))
    && MarkerAgrees(engine, w)
    && StoresAgree(w)
    && ProcessAgrees(engine, w)
  }

  lemma MarkerDeterminesTransition(t: Transition)
    requires t.remaps == RemapsOf(t.previous, t.current)
    ensures TransitionOfMarker(MarkerOf(t)) == t
  {
  }

  lemma TransitionRoundTrips(engine: Engine, stored: Option<Stored>, r: Registry, legacyHome: string)
    requires r.Valid() && (stored.Some? ==> ValidStored(engine, stored.value))
    requires TransitionOf(engine, stored, r, legacyHome).Ok? && TransitionOf(engine, stored, r, legacyHome).value.Some?
    ensures var t := TransitionOf(engine, stored, r, legacyHome).value.value;
            t.Consistent() && t.Target() == r && t.revision == NextRevision(stored)
            && (stored.Some? ==> t.previous == stored.value.profiles) && TransitionOfMarker(MarkerOf(t)) == t
  {
    TransitionIsConsistent(engine, stored, r, legacyHome);
  }

  /** A start that begins or resumes a transition. */
  lemma StartMigrates<C>(engine: Engine, w: World<C>, w': World<C>, r: Registry, legacyHome: string, t: Transition)
    requires Inv(engine, w) && r.Valid()
    requires TransitionOf(engine, w.stored, r, legacyHome) == Ok(Some(t))
    requires w.pending.None? || w.pending == Some(MarkerOf(t))
    requires w' == World(w.stored, Some(MarkerOf(t)), w.stores, Migrating(r, t, {}), w.completed)
    ensures Inv(engine, w')
  {
    TransitionRoundTrips(engine, w.stored, r, legacyHome);
    assert Planned(engine, w.stored, t);
    assert Unfinished(w');
    if w.pending.None? {
      assert StoresBetween(w.stores, w.completed, t.revision);
      assert StoresDuring(w.stores, w.completed, t);
    }
  }

  /** A start that finds nothing to do removes a marker that is already complete. */
  lemma StartSettles<C>(engine: Engine, w: World<C>, r: Registry)
    requires Inv(engine, w) && w.stored.Some? && Unchanged(engine, w.stored.value, r)
    requires w.pending.None? || Targets(w.pending.value, r)
    ensures Inv(engine, World(w.stored, None, w.stores, Steady, w.completed))
  {
    if w.pending.Some? && Unfinished(w) {
      UnfinishedNeedsChange(engine, w, r);
    }
  }

  lemma StartKeepsInv<C>(engine: Engine, apply: Rewrite<C>, w: World<C>, r: Registry, legacyHome: string)
    requires Inv(engine, w) && StepOf(engine, apply, w, Start(r, legacyHome)).Some?
    ensures Inv(engine, StepOf(engine, apply, w, Start(r, legacyHome)).value)
  {
    var w' := StepOf(engine, apply, w, Start(r, legacyHome)).value;
    var asked := TransitionOf(engine, w.stored, r, legacyHome);
    if asked.Ok? && asked.value.Some? {
      var t := asked.value.value;
      if w.pending.None? || w.pending == Some(MarkerOf(t)) {
        StartMigrates(engine, w, w', r, legacyHome, t);
      } else {
        RefusedKeepsInv(engine, w);
      }
    } else if asked.Ok? && (w.pending.None? || Targets(w.pending.value, r)) {
      StartSettles(engine, w, r);
    } else {
      RefusedKeepsInv(engine, w);
    }
  }

  lemma RefusedKeepsInv<C>(engine: Engine, w: World<C>)
    requires Inv(engine, w)
    ensures Inv(engine, World(w.stored, w.pending, w.stores, Refused, w.completed))
  {
  }

  /** A recorded, unfinished transition always targets a registry that differs from the topology file. */
  lemma UnfinishedNeedsChange<C>(engine: Engine, w: World<C>, r: Registry)
    requires MarkerAgrees(engine, w) && Unfinished(w) && Targets(w.pending.value, r)
    ensures w.stored.Some? ==> !Unchanged(engine, w.stored.value, r)
  {
    var t := TransitionOfMarker(w.pending.value);
    var r0: Registry, h0: string :| r0.Valid() && TransitionOf(engine, w.stored, r0, h0) == Ok(Some(t));
    assert r0 == r;
  }

  lemma TransitionsAppend<C>(history: seq<Effect<C>>, e: Effect<C>)
    ensures Transitions(history + [e]) == if e.Migrated? then Transitions(history) + [e.t] else Transitions(history)
  {
    assert (history + [e])[..|history|] == history;
  }

  lemma MigrateKeepsStores<C>(engine: Engine, apply: Rewrite<C>, w: World<C>, i: nat)
    requires Inv(engine, w) && StepOf(engine, apply, w, Migrate(i)).Some?
    ensures StoresDuring(StepOf(engine, apply, w, Migrate(i)).value.stores, w.completed, w.process.t)
  {
    var w' := StepOf(engine, apply, w, Migrate(i)).value;
    var t, s := w.process.t, w.stores[i];
    MarkerDeterminesTransition(t);
    assert StoresDuring(w.stores, w.completed, t);
    if !s.guard.Applied(t.revision) && apply(i, t, s.content).Some? {
      TransitionsAppend(s.history, Migrated(t));
      assert s in w.stores;
      forall k | k in w'.stores ensures k.guard.Below(t.revision + 1) && OneOf(k, w'.completed, t) {
        assert k in w.stores || k == w'.stores[i];
      }
    } else {
      assert w'.stores == w.stores;
    }
  }

  lemma MigrateKeepsInv<C>(engine: Engine, apply: Rewrite<C>, w: World<C>, i: nat)
    requires Inv(engine, w) && StepOf(engine, apply, w, Migrate(i)).Some?
    ensures Inv(engine, StepOf(engine, apply, w, Migrate(i)).value)
  {
    var w' := StepOf(engine, apply, w, Migrate(i)).value;
    MarkerDeterminesTransition(w.process.t);
    MigrateKeepsStores(engine, apply, w, i);
    assert Unfinished(w') && w'.stored == w.stored && w'.pending == w.pending;
  }

  lemma ReplaceKeepsInv<C>(engine: Engine, apply: Rewrite<C>, w: World<C>)
    requires Inv(engine, w) && StepOf(engine, apply, w, ReplaceTopology).Some?
    ensures Inv(engine, StepOf(engine, apply, w, ReplaceTopology).value)
  {
    var w' := StepOf(engine, apply, w, ReplaceTopology).value;
    var t := w.process.t;
    MarkerDeterminesTransition(t);
    assert NextRevision(w'.stored) == t.revision + 1 && !Unfinished(w');
    forall s | s in w'.stores ensures Transitions(s.history) == w'.completed {
      var i: nat :| i < |w.stores| && w.stores[i] == s;
      assert i in w.process.done;
    }
  }

  lemma EditKeepsStores<C>(engine: Engine, apply: Rewrite<C>, w: World<C>, i: nat, content: C)
    requires Inv(engine, w) && StepOf(engine, apply, w, Edit(i, content)).Some?
    ensures StoresAgree(StepOf(engine, apply, w, Edit(i, content)).value)
  {
    var w' := StepOf(engine, apply, w, Edit(i, content)).value;
    var s := w.stores[i];
    TransitionsAppend(s.history, Edited(content));
    assert s in w.stores;
    assert Unfinished(w') == Unfinished(w);
    forall k | k in w'.stores
      ensures exists k0 :: k0 in w.stores && k.guard == k0.guard && Transitions(k.history) == Transitions(k0.history)
    {
      assert k in w.stores || k == w'.stores[i];
    }
  }

  lemma EditKeepsInv<C>(engine: Engine, apply: Rewrite<C>, w: World<C>, i: nat, content: C)
    requires Inv(engine, w) && StepOf(engine, apply, w, Edit(i, content)).Some?
    ensures Inv(engine, StepOf(engine, apply, w, Edit(i, content)).value)
  {
    var w' := StepOf(engine, apply, w, Edit(i, content)).value;
    EditKeepsStores(engine, apply, w, i, content);
    assert Unfinished(w') == Unfinished(w) && w'.stored == w.stored && w'.pending == w.pending &&
           w'.completed == w.completed;
  }

  lemma StepKeepsInv<C>(engine: Engine, apply: Rewrite<C>, w: World<C>, e: Event<C>)
    requires Inv(engine, w) && StepOf(engine, apply, w, e).Some?
    ensures Inv(engine, StepOf(engine, apply, w, e).value)
  {
    match e {
      case Start(r, h) => StartKeepsInv(engine, apply, w, r, h);
      case Migrate(i) => MigrateKeepsInv(engine, apply, w, i);
      case ReplaceTopology => ReplaceKeepsInv(engine, apply, w);
      case Edit(i, c) => EditKeepsInv(engine, apply, w, i, c);
      case ClearMarker =>
      case Crash =>
        var w' := StepOf(engine, apply, w, e).value;
        assert Unfinished(w') == Unfinished(w);
    }
  }

  // ---- Whole runs ----

  /** The completed transitions lead from the first topology file to the present one, one revision at a time. */
  ghost predicate Chained(engine: Engine, first: Option<Stored>, completed: seq<Transition>, stored: Option<Stored>) {
    && (forall k :: 0 <= k < |completed| ==> completed[k].revision == NextRevision(first) + k)
    && (forall k :: 0 < k < |completed| ==> completed[k].previous == completed[k - 1].current)
    && (completed != [] && first.Some? ==> completed[0].previous == first.value.profiles)
    && stored == (if completed == [] then first
                  else Some(StoredOf(engine, completed[|completed| - 1].Target(), completed[|completed| - 1].revision)))
  }

  ghost predicate AllConsistent(completed: seq<Transition>) {
    forall t <- completed :: t.Consistent()
  }

  ghost predicate ContentsReplay<C>(apply: Rewrite<C>, before: seq<Store<C>>, after: seq<Store<C>>) {
    |after| == |before| &&
    forall i :: 0 <= i < |after| ==> Replay(apply, i, before[i].content, after[i].history) == Some(after[i].content)
  }

  lemma ReplayAppend<C>(apply: Rewrite<C>, i: nat, initial: C, history: seq<Effect<C>>, e: Effect<C>)
    requires Replay(apply, i, initial, history).Some?
    ensures Replay(apply, i, initial, history + [e])
         == if e.Migrated? then apply(i, e.t, Replay(apply, i, initial, history).value) else Some(e.content)
  {
    assert (history + [e])[..|history|] == history;
  }

  lemma StepReplays<C>(engine: Engine, apply: Rewrite<C>, before: seq<Store<C>>, w: World<C>, e: Event<C>)
    requires ContentsReplay(apply, before, w.stores) && StepOf(engine, apply, w, e).Some?
    ensures ContentsReplay(apply, before, StepOf(engine, apply, w, e).value.stores)
  {
    if e.Migrate? && !w.stores[e.store].guard.Applied(w.process.t.revision) {
      ReplayAppend(apply, e.store, before[e.store].content, w.stores[e.store].history, Migrated(w.process.t));
    } else if e.Edit? {
      ReplayAppend(apply, e.store, before[e.store].content, w.stores[e.store].history, Edited(e.content));
    }
  }

  lemma StepChains<C>(engine: Engine, apply: Rewrite<C>, first: Option<Stored>, w: World<C>, e: Event<C>)
    requires Inv(engine, w) && Chained(engine, first, w.completed, w.stored) && StepOf(engine, apply, w, e).Some?
    ensures var w' := StepOf(engine, apply, w, e).value; Chained(engine, first, w'.completed, w'.stored)
  {
    if e.ReplaceTopology? {
      ChainExtends(engine, first, w.completed, w.stored, w.process.t);
    }
  }

  lemma ChainExtends(engine: Engine, first: Option<Stored>, completed: seq<Transition>, stored: Option<Stored>,
                     t: Transition)
    requires Chained(engine, first, completed, stored) && t.revision == NextRevision(stored)
    requires stored.Some? ==> t.previous == stored.value.profiles
    ensures Chained(engine, first, completed + [t], Some(StoredOf(engine, t.Target(), t.revision)))
  {
    var longer := completed + [t];
    assert forall k :: 0 <= k < |completed| ==> longer[k] == completed[k];
    assert completed != [] ==> t.previous == completed[|completed| - 1].current;
  }

  lemma StepConsistent<C>(engine: Engine, apply: Rewrite<C>, w: World<C>, e: Event<C>)
    requires ProcessAgrees(engine, w) && AllConsistent(w.completed) && StepOf(engine, apply, w, e).Some?
    ensures AllConsistent(StepOf(engine, apply, w, e).value.completed)
  {
    var w' := StepOf(engine, apply, w, e).value;
    forall t | t in w'.completed ensures t.Consistent() {
      if t !in w.completed { assert t == w.process.t; }
    }
  }

  lemma InitialHolds<C>(engine: Engine, apply: Rewrite<C>, w: World<C>)
    requires Initial(engine, w)
    ensures Inv(engine, w) && Chained(engine, w.stored, w.completed, w.stored) &&
            ContentsReplay(apply, w.stores, w.stores)
  {
    forall i | 0 <= i < |w.stores| ensures w.stores[i].history == [] {
      assert w.stores[i] in w.stores;
    }
  }

  lemma {:induction false} RunKeepsInv<C>(engine: Engine, apply: Rewrite<C>, w: World<C>, es: seq<Event<C>>)
    requires Initial(engine, w) && RunOf(engine, apply, w, es).Some?
    ensures var w' := RunOf(engine, apply, w, es).value;
            && Inv(engine, w')
            && Chained(engine, w.stored, w'.completed, w'.stored) && AllConsistent(w'.completed)
            && ContentsReplay(apply, w.stores, w'.stores)
  {
    if es == [] {
      InitialHolds(engine, apply, w);
    } else {
      var mid := RunOf(engine, apply, w, es[..|es| - 1]).value;
      RunKeepsInv(engine, apply, w, es[..|es| - 1]);
      StepChains(engine, apply, w.stored, mid, es[|es| - 1]);
      StepConsistent(engine, apply, mid, es[|es| - 1]);
      StepKeepsInv(engine, apply, mid, es[|es| - 1]);
      StepReplays(engine, apply, w.stores, mid, es[|es| - 1]);
    }
  }

  /**
   In every run with crashes anywhere, once no marker is left every store has been through exactly
   the completed transitions, each of which has its own revision, in their order and once each, and
   its content is what they (and the service's own edits in between) make of its first content.
   */
  lemma ExactlyOnce<C>(engine: Engine, apply: Rewrite<C>, w: World<C>, es: seq<Event<C>>, i: nat)
    requires Initial(engine, w) && RunOf(engine, apply, w, es).Some?
    requires RunOf(engine, apply, w, es).value.pending.None? && i < |w.stores|
    ensures var w' := RunOf(engine, apply, w, es).value;
            && i < |w'.stores|
            && Transitions(w'.stores[i].history) == w'.completed
            && Replay(apply, i, w.stores[i].content, w'.stores[i].history) == Some(w'.stores[i].content)
            && Chained(engine, w.stored, w'.completed, w'.stored) && AllConsistent(w'.completed)
  {
    RunKeepsInv(engine, apply, w, es);
    assert RunOf(engine, apply, w, es).value.stores[i] in RunOf(engine, apply, w, es).value.stores;
  }

  /** Before the topology file is replaced, every store is either untouched or migrated once. */
  lemma NeverTwice<C>(engine: Engine, apply: Rewrite<C>, w: World<C>, es: seq<Event<C>>, i: nat)
    requires Initial(engine, w) && RunOf(engine, apply, w, es).Some?
    requires Unfinished(RunOf(engine, apply, w, es).value) && i < |w.stores|
    ensures var w' := RunOf(engine, apply, w, es).value;
            && i < |w'.stores|
            && var t := TransitionOfMarker(w'.pending.value);
            Transitions(w'.stores[i].history) in {w'.completed, w'.completed + [t]}
  {
    RunKeepsInv(engine, apply, w, es);
    assert RunOf(engine, apply, w, es).value.stores[i] in RunOf(engine, apply, w, es).value.stores;
  }

  /** The first Claude transition, asked for with a legacy directory that the marker does not record. */
  predicate OtherLegacy<C>(engine: Engine, w: World<C>, legacyHome: string)
    requires w.pending.Some?
  {
    engine.Claude? && w.stored.None? && legacyHome !in Homes(w.pending.value.previous)
  }

  /**
   While the marker exists a start is refused exactly when it names another registry, a return to the
   old one included, or begins the first Claude transition from another legacy directory; otherwise it
   resumes the very same transition, or removes a marker whose topology is already in place.
   */
  lemma PendingPinsTheTarget<C>(engine: Engine, apply: Rewrite<C>, w: World<C>, r: Registry, legacyHome: string)
    requires Inv(engine, w) && w.process.Down? && w.pending.Some? && r.Valid()
    ensures var w' := StepOf(engine, apply, w, Start(r, legacyHome)).value;
            && (w'.process.Refused? <==> !Targets(w.pending.value, r) || OtherLegacy(engine, w, legacyHome))
            && (w'.process.Refused? ==> w' == World(w.stored, w.pending, w.stores, Refused, w.completed))
            && (!w'.process.Refused? && Unfinished(w) ==>
                  w'.process == Migrating(r, TransitionOfMarker(w.pending.value), {}) && w'.pending == w.pending)
            && (!w'.process.Refused? && !Unfinished(w) ==> w'.process == Steady && w'.pending.None?)
  {
    var m := w.pending.value;
    var asked := TransitionOf(engine, w.stored, r, legacyHome);
    if !Targets(m, r) {
      assert asked.Ok? && asked.value.Some? ==> MarkerOf(asked.value.value) != m;
    } else if OtherLegacy(engine, w, legacyHome) {
      assert asked.Ok? ==> asked.value.Some? && MarkerOf(asked.value.value) != m
        by { OtherLegacyDiffers(engine, w, r, legacyHome); }
    } else if Unfinished(w) {
      SameTargetSameTransition(engine, w, r, legacyHome);
    }
  }

  lemma OtherLegacyDiffers<C>(engine: Engine, w: World<C>, r: Registry, legacyHome: string)
    requires w.pending.Some? && OtherLegacy(engine, w, legacyHome)
    ensures var asked := TransitionOf(engine, w.stored, r, legacyHome);
            asked.Ok? ==> asked.value.Some? && MarkerOf(asked.value.value) != w.pending.value
  {
    var asked := TransitionOf(engine, w.stored, r, legacyHome);
    if asked.Ok? {
      var previous := asked.value.value.previous;
      assert previous[0].home == legacyHome && previous[0] in previous;
    }
  }

  lemma SameTargetSameTransition<C>(engine: Engine, w: World<C>, r: Registry, legacyHome: string)
    requires Inv(engine, w) && w.pending.Some? && Unfinished(w) && r.Valid()
    requires Targets(w.pending.value, r) && !OtherLegacy(engine, w, legacyHome)
    ensures TransitionOf(engine, w.stored, r, legacyHome) == Ok(Some(TransitionOfMarker(w.pending.value)))
  {
    var t := TransitionOfMarker(w.pending.value);
    var r0: Registry, h0: string :| r0.Valid() && TransitionOf(engine, w.stored, r0, h0) == Ok(Some(t));
    assert r0 == r;
    if w.stored.None? && engine.Claude? {
      assert t.previous == [Profile(OwnerOf(r.profiles, h0).value, h0)];
      assert Homes(t.previous) == {h0};
    }
  }

  /** There always is a start that is not refused. */
  lemma SomeStartResumes<C>(engine: Engine, w: World<C>) returns (r: Registry, legacyHome: string)
    requires Inv(engine, w) && w.pending.Some? && Unfinished(w)
    ensures r.Valid() && Targets(w.pending.value, r) && !OtherLegacy(engine, w, legacyHome)
  {
    var t := TransitionOfMarker(w.pending.value);
    r, legacyHome :| r.Valid() && TransitionOf(engine, w.stored, r, legacyHome) == Ok(Some(t));
    if w.stored.None? && engine.Claude? {
      assert t.previous[0] in t.previous;
    }
  }

  lemma MigrateAll<C>(engine: Engine, apply: Rewrite<C>, w: World<C>, es: seq<Event<C>>, mid: World<C>, k: nat)
    returns (es': seq<Event<C>>)
    requires RunOf(engine, apply, w, es) == Some(mid) && mid.process.Migrating? && k <= |mid.stores|
    requires forall i: nat :: i < k ==> i in mid.process.done
    requires forall i: nat, c: C :: i < |mid.stores| ==> apply(i, mid.process.t, c).Some?
    ensures es <= es' && RunOf(engine, apply, w, es').Some?
    ensures var w' := RunOf(engine, apply, w, es').value;
            && w'.process.Migrating? && AllDone(w') && w'.process.t == mid.process.t &&
               w'.process.registry == mid.process.registry
            && w'.pending == mid.pending
    decreases |mid.stores| - k
  {
    if k == |mid.stores| {
      es' := es;
    } else {
      var next := StepOf(engine, apply, mid, Migrate(k)).value;
      var longer := es + [Migrate(k)];
      assert longer[..|es|] == es;
      es' := MigrateAll(engine, apply, w, longer, next, k + 1);
    }
  }

  /**
   No crash is fatal: a restart with the recorded target, of which there is one, finishes the transition
   if every store accepts the rewrite.
   */
  lemma CanAlwaysFinish<C>(engine: Engine, apply: Rewrite<C>, w: World<C>)
    returns (r: Registry, legacyHome: string, es: seq<Event<C>>)
    requires Inv(engine, w) && w.process.Down? && w.pending.Some? && Unfinished(w)
    requires forall i: nat, c: C :: i < |w.stores| ==> apply(i, TransitionOfMarker(w.pending.value), c).Some?
    ensures r.Valid() && Targets(w.pending.value, r)
    ensures es != [] && es[0] == Start(r, legacyHome) && RunOf(engine, apply, w, es).Some?
    ensures var w' := RunOf(engine, apply, w, es).value;
            w'.pending.None? && w'.process.Steady? && w'.stored == Some(StoredOf(engine, r, w.pending.value.revision))
  {
    r, legacyHome := SomeStartResumes(engine, w);
    es := FinishWith(engine, apply, w, r, legacyHome);
  }

  lemma FinishWith<C>(engine: Engine, apply: Rewrite<C>, w: World<C>, r: Registry, legacyHome: string)
    returns (es: seq<Event<C>>)
    requires Inv(engine, w) && w.process.Down? && w.pending.Some? && Unfinished(w)
    requires r.Valid() && Targets(w.pending.value, r) && !OtherLegacy(engine, w, legacyHome)
    requires forall i: nat, c: C :: i < |w.stores| ==> apply(i, TransitionOfMarker(w.pending.value), c).Some?
    ensures es != [] && es[0] == Start(r, legacyHome) && RunOf(engine, apply, w, es).Some?
    ensures var w' := RunOf(engine, apply, w, es).value;
            w'.pending.None? && w'.process.Steady? && w'.stored == Some(StoredOf(engine, r, w.pending.value.revision))
  {
    PendingPinsTheTarget(engine, apply, w, r, legacyHome);
    var started := [Start(r, legacyHome)];
    assert started[..0] == [] && RunOf(engine, apply, w, started[..0]) == Some(w);
    var mid := StepOf(engine, apply, w, Start(r, legacyHome)).value;
    var migrated := MigrateAll(engine, apply, w, started, mid, 0);
    var done := RunOf(engine, apply, w, migrated).value;
    var replaced := migrated + [ReplaceTopology];
    assert replaced[..|migrated|] == migrated;
    es := replaced + [ClearMarker];
    assert es[..|replaced|] == replaced;
  }

  // ---- Session ids through a whole run ----

  /** A store of routing ids; the rewrite fails as a whole when one translation fails. */
  function TranslateEach(t: Transition, ids: seq<string>): Option<seq<string>> {
    if ids == [] then Some([])
    else
      var rest := TranslateEach(t, ids[..|ids| - 1]);
      var last := t.Translate(ids[|ids| - 1]);
      if rest.None? || last.Err? then None else Some(rest.value + [last.value])
  }

  lemma {:induction false} TranslateEachAt(t: Transition, ids: seq<string>, k: nat)
    requires TranslateEach(t, ids).Some? && k < |ids|
    ensures |TranslateEach(t, ids).value| == |ids| && t.Translate(ids[k]) == Ok(TranslateEach(t, ids).value[k])
  {
    TranslateEachLength(t, ids);
    if k < |ids| - 1 {
      TranslateEachAt(t, ids[..|ids| - 1], k);
    } else {
      TranslateEachLength(t, ids[..|ids| - 1]);
    }
  }

  lemma TranslateEachLength(t: Transition, ids: seq<string>)
    requires TranslateEach(t, ids).Some?
    ensures |TranslateEach(t, ids).value| == |ids|
  {
  }

  const REWRITE_IDS: Rewrite<seq<string>> := (i, t, ids) => TranslateEach(t, ids)

  lemma {:induction false} TranslateAllSnoc(sid: string, ts: seq<Transition>, t: Transition)
    requires TranslateAll(sid, ts).Ok?
    ensures TranslateAll(sid, ts + [t]) == t.Translate(TranslateAll(sid, ts).value)
    decreases |ts|
  {
    if ts == [] {
      assert ts + [t] == [t] && [t][1..] == [];
      var next := t.Translate(sid);
      if next.Ok? { assert TranslateAll(next.value, [t][1..]) == next; }
    } else {
      assert (ts + [t])[0] == ts[0] && (ts + [t])[1..] == ts[1..] + [t];
      TranslateAllSnoc(ts[0].Translate(sid).value, ts[1..], t);
    }
  }

  lemma {:induction false} ReplayTranslates(i: nat, initial: seq<string>, history: seq<Effect<seq<string>>>, k: nat)
    requires Replay(REWRITE_IDS, i, initial, history).Some? && k < |initial|
    requires forall e <- history :: e.Migrated?
    ensures var ids := Replay(REWRITE_IDS, i, initial, history).value;
            |ids| == |initial| && TranslateAll(initial[k], Transitions(history)) == Ok(ids[k])
  {
    if history != [] {
      var front := history[..|history| - 1];
      var t := history[|history| - 1].t;
      ReplayTranslates(i, initial, front, k);
      var ids := Replay(REWRITE_IDS, i, initial, front).value;
      assert REWRITE_IDS(i, t, ids) == TranslateEach(t, ids);
      TranslateEachAt(t, ids, k);
      TranslateAllSnoc(initial[k], Transitions(front), t);
    }
  }

  lemma {:induction false} ChainedLinks(start: Registry, completed: seq<Transition>)
    requires start.Valid()
    requires AllConsistent(completed)
    requires forall k :: 0 < k < |completed| ==> completed[k].previous == completed[k - 1].current
    requires completed != [] ==> completed[0].previous == start.profiles
    ensures Linked(start, completed)
    decreases |completed|
  {
    if completed != [] {
      forall k | 0 < k < |completed[1..]| ensures completed[1..][k].previous == completed[1..][k - 1].current {
        assert completed[1..][k] == completed[k + 1];
      }
      assert completed[0] in completed;
      ChainedLinks(completed[0].Target(), completed[1..]);
    }
  }

  /**
   A routing id that a store held before, of a home that every topology keeps, is afterwards exactly
   the id that the present registry issues for the same home and session, crashes notwithstanding.
   */
  lemma RoutingIdsKeepMeaning(engine: Engine, w: World<seq<string>>, es: seq<Event<seq<string>>>, i: nat, k: nat,
                              start: Registry, p: Profile, last: Profile)
    requires Initial(engine, w) && RunOf(engine, REWRITE_IDS, w, es).Some?
    requires RunOf(engine, REWRITE_IDS, w, es).value.pending.None?
    requires w.stored.Some? && start.Valid() && start.profiles == w.stored.value.profiles
    requires i < |w.stores| && k < |w.stores[i].content|
    requires start.ResolveWireSessionId(w.stores[i].content[k]).Ok?
    requires start.ResolveWireSessionId(w.stores[i].content[k]).value.0 == p.id && p in start.profiles
    requires var w' := RunOf(engine, REWRITE_IDS, w, es).value;
             && i < |w'.stores| && (forall e <- w'.stores[i].history :: e.Migrated?)
             && (forall t <- w'.completed :: p.home in Homes(t.current))
             && last in Last(start, w'.completed).profiles && last.home == p.home
    ensures var w' := RunOf(engine, REWRITE_IDS, w, es).value;
            var native := start.ResolveWireSessionId(w.stores[i].content[k]).value.1;
            && k < |w'.stores[i].content|
            && Last(start, w'.completed).WireSessionId(last.id, native) == Ok(w'.stores[i].content[k])
  {
    var w' := RunOf(engine, REWRITE_IDS, w, es).value;
    ExactlyOnce(engine, REWRITE_IDS, w, es, i);
    ReplayTranslates(i, w.stores[i].content, w'.stores[i].history, k);
    ChainedLinks(start, w'.completed);
    MeaningSurvivesHistory(start, w'.completed, w.stores[i].content[k], p, last);
  }
}
