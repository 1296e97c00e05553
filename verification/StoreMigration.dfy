/**
 The run theorem for the two stores that are modelled in full: the Work tables and the viewer pages are
 plugged into the migration protocol, so that what a run of prepares, migrations and crashes does to
 them is known in their own terms.
 */
module StoreMigration {
  import opened Common
  import opened ProfileRemaps
  import opened ProfileRegistry
  import opened TopologyStore
  import opened TopologyMigration
  import W = WorkMigration
  import V = ViewerPages

  datatype Content = Work(tables: W.Tables) | Pages(scopes: V.Scopes)

  /** The order in which `remaps.items()` lists the rename map of a transition. */
  type Order = Transition -> W.Pairs

  ghost predicate DictOrder(order: Order) {
    forall t: Transition :: Lists(order(t), t.remaps)
  }

  predicate Lists(pairs: W.Pairs, m: map<string, string>) {
    W.KeysDistinct(pairs) && W.PairsMap(pairs) == m
  }

  function RewriteWork(engine: Engine, order: Order, t: Transition, tables: W.Tables): Option<W.Tables> {
    var script := W.Script(W.StagedOf(engine, t.revision, order(t)), t.LegacyProfileId());
    match W.ExecAll(engine, tables, script)
    case Ok(after) => Some(after)
    case Err(_) => None
  }

  function Translator(t: Transition): V.Transform {
    sid => match t.Translate(sid) case Ok(to) => Some(to) case Err(_) => None
  }

  function RewritePages(engine: Engine, sizes: V.Sizes, t: Transition, scopes: V.Scopes): Option<V.Scopes> {
    match V.MoveScopes(sizes, engine, Translator(t), [], scopes)
    case Ok(after) => Some(after)
    case Err(_) => None
  }

  function RewriteContent(engine: Engine, order: Order, sizes: V.Sizes, t: Transition, c: Content): Option<Content> {
    match c
    case Work(tables) =>
      (match RewriteWork(engine, order, t, tables)
       case Some(after) => Some(Work(after))
       case None => None)
    case Pages(scopes) =>
      match RewritePages(engine, sizes, t, scopes)
      case Some(after) => Some(Pages(after))
      case None => None
  }

  /** Every store is rewritten by what it holds. */
  function Rewriter(engine: Engine, order: Order, sizes: V.Sizes): Rewrite<Content> {
    (i, t, c) => RewriteContent(engine, order, sizes, t, c)
  }

  // ---- One migration of a run ----

  lemma {:induction false} ReplayPrefix<C>(apply: Rewrite<C>, i: nat, initial: C, history: seq<Effect<C>>, k: nat)
    requires k <= |history| && Replay(apply, i, initial, history).Some?
    ensures Replay(apply, i, initial, history[..k]).Some?
    decreases |history|
  {
    if k == |history| {
      assert history[..k] == history;
    } else {
      var front := history[..|history| - 1];
      ReplayPrefix(apply, i, initial, front, k);
      assert front[..k] == history[..k];
    }
  }

  lemma ReplayNext<C>(apply: Rewrite<C>, i: nat, initial: C, history: seq<Effect<C>>, k: nat)
    requires k < |history| && Replay(apply, i, initial, history).Some? && history[k].Migrated?
    ensures Replay(apply, i, initial, history[..k]).Some? && Replay(apply, i, initial, history[..k + 1]).Some?
    ensures apply(i, history[k].t, Replay(apply, i, initial, history[..k]).value) ==
            Replay(apply, i, initial, history[..k + 1])
  {
    ReplayPrefix(apply, i, initial, history, k);
    ReplayPrefix(apply, i, initial, history, k + 1);
    assert history[..k + 1][..k] == history[..k];
  }

  /** What the substitution asks of the tables: unique sessions, no staging name, owners that stay apart. */
  ghost predicate Ready(engine: Engine, order: Order, t: Transition, tables: W.Tables) {
    && W.Unique(tables.sessions)
    && W.Avoids(engine, tables, W.StagingNames(W.StagedOf(engine, t.revision, order(t))))
    && W.RenamesApart(engine, tables.sessions, t.remaps)
  }

  lemma WorkRewriteIsParallel(engine: Engine, order: Order, t: Transition, tables: W.Tables)
    requires Lists(order(t), t.remaps) && Ready(engine, order, t, tables)
    requires RewriteWork(engine, order, t, tables).Some?
    ensures RewriteWork(engine, order, t, tables).value == W.Parallel(engine, tables, t.remaps, t.LegacyProfileId())
    ensures W.Unique(RewriteWork(engine, order, t, tables).value.sessions)
  {
    W.StagedIsParallel(engine, tables, t.revision, order(t), t.LegacyProfileId());
    W.ParallelUniqueExact(engine, tables, t.remaps, t.LegacyProfileId());
  }

  /**
   In every run with crashes, each completed transition reaches the Work tables once and in order, and on
   tables that are ready for it it is the simultaneous substitution of its rename map.
   */
  lemma WorkSubstitutedOnce(engine: Engine, order: Order, sizes: V.Sizes, w: World<Content>, es: seq<Event<Content>>,
                            i: nat, k: nat)
    requires DictOrder(order) && Initial(engine, w) && i < |w.stores|
    requires var run := RunOf(engine, Rewriter(engine, order, sizes), w, es);
             run.Some? && run.value.pending.None? && i < |run.value.stores| &&
             k < |run.value.stores[i].history| && run.value.stores[i].history[k].Migrated?
    requires var history := RunOf(engine, Rewriter(engine, order, sizes), w, es).value.stores[i].history;
             var before := Replay(Rewriter(engine, order, sizes), i, w.stores[i].content, history[..k]);
             before.Some? && before.value.Work? && Ready(engine, order, history[k].t, before.value.tables)
    ensures var w', apply := RunOf(engine, Rewriter(engine, order, sizes), w, es).value, Rewriter(engine, order, sizes);
            var history := w'.stores[i].history;
            var t, before := history[k].t, Replay(apply, i, w.stores[i].content, history[..k]).value.tables;
            && Transitions(history) == w'.completed
            && Replay(apply, i, w.stores[i].content, history[..k + 1]) ==
               Some(Work(W.Parallel(engine, before, t.remaps, t.LegacyProfileId())))
  {
    var apply := Rewriter(engine, order, sizes);
    var w' := RunOf(engine, apply, w, es).value;
    var history := w'.stores[i].history;
    ExactlyOnce(engine, apply, w, es, i);
    ReplayNext(apply, i, w.stores[i].content, history, k);
    var t, before := history[k].t, Replay(apply, i, w.stores[i].content, history[..k]).value;
    assert apply(i, t, before) == RewriteContent(engine, order, sizes, t, before);
    assert Lists(order(t), t.remaps);
    WorkRewriteIsParallel(engine, order, t, before.tables);
  }

  /** And the viewer pages: each completed transition moves every page of the engine to the translated session, once. */
  lemma PagesMovedOnce(engine: Engine, order: Order, sizes: V.Sizes, w: World<Content>, es: seq<Event<Content>>,
                       i: nat, k: nat, key: V.Scope, id: V.PageId)
    requires Initial(engine, w) && i < |w.stores|
    requires var run := RunOf(engine, Rewriter(engine, order, sizes), w, es);
             run.Some? && run.value.pending.None? && i < |run.value.stores| &&
             k < |run.value.stores[i].history| && run.value.stores[i].history[k].Migrated?
    requires var history := RunOf(engine, Rewriter(engine, order, sizes), w, es).value.stores[i].history;
             var before := Replay(Rewriter(engine, order, sizes), i, w.stores[i].content, history[..k]);
             before.Some? && before.value.Pages? && V.DistinctKeys(before.value.scopes)
    ensures var w', apply := RunOf(engine, Rewriter(engine, order, sizes), w, es).value, Rewriter(engine, order, sizes);
            var history := w'.stores[i].history;
            var before := Replay(apply, i, w.stores[i].content, history[..k]).value.scopes;
            var after := Replay(apply, i, w.stores[i].content, history[..k + 1]);
            && Transitions(history) == w'.completed
            && after.Some? && after.value.Pages?
            && if key.engine == engine
               then V.HasPage(V.Lookup(after.value.scopes, key), id) <==>
               V.Arrives(engine, Translator(history[k].t), before, key, id)
               else V.Lookup(after.value.scopes, key) == V.Lookup(before, key)
  {
    var apply := Rewriter(engine, order, sizes);
    var w' := RunOf(engine, apply, w, es).value;
    var history := w'.stores[i].history;
    ExactlyOnce(engine, apply, w, es, i);
    ReplayNext(apply, i, w.stores[i].content, history, k);
    var t, before := history[k].t, Replay(apply, i, w.stores[i].content, history[..k]).value;
    assert apply(i, t, before) == RewriteContent(engine, order, sizes, t, before);
    if key.engine == engine {
      V.MigrationMovesPages(sizes, engine, Translator(t), before.scopes, key, id);
    } else {
      V.OtherEngineUntouched(sizes, engine, Translator(t), before.scopes, key);
    }
  }

  // ---- One owner through a whole run ----

  /** The transitions lead from one topology to the next. */
  predicate Chain(first: seq<Profile>, ts: seq<Transition>)
    decreases |ts|
  {
    if ts == [] then true
    else
      var front, t := ts[..|ts| - 1], ts[|ts| - 1];
      Chain(first, front) && t.Consistent() && t.previous == LastProfiles(first, front)
  }

  function LastProfiles(first: seq<Profile>, ts: seq<Transition>): seq<Profile> {
    if ts == [] then first else ts[|ts| - 1].current
  }

  lemma {:induction false} CompletedChain(first: seq<Profile>, ts: seq<Transition>)
    requires AllConsistent(ts)
    requires forall k :: 0 < k < |ts| ==> ts[k].previous == ts[k - 1].current
    requires ts != [] ==> ts[0].previous == first
    ensures Chain(first, ts)
    decreases |ts|
  {
    if ts != [] {
      var front := ts[..|ts| - 1];
      assert forall t :: t in front ==> t in ts;
      assert ts[|ts| - 1] in ts;
      CompletedChain(first, front);
    }
  }

  /** The staging names of a Codex transition. Those of Claude are too long to be an account id. */
  function Taken(engine: Engine, order: Order, t: Transition): set<string> {
    if engine.Codex? then W.StagingNames(W.StagedOf(Codex, t.revision, order(t))) else {}
  }

  /** Every topology keeps `home`, and no Codex id of it is a staging name of the transition that renames it. */
  predicate Follows(engine: Engine, order: Order, t: Transition, home: string) {
    home in Homes(t.current) && forall p :: p in t.previous && p.home == home ==> p.id !in Taken(engine, order, t)
  }

  /** One migration leaves an owner cell with the same home. */
  lemma CellFollows(engine: Engine, order: Order, t: Transition, tables: W.Tables, c: W.Cell, p: Profile, q: Profile)
    requires t.Consistent() && Lists(order(t), t.remaps) && RewriteWork(engine, order, t, tables).Some?
    requires W.InTables(engine, tables, c) && W.OwnerAt(engine, tables, c) == Some(p.id)
    requires p in t.previous && q in t.current && q.home == p.home && Follows(engine, order, t, p.home)
    ensures var after := RewriteWork(engine, order, t, tables).value;
            W.SameRows(tables, after) && W.InTables(engine, after, c) && W.OwnerAt(engine, after, c) == Some(q.id)
  {
    var staged := W.StagedOf(engine, t.revision, order(t));
    if engine.Claude? { W.ClaudeStagingIsLong(t.revision, order(t)); }
    assert p.id !in W.StagingNames(staged);
    W.StagingNameExact(engine, tables, t.revision, order(t), t.LegacyProfileId(), c);
    W.ExecKeepsRows(engine, tables, W.Script(staged, t.LegacyProfileId()));
    RemapsPermute(t.previous, t.current);
  }

  /** So does a history of them. */
  lemma {:induction false} CellReplay(engine: Engine, order: Order, sizes: V.Sizes, i: nat, tables: W.Tables,
                                      history: seq<Effect<Content>>, first: seq<Profile>, c: W.Cell, p: Profile)
    returns (q: Profile)
    requires DictOrder(order) && (forall e <- history :: e.Migrated?)
    requires Chain(first, Transitions(history)) &&
             (forall t <- Transitions(history) :: Follows(engine, order, t, p.home))
    requires Replay(Rewriter(engine, order, sizes), i, Work(tables), history).Some?
    requires W.InTables(engine, tables, c) && W.OwnerAt(engine, tables, c) == Some(p.id) && p in first
    ensures q in LastProfiles(first, Transitions(history)) && q.home == p.home
    ensures var after := Replay(Rewriter(engine, order, sizes), i, Work(tables), history).value;
            && after.Work? && W.SameRows(tables, after.tables)
            && W.InTables(engine, after.tables, c) && W.OwnerAt(engine, after.tables, c) == Some(q.id)
    decreases |history|
  {
    if history == [] {
      q := p;
    } else {
      var front, t := history[..|history| - 1], history[|history| - 1].t;
      var ts := Transitions(history);
      assert ts == Transitions(front) + [t] && ts[..|ts| - 1] == Transitions(front);
      assert forall u :: u in Transitions(front) ==> u in ts;
      var r := CellReplay(engine, order, sizes, i, tables, front, first, c, p);
      var before := Replay(Rewriter(engine, order, sizes), i, Work(tables), front).value;
      assert Rewriter(engine, order, sizes)(i, t, before) == RewriteContent(engine, order, sizes, t, before);
      assert t in ts && Lists(order(t), t.remaps);
      q :| q in t.current && q.home == p.home;
      CellFollows(engine, order, t, before.tables, c, r, q);
    }
  }

  lemma {:induction false} LastWellFormed(first: seq<Profile>, ts: seq<Transition>)
    requires WellFormed(first) && Chain(first, ts)
    ensures WellFormed(LastProfiles(first, ts))
  {
    if ts != [] { assert ts[|ts| - 1].Target().Valid(); }
  }

  /**
   Work ownership through every run with crashes, for both engines and whatever happens to other accounts: the
   rows stay, and an owner cell that names a home which every topology keeps names this home afterwards, under
   its present id. For Codex no id of the home may be a staging name of the transition that renames it.
   */
  lemma WorkFollowsHomes(engine: Engine, order: Order, sizes: V.Sizes, w: World<Content>, es: seq<Event<Content>>,
                         i: nat, c: W.Cell, p: Profile, q: Profile)
    requires DictOrder(order) && Initial(engine, w) && w.stored.Some? && i < |w.stores| && w.stores[i].content.Work?
    requires var run := RunOf(engine, Rewriter(engine, order, sizes), w, es);
             && run.Some? && run.value.pending.None? && i < |run.value.stores|
             && (forall e <- run.value.stores[i].history :: e.Migrated?)
             && (forall t <- run.value.completed :: Follows(engine, order, t, p.home))
             && q in LastProfiles(w.stored.value.profiles, run.value.completed) && q.home == p.home
    requires W.InTables(engine, w.stores[i].content.tables, c)
    requires p in w.stored.value.profiles && W.OwnerAt(engine, w.stores[i].content.tables, c) == Some(p.id)
    ensures var w' := RunOf(engine, Rewriter(engine, order, sizes), w, es).value;
            var before, after := w.stores[i].content.tables, w'.stores[i].content;
            && after.Work? && W.SameRows(before, after.tables)
            && W.InTables(engine, after.tables, c) && W.OwnerAt(engine, after.tables, c) == Some(q.id)
  {
    var apply, first := Rewriter(engine, order, sizes), w.stored.value.profiles;
    var w' := RunOf(engine, apply, w, es).value;
    ExactlyOnce(engine, apply, w, es, i);
    CompletedChain(first, w'.completed);
    var r := CellReplay(engine, order, sizes, i, w.stores[i].content.tables, w'.stores[i].history, first, c, p);
    LastWellFormed(first, w'.completed);
    SameProfile(LastProfiles(first, w'.completed), q, r);
  }

  /**
   Rows without an owner, under any transition that the topology files hand out: a session, a schedule and the
   last run of a schedule go to the account that owns such state, and a run to the owner of its schedule.
   */
  lemma UnownedWorkFollowsOwner(engine: Engine, order: Order, stored: Option<Stored>, r: Registry, legacyHome: string,
                                q: Profile, tables: W.Tables)
    requires r.Valid() && (stored.Some? ==> ValidStored(engine, stored.value))
    requires TransitionOf(engine, stored, r, legacyHome).Ok? && TransitionOf(engine, stored, r, legacyHome).value.Some?
    requires q in r.profiles && OwnsUnprofiled(engine, stored, r, legacyHome, q)
    requires RewriteWork(engine, order, TransitionOf(engine, stored, r, legacyHome).value.value, tables).Some?
    ensures var t := TransitionOf(engine, stored, r, legacyHome).value.value;
            W.Filled(engine, tables, RewriteWork(engine, order, t, tables).value, q.id)
  {
    var t := TransitionOf(engine, stored, r, legacyHome).value.value;
    UnprofiledOwner(engine, stored, r, legacyHome, q);
    W.UnownedRowsAreFilled(engine, tables, W.StagedOf(engine, t.revision, order(t)), t.LegacyProfileId());
  }

  // ---- Whole tables through a whole run ----

  function SubstituteAll(engine: Engine, tables: W.Tables, ts: seq<Transition>): W.Tables
    decreases |ts|
  {
    if ts == [] then tables
    else
      var t := ts[|ts| - 1];
      W.Parallel(engine, SubstituteAll(engine, tables, ts[..|ts| - 1]), t.remaps, t.LegacyProfileId())
  }

  predicate HeldIn(o: W.Owner, held: set<string>) {
    o.Some? ==> o.value in held
  }

  /** Sessions of the engine are owned by `owners`, and every owner is one of `held`, which are account ids. */
  ghost predicate Holds(engine: Engine, tables: W.Tables, owners: set<string>, held: set<string>) {
    && W.Unique(tables.sessions) && owners <= held && (forall x :: x in held ==> IsProfileId(x))
    && (forall i :: 0 <= i < |tables.sessions| && tables.sessions[i].engine == engine ==>
        HeldIn(tables.sessions[i].owner, owners))
    && (forall i :: 0 <= i < |tables.schedules| ==>
        HeldIn(tables.schedules[i].owner, held) && HeldIn(tables.schedules[i].lastOwner, held))
    && (forall i :: 0 <= i < |tables.runs| ==> HeldIn(tables.runs[i].owner, held))
  }

  /** The ids that rows may name after `t`: of its accounts, and of dropped ones. */
  function HeldAfter(t: Transition, held: set<string>): set<string> {
    (set x <- held :: Renamed(t.remaps, x)) + Ids(t.current)
  }

  function HeldAfterAll(held: set<string>, ts: seq<Transition>): set<string>
    decreases |ts|
  {
    if ts == [] then held else HeldAfter(ts[|ts| - 1], HeldAfterAll(held, ts[..|ts| - 1]))
  }

  /**
   No id that sessions may still name for a dropped account is given to an account again, and none that any
   row may name is a staging name.
   */
  ghost predicate Untangled(engine: Engine, order: Order, t: Transition, owners: set<string>, held: set<string>) {
    && (forall x :: x in owners && x in Ids(t.current) ==> x in Ids(t.previous))
    && (forall x :: x in held ==> x !in Taken(engine, order, t))
  }

  ghost predicate AllUntangled(engine: Engine, order: Order, ts: seq<Transition>, owners: set<string>,
                               held: set<string>)
    decreases |ts|
  {
    if ts == [] then true
    else
      var front := ts[..|ts| - 1];
      && AllUntangled(engine, order, front, owners, held)
      && Untangled(engine, order, ts[|ts| - 1], HeldAfterAll(owners, front), HeldAfterAll(held, front))
  }

  lemma RenamedTarget(t: Transition, x: string)
    requires t.Consistent() && x in Ids(t.previous)
    ensures Renamed(t.remaps, x) in Ids(t.previous) || Renamed(t.remaps, x) in Ids(t.current)
  {
    DirectInjective(t.previous, t.current);
    RemapsComplete(t.previous, t.current);
  }

  lemma OwnersRenameApart(t: Transition, owners: set<string>, x: string, y: string)
    requires t.Consistent() && (forall z :: z in owners && z in Ids(t.current) ==> z in Ids(t.previous))
    requires x in owners && y in owners && Renamed(t.remaps, x) == Renamed(t.remaps, y)
    ensures x == y
  {
    RemapsPermute(t.previous, t.current);
    if x in Ids(t.previous) { RenamedTarget(t, x); }
    if y in Ids(t.previous) { RenamedTarget(t, y); }
  }

  lemma HeldIsReady(engine: Engine, order: Order, t: Transition, tables: W.Tables, owners: set<string>,
                    held: set<string>)
    requires t.Consistent() && Lists(order(t), t.remaps)
    requires Holds(engine, tables, owners, held) && Untangled(engine, order, t, owners, held)
    ensures Ready(engine, order, t, tables)
  {
    if engine.Claude? { W.ClaudeStagingIsLong(t.revision, order(t)); }
    var names := W.StagingNames(W.StagedOf(engine, t.revision, order(t)));
    assert forall x :: x in held ==> x !in names;
    forall i, j | 0 <= i < |tables.sessions| && 0 <= j < |tables.sessions| &&
      W.OwnedBoth(engine, tables.sessions[i], tables.sessions[j])
      ensures Renamed(t.remaps, tables.sessions[i].owner.value) == Renamed(t.remaps, tables.sessions[j].owner.value) ==>
                tables.sessions[i].owner == tables.sessions[j].owner
    {
      var x, y := tables.sessions[i].owner.value, tables.sessions[j].owner.value;
      if Renamed(t.remaps, x) == Renamed(t.remaps, y) { OwnersRenameApart(t, owners, x, y); }
    }
  }

  lemma HeldStaysLegal(t: Transition, held: set<string>)
    requires t.Consistent() && (forall x :: x in held ==> IsProfileId(x))
    ensures forall x :: x in HeldAfter(t, held) ==> IsProfileId(x)
  {
    RemapsPermute(t.previous, t.current);
    forall x | x in held ensures IsProfileId(Renamed(t.remaps, x)) {
      if x in Ids(t.previous) { RenamedIsProfileId(t, x); }
    }
  }

  lemma LegacyIsHeld(t: Transition, held: set<string>)
    requires t.Consistent() && Ids(t.previous) <= held
    ensures t.LegacyProfileId() in HeldAfter(t, held)
  {
    if |t.previous| == 1 {
      assert t.previous[0] in t.previous && t.previous[0].id in held;
    } else if t.previousDefault.Some? {
      assert t.previousDefault.value in held;
    }
  }

  lemma {:induction false} ScheduleOwnerHeld(schedules: seq<W.ScheduleRow>, id: string, held: set<string>)
    requires forall i :: 0 <= i < |schedules| ==> HeldIn(schedules[i].owner, held)
    ensures HeldIn(W.ScheduleOwner(schedules, id), held)
  {
    if schedules != [] {
      forall i | 0 <= i < |schedules[1..]| ensures HeldIn(schedules[1..][i].owner, held) {
        assert schedules[1..][i] == schedules[i + 1];
      }
      ScheduleOwnerHeld(schedules[1..], id, held);
    }
  }

  lemma StaysHeld(engine: Engine, t: Transition, tables: W.Tables, owners: set<string>, held: set<string>)
    requires t.Consistent() && Holds(engine, tables, owners, held) && Ids(t.previous) <= owners
    requires W.Unique(W.Parallel(engine, tables, t.remaps, t.LegacyProfileId()).sessions)
    ensures Holds(engine, W.Parallel(engine, tables, t.remaps, t.LegacyProfileId()), HeldAfter(t, owners),
                  HeldAfter(t, held))
  {
    HeldStaysLegal(t, held);
    LegacyIsHeld(t, owners);
    ParallelHeld(engine, tables, t.remaps, t.LegacyProfileId(), owners, held, HeldAfter(t, owners), HeldAfter(t, held));
  }

  lemma ParallelHeld(engine: Engine, tables: W.Tables, m: map<string, string>, legacy: string, owners: set<string>,
                     held: set<string>, owners': set<string>, held': set<string>)
    requires Holds(engine, tables, owners, held) && W.Unique(W.Parallel(engine, tables, m, legacy).sessions)
    requires legacy in owners' && owners' <= held' && (forall x :: x in held' ==> IsProfileId(x))
    requires (forall x :: x in owners ==> Renamed(m, x) in owners') &&
             (forall x :: x in held ==> Renamed(m, x) in held')
    ensures Holds(engine, W.Parallel(engine, tables, m, legacy), owners', held')
  {
    forall id ensures HeldIn(W.ScheduleOwner(tables.schedules, id), held) {
      ScheduleOwnerHeld(tables.schedules, id, held);
    }
    var t' := W.Parallel(engine, tables, m, legacy);
    forall k | 0 <= k < |t'.schedules|
      ensures HeldIn(t'.schedules[k].owner, held') && HeldIn(t'.schedules[k].lastOwner, held')
    {
      assert HeldIn(tables.schedules[k].owner, held) && HeldIn(tables.schedules[k].lastOwner, held);
    }
  }

  /** What the transitions of a history make of the tables. */
  lemma {:induction false} TablesReplay(engine: Engine, order: Order, sizes: V.Sizes, i: nat, tables: W.Tables,
                                        history: seq<Effect<Content>>, first: seq<Profile>, owners: set<string>,
                                        held: set<string>)
    requires DictOrder(order) && (forall e <- history :: e.Migrated?)
    requires Holds(engine, tables, owners, held) && Ids(first) <= owners
    requires Chain(first, Transitions(history)) && AllUntangled(engine, order, Transitions(history), owners, held)
    requires Replay(Rewriter(engine, order, sizes), i, Work(tables), history).Some?
    ensures var ts := Transitions(history);
            && Replay(Rewriter(engine, order, sizes), i, Work(tables), history) ==
               Some(Work(SubstituteAll(engine, tables, ts)))
            && Holds(engine, SubstituteAll(engine, tables, ts), HeldAfterAll(owners, ts), HeldAfterAll(held, ts))
            && Ids(LastProfiles(first, ts)) <= HeldAfterAll(owners, ts)
    decreases |history|
  {
    if history != [] {
      var front, t := history[..|history| - 1], history[|history| - 1].t;
      var ts := Transitions(history);
      assert ts == Transitions(front) + [t] && ts[..|ts| - 1] == Transitions(front);
      TablesReplay(engine, order, sizes, i, tables, front, first, owners, held);
      var before := SubstituteAll(engine, tables, Transitions(front));
      var owners', held' := HeldAfterAll(owners, Transitions(front)), HeldAfterAll(held, Transitions(front));
      assert Rewriter(engine, order, sizes)(i, t, Work(before)) ==
             RewriteContent(engine, order, sizes, t, Work(before));
      assert Lists(order(t), t.remaps);
      HeldIsReady(engine, order, t, before, owners', held');
      WorkRewriteIsParallel(engine, order, t, before);
      StaysHeld(engine, t, before, owners', held');
    }
  }

  /**
   The Work tables as a whole, rows without an owner included: after every run with crashes they are the old
   ones with every completed transition substituted once, if no transition gives an id to an account that
   sessions may still name for a dropped one, and for Codex no id that any row may name is a staging name.
   `owners` and `held` may be any legal ids that include the configured ones and the stored owners.
   */
  lemma TablesSubstituted(engine: Engine, order: Order, sizes: V.Sizes, w: World<Content>, es: seq<Event<Content>>,
                          i: nat, owners: set<string>, held: set<string>)
    requires DictOrder(order) && Initial(engine, w) && w.stored.Some? && i < |w.stores| && w.stores[i].content.Work?
    requires Holds(engine, w.stores[i].content.tables, owners, held) && Ids(w.stored.value.profiles) <= owners
    requires var run := RunOf(engine, Rewriter(engine, order, sizes), w, es);
             && run.Some? && run.value.pending.None? && i < |run.value.stores|
             && (forall e <- run.value.stores[i].history :: e.Migrated?)
             && AllUntangled(engine, order, run.value.completed, owners, held)
    ensures var w' := RunOf(engine, Rewriter(engine, order, sizes), w, es).value;
            var after := SubstituteAll(engine, w.stores[i].content.tables, w'.completed);
            && w'.stores[i].content == Work(after)
            && Holds(engine, after, HeldAfterAll(owners, w'.completed), HeldAfterAll(held, w'.completed))
  {
    var apply, first := Rewriter(engine, order, sizes), w.stored.value.profiles;
    var w' := RunOf(engine, apply, w, es).value;
    ExactlyOnce(engine, apply, w, es, i);
    CompletedChain(first, w'.completed);
    TablesReplay(engine, order, sizes, i, w.stores[i].content.tables, w'.stores[i].history, first, owners, held);
  }

  predicate DropsNobody(t: Transition) {
    forall p :: p in t.previous ==> p.home in Homes(t.current)
  }

  lemma NobodyDroppedHeld(t: Transition)
    requires t.Consistent() && DropsNobody(t)
    ensures HeldAfter(t, Ids(t.previous)) == Ids(t.current)
  {
    RemapsPermute(t.previous, t.current);
    forall x | x in Ids(t.previous) ensures Renamed(t.remaps, x) in Ids(t.current) {
      var p :| p in t.previous && p.id == x;
      var q :| q in t.current && q.home == p.home;
    }
  }

  /** While no account is dropped, Claude sessions name configured accounts only, so no id can be taken up again. */
  lemma {:induction false} NobodyDroppedStaysUntangled(order: Order, first: seq<Profile>, ts: seq<Transition>,
                                                       held: set<string>)
    requires Chain(first, ts) && (forall t <- ts :: DropsNobody(t))
    ensures AllUntangled(Claude, order, ts, Ids(first), held)
    ensures HeldAfterAll(Ids(first), ts) == Ids(LastProfiles(first, ts))
    decreases |ts|
  {
    if ts != [] {
      var front, t := ts[..|ts| - 1], ts[|ts| - 1];
      assert t in ts && forall u :: u in front ==> u in ts;
      NobodyDroppedStaysUntangled(order, first, front, held);
      NobodyDroppedHeld(t);
      PresentIsUntangled(order, t, HeldAfterAll(held, front));
    }
  }

  lemma PresentIsUntangled(order: Order, t: Transition, held: set<string>)
    ensures Untangled(Claude, order, t, Ids(t.previous), held)
  {
  }

  // ---- Viewer pages through a whole run ----

  lemma {:induction false} MovesTranslate(sizes: V.Sizes, engine: Engine, f: V.Transform, updated: V.Scopes,
                                          scopes: V.Scopes, k: nat)
    requires V.MoveScopes(sizes, engine, f, updated, scopes).Ok? && k < |scopes| && scopes[k].0.engine == engine
    ensures f(scopes[k].0.sid).Some?
    decreases |scopes|
  {
    if k > 0 {
      MovesTranslate(sizes, engine, f, V.MoveScope(sizes, engine, f, updated, scopes[0]).value, scopes[1..], k - 1);
    }
  }

  lemma {:induction false} MovesStayDistinct(sizes: V.Sizes, engine: Engine, f: V.Transform, scopes: V.Scopes)
    requires V.DistinctKeys(scopes) && V.MoveScopes(sizes, engine, f, [], scopes).Ok?
    ensures V.DistinctKeys(V.MoveScopes(sizes, engine, f, [], scopes).value)
  {
    V.MoveScopesKeeps(sizes, engine, f, [], scopes, V.Scope(engine, V.Code, ""), V.PageId("", "", ""));
  }

  /** One migration takes a page along to the translation of its session id. */
  lemma PageMoves(sizes: V.Sizes, engine: Engine, t: Transition, scopes: V.Scopes, space: V.Space, sid: string,
                  id: V.PageId)
    requires V.DistinctKeys(scopes) && RewritePages(engine, sizes, t, scopes).Some?
    requires V.HasPage(V.Lookup(scopes, V.Scope(engine, space, sid)), id)
    ensures t.Translate(sid).Ok?
    ensures var after := RewritePages(engine, sizes, t, scopes).value;
            V.DistinctKeys(after) && V.HasPage(V.Lookup(after, V.Scope(engine, space, t.Translate(sid).value)), id)
  {
    var k := V.Find(scopes, V.Scope(engine, space, sid));
    MovesTranslate(sizes, engine, Translator(t), [], scopes, k);
    MovesStayDistinct(sizes, engine, Translator(t), scopes);
    var key := V.Scope(engine, space, t.Translate(sid).value);
    assert V.MovesTo(engine, Translator(t), scopes[k].0, key) && V.HasPage(scopes[k].1, id);
    V.MigrationMovesPages(sizes, engine, Translator(t), scopes, key, id);
  }

  lemma {:induction false} PagesReplay(engine: Engine, order: Order, sizes: V.Sizes, i: nat, scopes: V.Scopes,
                                       history: seq<Effect<Content>>, space: V.Space, sid: string, id: V.PageId)
    requires V.DistinctKeys(scopes) && (forall e <- history :: e.Migrated?)
    requires Replay(Rewriter(engine, order, sizes), i, Pages(scopes), history).Some?
    requires V.HasPage(V.Lookup(scopes, V.Scope(engine, space, sid)), id)
    ensures var after := Replay(Rewriter(engine, order, sizes), i, Pages(scopes), history).value;
            var to := TranslateAll(sid, Transitions(history));
            && after.Pages? && V.DistinctKeys(after.scopes) && to.Ok?
            && V.HasPage(V.Lookup(after.scopes, V.Scope(engine, space, to.value)), id)
    decreases |history|
  {
    if history != [] {
      var front, t := history[..|history| - 1], history[|history| - 1].t;
      PagesReplay(engine, order, sizes, i, scopes, front, space, sid, id);
      var mid := Replay(Rewriter(engine, order, sizes), i, Pages(scopes), front).value;
      assert Rewriter(engine, order, sizes)(i, t, mid) == RewriteContent(engine, order, sizes, t, mid);
      TranslateAllSnoc(sid, Transitions(front), t);
      PageMoves(sizes, engine, t, mid.scopes, space, TranslateAll(sid, Transitions(front)).value, id);
    }
  }

  /**
   A page listed for a session of a home that every topology keeps is, after every run with crashes, listed
   under the id that the present registry issues for the same home and session.
   */
  lemma PagesFollowSessions(engine: Engine, order: Order, sizes: V.Sizes, w: World<Content>, es: seq<Event<Content>>,
                            i: nat, start: Registry, p: Profile, last: Profile, space: V.Space, sid: string,
                            id: V.PageId)
    requires Initial(engine, w) && w.stored.Some? && start.Valid() && start.profiles == w.stored.value.profiles
    requires i < |w.stores| && w.stores[i].content.Pages? && V.DistinctKeys(w.stores[i].content.scopes)
    requires V.HasPage(V.Lookup(w.stores[i].content.scopes, V.Scope(engine, space, sid)), id)
    requires start.ResolveWireSessionId(sid).Ok? && start.ResolveWireSessionId(sid).value.0 == p.id &&
             p in start.profiles
    requires var run := RunOf(engine, Rewriter(engine, order, sizes), w, es);
             && run.Some? && run.value.pending.None? && i < |run.value.stores|
             && (forall e <- run.value.stores[i].history :: e.Migrated?) &&
                (forall t <- run.value.completed :: p.home in Homes(t.current))
             && last in Last(start, run.value.completed).profiles && last.home == p.home
    ensures var w' := RunOf(engine, Rewriter(engine, order, sizes), w, es).value;
            var wire := Last(start, w'.completed).WireSessionId(last.id, start.ResolveWireSessionId(sid).value.1);
            && w'.stores[i].content.Pages? && wire.Ok?
            && V.HasPage(V.Lookup(w'.stores[i].content.scopes, V.Scope(engine, space, wire.value)), id)
  {
    var apply := Rewriter(engine, order, sizes);
    var w' := RunOf(engine, apply, w, es).value;
    ExactlyOnce(engine, apply, w, es, i);
    PagesReplay(engine, order, sizes, i, w.stores[i].content.scopes, w'.stores[i].history, space, sid, id);
    ChainedLinks(start, w'.completed);
    MeaningSurvivesHistory(start, w'.completed, sid, p, last);
  }
}
