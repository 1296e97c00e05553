/**
 Work ownership under a topology change.

 SQL can rename one owner at a time, so a swap goes through staging names: every old id is first moved
 to a fresh name and every fresh name then to its new id. One transaction does this for all owner
 columns, gives rows without an owner to the legacy account, and records the revision.
 */
module WorkMigration {
  import opened Common
  import opened ProfileRemaps
  import opened ProfileRegistry
  import opened TopologyStore

  type Owner = Option<string>

  datatype SessionRow = SessionRow(workId: string, engine: TopologyStore.Engine, session: Option<string>, owner: Owner)

  datatype ScheduleRow = ScheduleRow(scheduleId: string, owner: Owner, lastSession: Option<string>, lastOwner: Owner)

  datatype RunRow = RunRow(runId: string, scheduleId: string, owner: Owner)

  datatype Tables = Tables(sessions: seq<SessionRow>, schedules: seq<ScheduleRow>, runs: seq<RunRow>)

  datatype WorkError = InvalidProfile | InvalidRevision | UniqueViolation

  /** The unique index over engine, owner and session, for rows that have a session. */
  predicate Unique(sessions: seq<SessionRow>) {
    forall i, j :: 0 <= i < j < |sessions| && sessions[i].session.Some? ==> !SameIdentity(sessions[i], sessions[j])
  }

  predicate SameIdentity(a: SessionRow, b: SessionRow) {
    a.engine == b.engine && a.owner == b.owner && a.session == b.session
  }

  /** Two rows clash when engine, owner and session are the same; rows without a session never do. */
  lemma ClashExactly(sessions: seq<SessionRow>)
    ensures !Unique(sessions) <==>
            exists i, j :: 0 <= i < j < |sessions| && sessions[i].session.Some? &&
              (sessions[i].engine, sessions[i].owner, sessions[i].session)
              == (sessions[j].engine, sessions[j].owner, sessions[j].session)
  {
    if i, j :| 0 <= i < j < |sessions| && sessions[i].session.Some? &&
               (sessions[i].engine, sessions[i].owner, sessions[i].session)
               == (sessions[j].engine, sessions[j].owner, sessions[j].session) {
      assert SameIdentity(sessions[i], sessions[j]);
    }
  }

  // ---- Statements ----

  /** The four UPDATEs of one rename, or the final UPDATEs of rows without an owner. */
  datatype Statement = Rename(from: string, to: string) | FillNull(owner: string)

  function RenameCell(o: Owner, from: string, to: string): Owner {
    if o == Some(from) then Some(to) else o
  }

  function MapSessions(engine: Engine, rows: seq<SessionRow>, f: Owner -> Owner): seq<SessionRow> {
    seq(|rows|, i requires 0 <= i < |rows| =>
      if rows[i].engine == engine then rows[i].(owner := f(rows[i].owner)) else rows[i])
  }

  function MapTables(engine: Engine, t: Tables, f: Owner -> Owner): Tables {
    Tables(
      MapSessions(engine, t.sessions, f),
      seq(|t.schedules|, i requires 0 <= i < |t.schedules| =>
        t.schedules[i].(owner := f(t.schedules[i].owner), lastOwner := f(t.schedules[i].lastOwner))),
      seq(|t.runs|, i requires 0 <= i < |t.runs| => t.runs[i].(owner := f(t.runs[i].owner))))
  }

  /** `SELECT s.owner ... WHERE s.schedule_id = id`; a missing row reads as NULL. */
  function ScheduleOwner(schedules: seq<ScheduleRow>, id: string): Owner {
    if schedules == [] then None
    else if schedules[0].scheduleId == id then schedules[0].owner
    else ScheduleOwner(schedules[1..], id)
  }

  function FillCell(o: Owner, owner: string): Owner {
    if o.None? then Some(owner) else o
  }

  function FillSchedules(schedules: seq<ScheduleRow>, legacy: string): seq<ScheduleRow> {
    seq(|schedules|, i requires 0 <= i < |schedules| =>
      schedules[i].(owner := FillCell(schedules[i].owner, legacy),
                    lastOwner := if schedules[i].lastSession.Some? then FillCell(schedules[i].lastOwner, legacy)
                                 else schedules[i].lastOwner))
  }

  /** `COALESCE((SELECT owner of the schedule), legacy)` for runs without an owner. */
  function FillRuns(runs: seq<RunRow>, schedules: seq<ScheduleRow>, legacy: string): seq<RunRow> {
    seq(|runs|, i requires 0 <= i < |runs| =>
      runs[i].(owner := FillCell(runs[i].owner, ScheduleOwner(schedules, runs[i].scheduleId).GetOr(legacy))))
  }

  function Exec(engine: Engine, t: Tables, s: Statement): Result<Tables, WorkError> {
    var t' := match s
              case Rename(from, to) => MapTables(engine, t, o => RenameCell(o, from, to))
              case FillNull(legacy) =>
                var schedules := FillSchedules(t.schedules, legacy);
                Tables(MapSessions(engine, t.sessions, o => FillCell(o, legacy)), schedules,
                       FillRuns(t.runs, schedules, legacy));
    if Unique(t'.sessions) then Ok(t') else Err(UniqueViolation)
  }

  function ExecAll(engine: Engine, t: Tables, script: seq<Statement>): Result<Tables, WorkError>
    decreases |script|
  {
    if script == [] then Ok(t)
    else
      var next :- Exec(engine, t, script[0]);
      ExecAll(engine, next, script[1..])
  }

  // ---- Staging names ----

  function AtLeast(names: set<string>, n: nat): set<string> {
    set x | x in names && |x| >= n
  }

  /** `while temporary in occupied: temporary += "_"` */
  function FreshName(base: string, occupied: set<string>): (name: string)
    ensures name !in occupied && base <= name
    decreases AtLeast(occupied, |base|)
  {
    if base in occupied then
      assert base in AtLeast(occupied, |base|) && base !in AtLeast(occupied, |base + "_"|);
      FreshName(base + "_", occupied)
    else base
  }

  function Decimal(n: nat): string {
    if n < 10 then ["0123456789"[n]] else Decimal(n / 10) + ["0123456789"[n % 10]]
  }

  function StagingPrefix(engine: Engine): string {
    match engine
    case Codex => "ccremote_profile_migration_"
    case Claude => "ccremote_claude_profile_migration_"
  }

  function StagingBase(engine: Engine, revision: nat, index: nat): string {
    StagingPrefix(engine) + Decimal(revision) + "_" + Decimal(index)
  }

  /** `remaps.items()`: old and new id, in dict order. */
  type Pairs = seq<(string, string)>

  predicate KeysDistinct(pairs: Pairs) {
    forall i, j :: 0 <= i < j < |pairs| ==> pairs[i].0 != pairs[j].0
  }

  function PairsMap(pairs: Pairs): map<string, string> {
    if pairs == [] then map[] else PairsMap(pairs[1..])[pairs[0].0 := pairs[0].1]
  }

  function Mentioned(pairs: Pairs): set<string> {
    (set p <- pairs :: p.0) + (set p <- pairs :: p.1)
  }

  /** A rename together with its staging name. */
  datatype Staged = Staged(from: string, via: string, to: string)

  /** The first loop, from position `index` on: pairs that change something get a staging name. */
  function StagePairs(engine: Engine, revision: nat, pairs: Pairs, index: nat, occupied: set<string>): seq<Staged>
    decreases |pairs|
  {
    if pairs == [] then []
    else if pairs[0].0 == pairs[0].1 then StagePairs(engine, revision, pairs[1..], index + 1, occupied)
    else
      var name := FreshName(StagingBase(engine, revision, index), occupied);
      [Staged(pairs[0].0, name, pairs[0].1)] + StagePairs(engine, revision, pairs[1..], index + 1, occupied + {name})
  }

  function StageIn(staged: seq<Staged>): seq<Statement> {
    seq(|staged|, i requires 0 <= i < |staged| => Rename(staged[i].from, staged[i].via))
  }

  function StageOut(staged: seq<Staged>): seq<Statement> {
    seq(|staged|, i requires 0 <= i < |staged| => Rename(staged[i].via, staged[i].to))
  }

  function Script(staged: seq<Staged>, legacy: string): seq<Statement> {
    StageIn(staged) + StageOut(staged) + [FillNull(legacy)]
  }

  /** Staging names are new, and each is used for one rename of one old id. */
  predicate WellStaged(staged: seq<Staged>) {
    && (forall i, j :: 0 <= i < j < |staged| ==> staged[i].from != staged[j].from && staged[i].via != staged[j].via)
    && (forall i, j :: 0 <= i < |staged| && 0 <= j < |staged| ==>
        staged[i].via != staged[j].from && staged[i].via != staged[j].to)
    && (forall i :: 0 <= i < |staged| ==> staged[i].from != staged[i].to)
  }

  function StagingNames(staged: seq<Staged>): set<string> {
    set s <- staged :: s.via
  }

  // ---- The loops stage correctly ----

  function StagedOf(engine: Engine, revision: nat, pairs: Pairs): seq<Staged> {
    StagePairs(engine, revision, pairs, 0, Mentioned(pairs))
  }

  /** Every rename of `staged` at once. */
  function RenamedCell(staged: seq<Staged>, o: Owner): Owner {
    if staged == [] then o
    else if o == Some(staged[0].from) then Some(staged[0].to)
    else RenamedCell(staged[1..], o)
  }

  predicate FromPairs(s: Staged, pairs: Pairs) {
    (s.from, s.to) in pairs && s.from != s.to
  }

  lemma {:induction false} StagePairsShape(engine: Engine, revision: nat, pairs: Pairs, index: nat,
                                           occupied: set<string>)
    ensures var staged := StagePairs(engine, revision, pairs, index, occupied);
            && (forall s <- staged :: FromPairs(s, pairs))
            && (forall s <- staged :: s.via !in occupied && StagingPrefix(engine) <= s.via)
    decreases |pairs|
  {
    if pairs == [] {
    } else if pairs[0].0 == pairs[0].1 {
      StagePairsShape(engine, revision, pairs[1..], index + 1, occupied);
    } else {
      var name := FreshName(StagingBase(engine, revision, index), occupied);
      StagePairsShape(engine, revision, pairs[1..], index + 1, occupied + {name});
      assert StagingPrefix(engine) <= name;
    }
  }

  lemma {:induction false} StagePairsDistinct(engine: Engine, revision: nat, pairs: Pairs, index: nat,
                                              occupied: set<string>)
    requires KeysDistinct(pairs)
    ensures var staged := StagePairs(engine, revision, pairs, index, occupied);
            forall i, j :: 0 <= i < j < |staged| ==> staged[i].from != staged[j].from && staged[i].via != staged[j].via
    decreases |pairs|
  {
    if pairs != [] {
      var name := FreshName(StagingBase(engine, revision, index), occupied);
      var occupied' := if pairs[0].0 == pairs[0].1 then occupied else occupied + {name};
      var rest := StagePairs(engine, revision, pairs[1..], index + 1, occupied');
      StagePairsDistinct(engine, revision, pairs[1..], index + 1, occupied');
      StagePairsShape(engine, revision, pairs[1..], index + 1, occupied');
      forall s | s in rest ensures s.from != pairs[0].0 {
        assert FromPairs(s, pairs[1..]);
        var k :| 0 <= k < |pairs[1..]| && pairs[1..][k] == (s.from, s.to);
        assert pairs[k + 1].0 == s.from;
      }
    }
  }

  /** The staged pairs rename exactly what the dict renames. */
  lemma {:induction false} StagePairsRename(engine: Engine, revision: nat, pairs: Pairs, index: nat,
                                            occupied: set<string>, x: string)
    requires KeysDistinct(pairs)
    ensures RenamedCell(StagePairs(engine, revision, pairs, index, occupied), Some(x)) ==
            Some(Renamed(PairsMap(pairs), x))
    decreases |pairs|
  {
    if pairs != [] {
      var name := FreshName(StagingBase(engine, revision, index), occupied);
      var occupied' := if pairs[0].0 == pairs[0].1 then occupied else occupied + {name};
      StagePairsRename(engine, revision, pairs[1..], index + 1, occupied', x);
      if x == pairs[0].0 {
        PairsMapKeys(pairs[1..], x);
      }
    }
  }

  lemma {:induction false} PairsMapKeys(pairs: Pairs, x: string)
    ensures x in PairsMap(pairs) <==> exists p :: p in pairs && p.0 == x
  {
    if pairs != [] {
      PairsMapKeys(pairs[1..], x);
      assert pairs == [pairs[0]] + pairs[1..];
      if x in PairsMap(pairs) {
        if x == pairs[0].0 { assert pairs[0] in pairs; }
        else { var p :| p in pairs[1..] && p.0 == x; assert p in pairs; }
      }
    }
  }

  lemma StagedIsWellStaged(engine: Engine, revision: nat, pairs: Pairs)
    requires KeysDistinct(pairs)
    ensures WellStaged(StagedOf(engine, revision, pairs))
    ensures forall s <- StagedOf(engine, revision, pairs) :: StagingPrefix(engine) <= s.via
  {
    var staged := StagedOf(engine, revision, pairs);
    StagePairsShape(engine, revision, pairs, 0, Mentioned(pairs));
    StagePairsDistinct(engine, revision, pairs, 0, Mentioned(pairs));
    forall i, j | 0 <= i < |staged| && 0 <= j < |staged|
      ensures staged[i].via != staged[j].from && staged[i].via != staged[j].to
    {
      assert staged[i] in staged && staged[j] in staged;
      var p := (staged[j].from, staged[j].to);
      assert p in pairs && p.0 in Mentioned(pairs) && p.1 in Mentioned(pairs);
    }
    forall i | 0 <= i < |staged| ensures staged[i].from != staged[i].to {
      assert staged[i] in staged && FromPairs(staged[i], pairs);
    }
  }

  // ---- The script refines one simultaneous substitution ----

  function IndexOfFrom(staged: seq<Staged>, x: string): Option<nat> {
    if staged == [] then None
    else if staged[|staged| - 1].from == x then Some(|staged| - 1)
    else IndexOfFrom(staged[..|staged| - 1], x)
  }

  lemma {:induction false} IndexOfFromCharacterized(staged: seq<Staged>, x: string)
    ensures IndexOfFrom(staged, x).Some? ==>
              IndexOfFrom(staged, x).value < |staged| && staged[IndexOfFrom(staged, x).value].from == x
    ensures IndexOfFrom(staged, x).None? ==> forall i :: 0 <= i < |staged| ==> staged[i].from != x
  {
    if staged != [] {
      IndexOfFromCharacterized(staged[..|staged| - 1], x);
    }
  }

  /** What the first `k` of the 2n renames make of an owner. */
  function Phase(staged: seq<Staged>, k: nat, o: Owner): Owner {
    if o.None? then o
    else
      var j := IndexOfFrom(staged, o.value);
      IndexOfFromCharacterized(staged, o.value);
      if j.None? || k <= j.value then o
      else if k <= |staged| + j.value then Some(staged[j.value].via)
      else Some(staged[j.value].to)
  }

  function RenameAt(staged: seq<Staged>, k: nat): Statement
    requires k < 2 * |staged|
  {
    if k < |staged| then Rename(staged[k].from, staged[k].via)
    else Rename(staged[k - |staged|].via, staged[k - |staged|].to)
  }

  lemma PhaseStep(staged: seq<Staged>, k: nat, o: Owner)
    requires WellStaged(staged) && k < 2 * |staged|
    requires o.Some? ==> o.value !in StagingNames(staged)
    ensures RenameCell(Phase(staged, k, o), RenameAt(staged, k).from, RenameAt(staged, k).to) == Phase(staged, k + 1, o)
  {
    if o.Some? {
      IndexOfFromCharacterized(staged, o.value);
      var i := if k < |staged| then k else k - |staged|;
      assert staged[i] in staged;
    }
  }

  lemma PhaseEnd(staged: seq<Staged>, o: Owner)
    requires WellStaged(staged)
    ensures Phase(staged, 2 * |staged|, o) == RenamedCell(staged, o)
  {
    if o.Some? {
      IndexOfFromCharacterized(staged, o.value);
      RenamedCellCharacterized(staged, o.value);
      var j := IndexOfFrom(staged, o.value);
      if j.Some? { assert staged[j.value] in staged; }
    } else {
      RenamedCellCharacterized(staged, "");
    }
  }

  lemma {:induction false} RenamedCellCharacterized(staged: seq<Staged>, x: string)
    requires forall i, j :: 0 <= i < j < |staged| ==> staged[i].from != staged[j].from
    ensures forall s :: s in staged && s.from == x ==> RenamedCell(staged, Some(x)) == Some(s.to)
    ensures (forall s :: s in staged ==> s.from != x) ==> RenamedCell(staged, Some(x)) == Some(x)
    ensures RenamedCell(staged, None) == None
  {
    if staged != [] {
      RenamedCellCharacterized(staged[1..], x);
      assert staged == [staged[0]] + staged[1..];
    }
  }

  predicate NotStaged(staged: seq<Staged>, x: string) {
    forall i :: 0 <= i < |staged| ==> staged[i].via != x
  }

  lemma PhaseInjectiveSome(staged: seq<Staged>, k: nat, x: string, y: string)
    requires WellStaged(staged) && k <= 2 * |staged| && x != y
    requires NotStaged(staged, x) && NotStaged(staged, y)
    requires Phase(staged, 2 * |staged|, Some(x)) != Phase(staged, 2 * |staged|, Some(y))
    ensures Phase(staged, k, Some(x)) != Phase(staged, k, Some(y))
  {
    IndexOfFromCharacterized(staged, x);
    IndexOfFromCharacterized(staged, y);
    var i, j := IndexOfFrom(staged, x), IndexOfFrom(staged, y);
    if i.Some? && j.Some? {
      assert i.value != j.value;
    }
  }

  /** Owners that stay apart when renamed stay apart after every single statement. */
  lemma PhaseInjective(staged: seq<Staged>, k: nat, a: Owner, b: Owner)
    requires WellStaged(staged) && k <= 2 * |staged|
    requires OwnerAvoids(a, StagingNames(staged)) && OwnerAvoids(b, StagingNames(staged))
    requires RenamedCell(staged, a) == RenamedCell(staged, b) ==> a == b
    requires Phase(staged, k, a) == Phase(staged, k, b)
    ensures a == b
  {
    if a.Some? && b.Some? && a != b {
      PhaseEnd(staged, a);
      PhaseEnd(staged, b);
      forall i | 0 <= i < |staged| ensures staged[i].via != a.value && staged[i].via != b.value {
        assert staged[i] in staged;
      }
      PhaseInjectiveSome(staged, k, a.value, b.value);
    }
  }

  /** No owner column holds one of `names`. */
  ghost predicate Avoids(engine: Engine, t: Tables, names: set<string>) {
    && (forall i :: 0 <= i < |t.sessions| && t.sessions[i].engine == engine ==> OwnerAvoids(t.sessions[i].owner, names))
    && (forall i :: 0 <= i < |t.schedules| ==>
        OwnerAvoids(t.schedules[i].owner, names) && OwnerAvoids(t.schedules[i].lastOwner, names))
    && (forall i :: 0 <= i < |t.runs| ==> OwnerAvoids(t.runs[i].owner, names))
  }

  predicate OwnerAvoids(o: Owner, names: set<string>) {
    o.Some? ==> o.value !in names
  }

  /** Renaming keeps the stored session owners apart. */
  ghost predicate OwnersStayApart(engine: Engine, sessions: seq<SessionRow>, staged: seq<Staged>) {
    forall i, j ::
      0 <= i < |sessions| && 0 <= j < |sessions| && sessions[i].engine == engine && sessions[j].engine == engine ==>
      (RenamedCell(staged, sessions[i].owner) == RenamedCell(staged, sessions[j].owner) ==>
       sessions[i].owner == sessions[j].owner)
  }

  function AtPhase(engine: Engine, t: Tables, staged: seq<Staged>, k: nat): Tables {
    MapTables(engine, t, o => Phase(staged, k, o))
  }

  lemma PhaseKeepsUnique(engine: Engine, t: Tables, staged: seq<Staged>, k: nat)
    requires WellStaged(staged) && k <= 2 * |staged|
    requires Unique(t.sessions) && Avoids(engine, t, StagingNames(staged)) &&
             OwnersStayApart(engine, t.sessions, staged)
    ensures Unique(AtPhase(engine, t, staged, k).sessions)
  {
    var rows := AtPhase(engine, t, staged, k).sessions;
    forall i, j | 0 <= i < j < |rows| && rows[i].session.Some? ensures !SameIdentity(rows[i], rows[j]) {
      var a, b := t.sessions[i], t.sessions[j];
      if a.engine == engine && b.engine == engine && Phase(staged, k, a.owner) == Phase(staged, k, b.owner) {
        PhaseInjective(staged, k, a.owner, b.owner);
      }
    }
  }

  lemma ExecRename(engine: Engine, t: Tables, staged: seq<Staged>, k: nat)
    requires WellStaged(staged) && k < 2 * |staged|
    requires Unique(t.sessions) && Avoids(engine, t, StagingNames(staged)) &&
             OwnersStayApart(engine, t.sessions, staged)
    ensures Exec(engine, AtPhase(engine, t, staged, k), RenameAt(staged, k)) == Ok(AtPhase(engine, t, staged, k + 1))
  {
    var names := StagingNames(staged);
    var from, to := RenameAt(staged, k).from, RenameAt(staged, k).to;
    forall o: Owner | OwnerAvoids(o, names)
      ensures RenameCell(Phase(staged, k, o), from, to) == Phase(staged, k + 1, o)
    {
      PhaseStep(staged, k, o);
    }
    PhaseKeepsUnique(engine, t, staged, k + 1);
    var got := MapTables(engine, AtPhase(engine, t, staged, k), o => RenameCell(o, from, to));
    var want := AtPhase(engine, t, staged, k + 1);
    assert got.sessions == want.sessions;
    assert got.schedules == want.schedules;
    assert got.runs == want.runs;
  }

  lemma ScriptAt(staged: seq<Staged>, legacy: string, k: nat)
    requires k < 2 * |staged|
    ensures Script(staged, legacy)[k..][0] == RenameAt(staged, k)
    ensures Script(staged, legacy)[k..][1..] == Script(staged, legacy)[k + 1..]
  {
  }

  lemma {:induction false} ExecRenames(engine: Engine, t: Tables, staged: seq<Staged>, k: nat, legacy: string)
    requires WellStaged(staged) && k <= 2 * |staged|
    requires Unique(t.sessions) && Avoids(engine, t, StagingNames(staged)) &&
             OwnersStayApart(engine, t.sessions, staged)
    ensures ExecAll(engine, AtPhase(engine, t, staged, k), Script(staged, legacy)[k..])
         == Exec(engine, AtPhase(engine, t, staged, 2 * |staged|), FillNull(legacy))
    decreases 2 * |staged| - k
  {
    var rest := Script(staged, legacy)[k..];
    if k == 2 * |staged| {
      assert rest == [FillNull(legacy)] && rest[1..] == [];
    } else {
      ScriptAt(staged, legacy, k);
      ExecRename(engine, t, staged, k);
      ExecRenames(engine, t, staged, k + 1, legacy);
    }
  }

  // ---- The simultaneous substitution ----

  function ParallelCell(m: map<string, string>, legacy: string, o: Owner): Owner {
    match o
    case None => Some(legacy)
    case Some(x) => Some(Renamed(m, x))
  }

  function ParallelSession(engine: Engine, m: map<string, string>, legacy: string, row: SessionRow): SessionRow {
    if row.engine == engine then row.(owner := ParallelCell(m, legacy, row.owner)) else row
  }

  function ParallelSchedule(m: map<string, string>, legacy: string, row: ScheduleRow): ScheduleRow {
    row.(owner := ParallelCell(m, legacy, row.owner),
         lastOwner := if row.lastOwner.None? && row.lastSession.None? then None
         else ParallelCell(m, legacy, row.lastOwner))
  }

  /** A run without an owner goes where its schedule goes. */
  function ParallelRun(m: map<string, string>, legacy: string, schedules: seq<ScheduleRow>, row: RunRow): RunRow {
    row.(owner := ParallelCell(m, legacy, if row.owner.None? then ScheduleOwner(schedules, row.scheduleId)
                               else row.owner))
  }

  /** Every owner column rewritten at once, from the old values. */
  function Parallel(engine: Engine, t: Tables, m: map<string, string>, legacy: string): Tables {
    Tables(
      seq(|t.sessions|, i requires 0 <= i < |t.sessions| => ParallelSession(engine, m, legacy, t.sessions[i])),
      seq(|t.schedules|, i requires 0 <= i < |t.schedules| => ParallelSchedule(m, legacy, t.schedules[i])),
      seq(|t.runs|, i requires 0 <= i < |t.runs| => ParallelRun(m, legacy, t.schedules, t.runs[i])))
  }

  /** A session without an owner has the native id of a session that the legacy account already owns. */
  ghost predicate NullClash(engine: Engine, t: Tables, m: map<string, string>, legacy: string) {
    exists i, j ::
      0 <= i < |t.sessions| && 0 <= j < |t.sessions| &&
      ClashingPair(engine, m, legacy, t.sessions[i], t.sessions[j])
  }

  predicate ClashingPair(engine: Engine, m: map<string, string>, legacy: string, a: SessionRow, b: SessionRow) {
    && a.engine == engine && b.engine == engine
    && a.owner.None? && b.owner.Some? && Renamed(m, b.owner.value) == legacy
    && a.session.Some? && a.session == b.session
  }

  lemma {:induction false} FilledScheduleOwner(schedules: seq<ScheduleRow>, filled: seq<ScheduleRow>,
                                               m: map<string, string>, legacy: string, id: string)
    requires |filled| == |schedules|
    requires forall i :: 0 <= i < |filled| ==>
               filled[i].scheduleId == schedules[i].scheduleId &&
               filled[i].owner == ParallelCell(m, legacy, schedules[i].owner)
    ensures Some(ScheduleOwner(filled, id).GetOr(legacy)) == ParallelCell(m, legacy, ScheduleOwner(schedules, id))
  {
    if schedules != [] {
      FilledScheduleOwner(schedules[1..], filled[1..], m, legacy, id);
    }
  }

  /** After all renames a cell holds the renamed id. */
  ghost predicate Ends(staged: seq<Staged>, m: map<string, string>) {
    forall o: Owner :: Phase(staged, 2 * |staged|, o) == if o.None? then None else Some(Renamed(m, o.value))
  }

  lemma FillSessionsIsParallel(engine: Engine, t: Tables, staged: seq<Staged>, m: map<string, string>, legacy: string)
    requires Ends(staged, m)
    ensures MapSessions(engine, AtPhase(engine, t, staged, 2 * |staged|).sessions, o => FillCell(o, legacy))
         == Parallel(engine, t, m, legacy).sessions
  {
    var got := MapSessions(engine, AtPhase(engine, t, staged, 2 * |staged|).sessions, o => FillCell(o, legacy));
    var want := Parallel(engine, t, m, legacy).sessions;
    forall i | 0 <= i < |got| ensures got[i] == want[i] {
    }
  }

  lemma FillSchedulesIsParallel(engine: Engine, t: Tables, staged: seq<Staged>, m: map<string, string>, legacy: string)
    requires Ends(staged, m)
    ensures FillSchedules(AtPhase(engine, t, staged, 2 * |staged|).schedules, legacy) ==
            Parallel(engine, t, m, legacy).schedules
  {
    var got := FillSchedules(AtPhase(engine, t, staged, 2 * |staged|).schedules, legacy);
    var want := Parallel(engine, t, m, legacy).schedules;
    forall i | 0 <= i < |got| ensures got[i] == want[i] {
    }
  }

  lemma FillRunsIsParallel(engine: Engine, t: Tables, staged: seq<Staged>, m: map<string, string>, legacy: string)
    requires Ends(staged, m)
    ensures FillRuns(AtPhase(engine, t, staged, 2 * |staged|).runs, Parallel(engine, t, m, legacy).schedules, legacy)
         == Parallel(engine, t, m, legacy).runs
  {
    var schedules := Parallel(engine, t, m, legacy).schedules;
    var got := FillRuns(AtPhase(engine, t, staged, 2 * |staged|).runs, schedules, legacy);
    var want := Parallel(engine, t, m, legacy).runs;
    forall i | 0 <= i < |got| ensures got[i] == want[i] {
      FilledScheduleOwner(t.schedules, schedules, m, legacy, t.runs[i].scheduleId);
    }
  }

  lemma FillIsParallel(engine: Engine, t: Tables, staged: seq<Staged>, m: map<string, string>, legacy: string)
    requires WellStaged(staged)
    requires forall x :: RenamedCell(staged, Some(x)) == Some(Renamed(m, x))
    ensures var r := Exec(engine, AtPhase(engine, t, staged, 2 * |staged|), FillNull(legacy));
            r == if Unique(Parallel(engine, t, m, legacy).sessions) then Ok(Parallel(engine, t, m, legacy))
            else Err(UniqueViolation)
  {
    forall o ensures Phase(staged, 2 * |staged|, o) == (if o.None? then None else Some(Renamed(m, o.value))) {
      PhaseEnd(staged, o);
      if o.None? { RenamedCellCharacterized(staged, ""); }
    }
    FillSessionsIsParallel(engine, t, staged, m, legacy);
    FillSchedulesIsParallel(engine, t, staged, m, legacy);
    FillRunsIsParallel(engine, t, staged, m, legacy);
  }

  /** The owners that sessions already have stay apart under `m`. */
  ghost predicate RenamesApart(engine: Engine, sessions: seq<SessionRow>, m: map<string, string>) {
    forall i, j :: 0 <= i < |sessions| && 0 <= j < |sessions| && OwnedBoth(engine, sessions[i], sessions[j]) ==>
      (Renamed(m, sessions[i].owner.value) == Renamed(m, sessions[j].owner.value) ==>
       sessions[i].owner == sessions[j].owner)
  }

  predicate OwnedBoth(engine: Engine, a: SessionRow, b: SessionRow) {
    a.engine == engine && b.engine == engine && a.owner.Some? && b.owner.Some?
  }

  lemma ParallelUniqueExact(engine: Engine, t: Tables, m: map<string, string>, legacy: string)
    requires Unique(t.sessions)
    requires RenamesApart(engine, t.sessions, m)
    ensures Unique(Parallel(engine, t, m, legacy).sessions) <==> !NullClash(engine, t, m, legacy)
  {
    var rows := Parallel(engine, t, m, legacy).sessions;
    if NullClash(engine, t, m, legacy) {
      var i, j :| 0 <= i < |t.sessions| && 0 <= j < |t.sessions| &&
          ClashingPair(engine, m, legacy, t.sessions[i], t.sessions[j]);
      assert SameIdentity(rows[i], rows[j]) && SameIdentity(rows[j], rows[i]) && i != j;
    } else {
      forall i, j | 0 <= i < j < |rows| && rows[i].session.Some? ensures !SameIdentity(rows[i], rows[j]) {
        assert !SameIdentity(t.sessions[i], t.sessions[j]);
        assert !ClashingPair(engine, m, legacy, t.sessions[i], t.sessions[j]);
        assert !ClashingPair(engine, m, legacy, t.sessions[j], t.sessions[i]);
      }
    }
  }

  /**
   Staging refines substitution: if no column holds a staging name and the rename keeps the stored
   owners apart, no statement of the script violates uniqueness before the last one, and the whole
   script is one simultaneous substitution, which the database refuses exactly when a session
   without an owner clashes with one of the legacy account.
   */
  lemma StagedIsParallel(engine: Engine, t: Tables, revision: nat, pairs: Pairs, legacy: string)
    requires KeysDistinct(pairs) && Unique(t.sessions)
    requires Avoids(engine, t, StagingNames(StagedOf(engine, revision, pairs)))
    requires RenamesApart(engine, t.sessions, PairsMap(pairs))
    ensures ExecAll(engine, t, Script(StagedOf(engine, revision, pairs), legacy))
         == if NullClash(engine, t, PairsMap(pairs), legacy) then Err(UniqueViolation)
            else Ok(Parallel(engine, t, PairsMap(pairs), legacy))
  {
    var staged, m := StagedOf(engine, revision, pairs), PairsMap(pairs);
    StagedIsWellStaged(engine, revision, pairs);
    forall x ensures RenamedCell(staged, Some(x)) == Some(Renamed(m, x)) {
      StagePairsRename(engine, revision, pairs, 0, Mentioned(pairs), x);
    }
    ScriptIsParallel(engine, t, staged, m, legacy);
  }

  lemma ScriptIsParallel(engine: Engine, t: Tables, staged: seq<Staged>, m: map<string, string>, legacy: string)
    requires WellStaged(staged) && Unique(t.sessions)
    requires forall x :: RenamedCell(staged, Some(x)) == Some(Renamed(m, x))
    requires Avoids(engine, t, StagingNames(staged)) && RenamesApart(engine, t.sessions, m)
    ensures ExecAll(engine, t, Script(staged, legacy))
         == if NullClash(engine, t, m, legacy) then Err(UniqueViolation) else Ok(Parallel(engine, t, m, legacy))
  {
    OwnersApart(engine, t, staged, m);
    PhaseStart(engine, t, staged);
    ExecRenames(engine, t, staged, 0, legacy);
    assert Script(staged, legacy)[0..] == Script(staged, legacy);
    FillIsParallel(engine, t, staged, m, legacy);
    ParallelUniqueExact(engine, t, m, legacy);
  }

  lemma OwnersApart(engine: Engine, t: Tables, staged: seq<Staged>, m: map<string, string>)
    requires WellStaged(staged)
    requires forall x :: RenamedCell(staged, Some(x)) == Some(Renamed(m, x))
    requires RenamesApart(engine, t.sessions, m)
    ensures OwnersStayApart(engine, t.sessions, staged)
  {
    RenamedCellCharacterized(staged, "");
    forall i, j | 0 <= i < |t.sessions| && 0 <= j < |t.sessions| && t.sessions[i].engine == engine &&
      t.sessions[j].engine == engine
      ensures RenamedCell(staged, t.sessions[i].owner) == RenamedCell(staged, t.sessions[j].owner) ==>
              t.sessions[i].owner == t.sessions[j].owner
    {
      assert t.sessions[i].owner.Some? && t.sessions[j].owner.Some? ==> OwnedBoth(engine, t.sessions[i], t.sessions[j]);
    }
  }

  lemma PhaseStart(engine: Engine, t: Tables, staged: seq<Staged>)
    ensures AtPhase(engine, t, staged, 0) == t
  {
    var start := AtPhase(engine, t, staged, 0);
    forall o ensures Phase(staged, 0, o) == o {
      if o.Some? { IndexOfFromCharacterized(staged, o.value); }
    }
    forall i | 0 <= i < |t.sessions| ensures start.sessions[i] == t.sessions[i] {}
    forall i | 0 <= i < |t.schedules| ensures start.schedules[i] == t.schedules[i] {}
    forall i | 0 <= i < |t.runs| ensures start.runs[i] == t.runs[i] {}
  }

  /** Afterwards every session, schedule and run of the engine has an owner, and none is a staging name. */
  lemma ParallelLeavesNoGaps(engine: Engine, t: Tables, revision: nat, pairs: Pairs, legacy: string)
    requires KeysDistinct(pairs) && legacy !in StagingNames(StagedOf(engine, revision, pairs))
    requires Avoids(engine, t, StagingNames(StagedOf(engine, revision, pairs)))
    ensures var t' := Parallel(engine, t, PairsMap(pairs), legacy);
            && Avoids(engine, t', StagingNames(StagedOf(engine, revision, pairs)))
            && (forall i :: 0 <= i < |t'.sessions| && t'.sessions[i].engine == engine ==> t'.sessions[i].owner.Some?)
            && (forall i :: 0 <= i < |t'.schedules| ==> t'.schedules[i].owner.Some?)
            && (forall i :: 0 <= i < |t'.runs| ==> t'.runs[i].owner.Some?)
  {
    RenamesAvoidStaging(engine, revision, pairs);
    ParallelAvoids(engine, t, PairsMap(pairs), legacy, StagingNames(StagedOf(engine, revision, pairs)));
  }

  lemma RenamesAvoidStaging(engine: Engine, revision: nat, pairs: Pairs)
    requires KeysDistinct(pairs)
    ensures var names := StagingNames(StagedOf(engine, revision, pairs));
            forall x :: x !in names ==> Renamed(PairsMap(pairs), x) !in names
  {
    var staged := StagedOf(engine, revision, pairs);
    var names := StagingNames(staged);
    StagePairsShape(engine, revision, pairs, 0, Mentioned(pairs));
    forall x | x !in names ensures Renamed(PairsMap(pairs), x) !in names {
      StagePairsRename(engine, revision, pairs, 0, Mentioned(pairs), x);
      RenamedCellStays(staged, x);
      forall s | s in staged ensures s.to in Mentioned(pairs) {
        assert FromPairs(s, pairs);
        var p := (s.from, s.to);
        assert p in pairs && p.1 in Mentioned(pairs);
      }
    }
  }

  /** Names that a renaming never produces stay away, and no owner is missing. */
  lemma ParallelAvoids(engine: Engine, t: Tables, m: map<string, string>, legacy: string, names: set<string>)
    requires legacy !in names && Avoids(engine, t, names)
    requires forall x :: x !in names ==> Renamed(m, x) !in names
    ensures var t' := Parallel(engine, t, m, legacy);
            && Avoids(engine, t', names)
            && (forall i :: 0 <= i < |t'.sessions| && t'.sessions[i].engine == engine ==> t'.sessions[i].owner.Some?)
            && (forall i :: 0 <= i < |t'.schedules| ==> t'.schedules[i].owner.Some?)
            && (forall i :: 0 <= i < |t'.runs| ==> t'.runs[i].owner.Some?)
  {
    forall id ensures OwnerAvoids(ScheduleOwner(t.schedules, id), names) {
      ScheduleOwnerAvoids(t.schedules, id, names);
    }
  }

  lemma {:induction false} RenamedCellStays(staged: seq<Staged>, x: string)
    ensures RenamedCell(staged, Some(x)) == Some(x) ||
            exists s :: s in staged && RenamedCell(staged, Some(x)) == Some(s.to)
  {
    if staged != [] {
      RenamedCellStays(staged[1..], x);
      assert staged == [staged[0]] + staged[1..];
    }
  }

  lemma {:induction false} ScheduleOwnerAvoids(schedules: seq<ScheduleRow>, id: string, names: set<string>)
    requires forall i :: 0 <= i < |schedules| ==> OwnerAvoids(schedules[i].owner, names)
    ensures OwnerAvoids(ScheduleOwner(schedules, id), names)
  {
    if schedules != [] {
      ScheduleOwnerAvoids(schedules[1..], id, names);
    }
  }

  // ---- When the staging names are free ----

  /** A Claude staging name is too long to be a profile id, so no stored owner can be one. */
  lemma ClaudeStagingIsFree(t: Tables, revision: nat, pairs: Pairs)
    requires KeysDistinct(pairs)
    requires forall i :: 0 <= i < |t.sessions| && t.sessions[i].owner.Some? ==> IsProfileId(t.sessions[i].owner.value)
    requires forall i :: 0 <= i < |t.schedules| && t.schedules[i].owner.Some? ==>
             IsProfileId(t.schedules[i].owner.value)
    requires forall i :: 0 <= i < |t.schedules| && t.schedules[i].lastOwner.Some? ==>
             IsProfileId(t.schedules[i].lastOwner.value)
    requires forall i :: 0 <= i < |t.runs| && t.runs[i].owner.Some? ==> IsProfileId(t.runs[i].owner.value)
    ensures Avoids(Claude, t, StagingNames(StagedOf(Claude, revision, pairs)))
  {
    ClaudeStagingIsLong(revision, pairs);
  }

  lemma ClaudeStagingIsLong(revision: nat, pairs: Pairs)
    requires KeysDistinct(pairs)
    ensures forall name :: name in StagingNames(StagedOf(Claude, revision, pairs)) ==> !IsProfileId(name)
  {
    StagedIsWellStaged(Claude, revision, pairs);
    forall name | name in StagingNames(StagedOf(Claude, revision, pairs)) ensures !IsProfileId(name) {
      assert |StagingPrefix(Claude)| == 34;
    }
  }

  /** Statement by statement, one owner cell. */
  function RunCell(script: seq<Statement>, o: Owner): Owner
    decreases |script|
  {
    if script == [] then o
    else
      match script[0]
      case Rename(from, to) => RunCell(script[1..], RenameCell(o, from, to))
      case FillNull(legacy) => RunCell(script[1..], FillCell(o, legacy))
  }

  /** An owner column of a row that the script may rename: sessions only of its own engine. */
  datatype Cell = OfSession(i: nat) | OfSchedule(i: nat) | OfLastRun(i: nat) | OfRun(i: nat)

  predicate InTables(engine: Engine, t: Tables, c: Cell) {
    match c
    case OfSession(i) => i < |t.sessions| && t.sessions[i].engine == engine
    case OfSchedule(i) => i < |t.schedules|
    case OfLastRun(i) => i < |t.schedules|
    case OfRun(i) => i < |t.runs|
  }

  function OwnerAt(engine: Engine, t: Tables, c: Cell): Owner
    requires InTables(engine, t, c)
  {
    match c
    case OfSession(i) => t.sessions[i].owner
    case OfSchedule(i) => t.schedules[i].owner
    case OfLastRun(i) => t.schedules[i].lastOwner
    case OfRun(i) => t.runs[i].owner
  }

  /** A cell that has an owner goes through the script on its own. */
  lemma {:induction false} OwnedCell(engine: Engine, t: Tables, script: seq<Statement>, c: Cell)
    requires ExecAll(engine, t, script).Ok? && InTables(engine, t, c) && OwnerAt(engine, t, c).Some?
    ensures var t' := ExecAll(engine, t, script).value;
            InTables(engine, t', c) && OwnerAt(engine, t', c) == RunCell(script, OwnerAt(engine, t, c))
    decreases |script|
  {
    if script != [] {
      OwnedCell(engine, Exec(engine, t, script[0]).value, script[1..], c);
    }
  }

  /** The rows are the same, in the same order, except for who owns them. */
  ghost predicate SameRows(a: Tables, b: Tables) {
    && |a.sessions| == |b.sessions| && |a.schedules| == |b.schedules| && |a.runs| == |b.runs|
    && (forall i :: 0 <= i < |a.sessions| ==> a.sessions[i].(owner := None) == b.sessions[i].(owner := None))
    && (forall i :: 0 <= i < |a.schedules| ==>
          a.schedules[i].(owner := None, lastOwner := None) == b.schedules[i].(owner := None, lastOwner := None))
    && (forall i :: 0 <= i < |a.runs| ==> a.runs[i].(owner := None) == b.runs[i].(owner := None))
  }

  lemma {:induction false} ExecKeepsRows(engine: Engine, t: Tables, script: seq<Statement>)
    requires ExecAll(engine, t, script).Ok?
    ensures SameRows(t, ExecAll(engine, t, script).value)
    decreases |script|
  {
    if script != [] {
      ExecKeepsRows(engine, Exec(engine, t, script[0]).value, script[1..]);
    }
  }

  lemma {:induction false} RunCellOfRenames(staged: seq<Staged>, legacy: string, k: nat, o: Owner)
    requires WellStaged(staged) && k <= 2 * |staged|
    requires OwnerAvoids(o, StagingNames(staged))
    ensures RunCell(Script(staged, legacy)[k..], Phase(staged, k, o)) == FillCell(RenamedCell(staged, o), legacy)
    decreases 2 * |staged| - k
  {
    var rest := Script(staged, legacy)[k..];
    if k == 2 * |staged| {
      PhaseEnd(staged, o);
      assert rest == [FillNull(legacy)] && rest[1..] == [];
    } else {
      ScriptAt(staged, legacy, k);
      PhaseStep(staged, k, o);
      RunCellOfRenames(staged, legacy, k + 1, o);
    }
  }

  /** A cell that holds staging name `i` is untouched until the rename that unstages it. */
  lemma {:induction false} RunCellOfCaptured(staged: seq<Staged>, legacy: string, k: nat, i: nat)
    requires WellStaged(staged) && i < |staged| && k <= 2 * |staged|
    ensures RunCell(Script(staged, legacy)[k..], if k <= |staged| + i then Some(staged[i].via)
                    else Some(staged[i].to)) == Some(staged[i].to)
    decreases 2 * |staged| - k
  {
    var rest := Script(staged, legacy)[k..];
    if k == 2 * |staged| {
      assert rest == [FillNull(legacy)] && rest[1..] == [];
    } else {
      ScriptAt(staged, legacy, k);
      RunCellOfCaptured(staged, legacy, k + 1, i);
    }
  }

  /**
   The hypothesis on staging names is exactly what is needed: after a successful migration any owner
   column that held `x`, of a session, a schedule, its last run or a run, holds the renamed `x` if and
   only if `x` is not one of the staging names.
   */
  lemma StagingNameExact(engine: Engine, t: Tables, revision: nat, pairs: Pairs, legacy: string, c: Cell)
    requires KeysDistinct(pairs) && InTables(engine, t, c) && OwnerAt(engine, t, c).Some?
    requires ExecAll(engine, t, Script(StagedOf(engine, revision, pairs), legacy)).Ok?
    ensures var t' := ExecAll(engine, t, Script(StagedOf(engine, revision, pairs), legacy)).value;
            var x := OwnerAt(engine, t, c).value;
            && InTables(engine, t', c)
            && (OwnerAt(engine, t', c) == Some(Renamed(PairsMap(pairs), x))
                <==> x !in StagingNames(StagedOf(engine, revision, pairs)))
  {
    var staged := StagedOf(engine, revision, pairs);
    var x := OwnerAt(engine, t, c).value;
    StagedIsWellStaged(engine, revision, pairs);
    OwnedCell(engine, t, Script(staged, legacy), c);
    StagePairsRename(engine, revision, pairs, 0, Mentioned(pairs), x);
    CellExact(staged, legacy, x);
  }

  /** Run over one cell, the script renames it if and only if it does not hold a staging name. */
  lemma CellExact(staged: seq<Staged>, legacy: string, x: string)
    requires WellStaged(staged)
    ensures RunCell(Script(staged, legacy), Some(x)) == RenamedCell(staged, Some(x)) <==> x !in StagingNames(staged)
  {
    assert Script(staged, legacy)[0..] == Script(staged, legacy);
    if x in StagingNames(staged) {
      var s :| s in staged && s.via == x;
      var i :| 0 <= i < |staged| && staged[i] == s;
      RunCellOfCaptured(staged, legacy, 0, i);
      StagingNameStays(staged, i);
    } else {
      RunCellOfRenames(staged, legacy, 0, Some(x));
      RenamedCellStays(staged, x);
    }
  }

  lemma StagingNameStays(staged: seq<Staged>, i: nat)
    requires WellStaged(staged) && i < |staged|
    ensures RenamedCell(staged, Some(staged[i].via)) == Some(staged[i].via) != Some(staged[i].to)
  {
    RenamedCellCharacterized(staged, staged[i].via);
    forall s | s in staged ensures s.from != staged[i].via {
      var j :| 0 <= j < |staged| && staged[j] == s;
    }
  }

  // ---- Rows without an owner ----

  lemma {:induction false} ExecConcat(engine: Engine, t: Tables, a: seq<Statement>, b: seq<Statement>)
    ensures ExecAll(engine, t, a + b)
         == match ExecAll(engine, t, a)
            case Err(e) => Err(e)
            case Ok(mid) => ExecAll(engine, mid, b)
    decreases |a|
  {
    if a == [] {
      assert a + b == b;
    } else {
      assert (a + b)[1..] == a[1..] + b;
      var next := Exec(engine, t, a[0]);
      if next.Ok? { ExecConcat(engine, next.value, a[1..], b); }
    }
  }

  /** Rows without an owner stay without one, and sessions of the other engine stay as they are. */
  ghost predicate StaysUnowned(engine: Engine, a: Tables, b: Tables) {
    && SameRows(a, b)
    && (forall i :: 0 <= i < |a.sessions| ==>
        (a.sessions[i].owner.None? ==> b.sessions[i].owner.None?) &&
        (a.sessions[i].engine != engine ==> b.sessions[i] == a.sessions[i]))
    && (forall i :: 0 <= i < |a.schedules| ==>
        (a.schedules[i].owner.None? ==> b.schedules[i].owner.None?) &&
        (a.schedules[i].lastOwner.None? ==> b.schedules[i].lastOwner.None?))
    && (forall i :: 0 <= i < |a.runs| ==> (a.runs[i].owner.None? ==> b.runs[i].owner.None?))
  }

  lemma {:induction false} RenamesFillNothing(engine: Engine, t: Tables, script: seq<Statement>)
    requires ExecAll(engine, t, script).Ok? && forall s :: s in script ==> s.Rename?
    ensures StaysUnowned(engine, t, ExecAll(engine, t, script).value)
    decreases |script|
  {
    ExecKeepsRows(engine, t, script);
    if script != [] {
      assert script[0] in script && forall s :: s in script[1..] ==> s in script;
      RenamesFillNothing(engine, Exec(engine, t, script[0]).value, script[1..]);
    }
  }

  /** What has no owner goes to `legacy`; a run goes where its schedule goes. The other engine is not touched. */
  ghost predicate Filled(engine: Engine, a: Tables, b: Tables, legacy: string) {
    && SameRows(a, b)
    && (forall i :: 0 <= i < |a.sessions| ==>
        if a.sessions[i].engine != engine then b.sessions[i] == a.sessions[i]
        else a.sessions[i].owner.None? ==> b.sessions[i].owner == Some(legacy))
    && (forall i :: 0 <= i < |a.schedules| ==>
        && (a.schedules[i].owner.None? ==> b.schedules[i].owner == Some(legacy))
        && (a.schedules[i].lastOwner.None? ==>
            b.schedules[i].lastOwner == if a.schedules[i].lastSession.Some? then Some(legacy) else None))
    && (forall i, k :: 0 <= i < |a.runs| && a.runs[i].owner.None? && FirstSchedule(b.schedules, a.runs[i].scheduleId, k)
          ==> b.runs[i].owner == b.schedules[k].owner)
    && (forall i :: 0 <= i < |a.runs| && a.runs[i].owner.None? ==>
          b.runs[i].owner == Some(legacy) || exists k :: FirstSchedule(b.schedules, a.runs[i].scheduleId, k))
  }

  predicate FirstSchedule(schedules: seq<ScheduleRow>, id: string, k: int) {
    0 <= k < |schedules| && schedules[k].scheduleId == id && forall i :: 0 <= i < k ==> schedules[i].scheduleId != id
  }

  lemma {:induction false} ScheduleOwnerIs(schedules: seq<ScheduleRow>, id: string)
    ensures forall k :: FirstSchedule(schedules, id, k) ==> ScheduleOwner(schedules, id) == schedules[k].owner
    ensures ScheduleOwner(schedules, id).None? || exists k :: FirstSchedule(schedules, id, k)
  {
    if schedules != [] && schedules[0].scheduleId == id {
      assert FirstSchedule(schedules, id, 0);
    } else if schedules != [] {
      var rest := schedules[1..];
      ScheduleOwnerIs(rest, id);
      forall k | FirstSchedule(schedules, id, k)
        ensures FirstSchedule(rest, id, k - 1)
      {
        assert forall i :: 0 <= i < k - 1 ==> rest[i] == schedules[i + 1];
      }
      if k :| FirstSchedule(rest, id, k) {
        assert forall i :: 0 <= i < k + 1 ==> schedules[i].scheduleId != id;
        assert FirstSchedule(schedules, id, k + 1);
      }
    }
  }

  lemma UnownedRowsAreFilled(engine: Engine, t: Tables, staged: seq<Staged>, legacy: string)
    requires ExecAll(engine, t, Script(staged, legacy)).Ok?
    ensures Filled(engine, t, ExecAll(engine, t, Script(staged, legacy)).value, legacy)
  {
    var renames := StageIn(staged) + StageOut(staged);
    ExecConcat(engine, t, renames, [FillNull(legacy)]);
    ExecKeepsRows(engine, t, Script(staged, legacy));
    var mid := ExecAll(engine, t, renames).value;
    RenamesFillNothing(engine, t, renames);
    assert [FillNull(legacy)][1..] == [];
    assert ExecAll(engine, mid, [FillNull(legacy)]) == Exec(engine, mid, FillNull(legacy));
    FillFills(engine, t, mid, legacy);
  }

  lemma FillFills(engine: Engine, t: Tables, mid: Tables, legacy: string)
    requires StaysUnowned(engine, t, mid) && Exec(engine, mid, FillNull(legacy)).Ok?
    requires SameRows(t, Exec(engine, mid, FillNull(legacy)).value)
    ensures Filled(engine, t, Exec(engine, mid, FillNull(legacy)).value, legacy)
  {
    var b := Exec(engine, mid, FillNull(legacy)).value;
    forall i | 0 <= i < |t.runs|
      ensures forall k :: FirstSchedule(b.schedules, t.runs[i].scheduleId, k) ==>
                ScheduleOwner(b.schedules, t.runs[i].scheduleId) == b.schedules[k].owner
      ensures ScheduleOwner(b.schedules, t.runs[i].scheduleId).None? ||
              exists k :: FirstSchedule(b.schedules, t.runs[i].scheduleId, k)
    {
      ScheduleOwnerIs(b.schedules, t.runs[i].scheduleId);
    }
  }

  // ---- An owner that is a staging name ----

  const TAKEN := "ccremote_profile_migration_2_0"

  lemma FirstStagingName(a: string, b: string)
    requires a != b && TAKEN !in {a, b}
    ensures IsProfileId(TAKEN) && StagedOf(Codex, 2, [(a, b)]) == [Staged(a, TAKEN, b)]
  {
    assert Decimal(2) == "2" && Decimal(0) == "0";
    assert StagingBase(Codex, 2, 0) == TAKEN;
    var pairs := [(a, b)];
    assert Mentioned(pairs) == {a, b} by { assert pairs[0] == (a, b) && pairs[0] in pairs; }
    assert pairs[1..] == [];
    assert StagePairs(Codex, 2, pairs[1..], 1, {a, b} + {TAKEN}) == [];
  }

  lemma {:induction false} NoSessionsNoClash(engine: Engine, t: Tables, script: seq<Statement>)
    requires t.sessions == []
    ensures ExecAll(engine, t, script).Ok?
    decreases |script|
  {
    if script != [] {
      NoSessionsNoClash(engine, Exec(engine, t, script[0]).value, script[1..]);
    }
  }

  /** One account renamed beside another that stays: the rename map has this one pair. */
  lemma OneRename(a: string, b: string, kept: string)
    requires a != b && kept !in {a, b}
    ensures var previous, current := [Profile(a, "h1"), Profile(kept, "h2")], [Profile(b, "h1"), Profile(kept, "h2")];
            WellFormed(previous) && WellFormed(current) && KeepsAccounts(previous, current, RemapsOf(previous, current))
            && RemapsOf(previous, current) == map[a := b]
  {
    var previous, current := [Profile(a, "h1"), Profile(kept, "h2")], [Profile(b, "h1"), Profile(kept, "h2")];
    RemapsPermute(previous, current);
    var r := RemapsOf(previous, current);
    assert previous[0] in previous && previous[1] in previous && current[0] in current && current[1] in current;
    assert Renamed(r, a) == b && Renamed(r, kept) == kept;
    forall x | x in r ensures x == a {
      assert x in Ids(previous);
    }
  }

  /** The topology file of `previous` hands this transition out for a registry of `current`. */
  lemma OneRenameIsHandedOut(a: string, b: string, kept: string, legacyHome: string)
    requires a != b && kept !in {a, b} && IsProfileId(a) && IsProfileId(b) && IsProfileId(kept)
    ensures var previous, current := [Profile(a, "h1"), Profile(kept, "h2")], [Profile(b, "h1"), Profile(kept, "h2")];
            var stored, r := Stored(CODEX_TOPOLOGY_VERSION, 1, previous, Some(kept)), Registry(current, kept);
            && ValidStored(Codex, stored) && r.Valid()
            && TransitionOf(Codex, Some(stored), r, legacyHome)
               == Ok(Some(Transition(2, previous, Some(kept), current, kept, map[a := b])))
  {
    var previous, current := [Profile(a, "h1"), Profile(kept, "h2")], [Profile(b, "h1"), Profile(kept, "h2")];
    OneRename(a, b, kept);
    assert previous[0] != current[0];
    assert previous[1] in previous && current[1] in current;
  }

  /**
   A Codex account may bear a staging name. It is configured before and after and keeps its id, the topology file
   hands out a transition at revision 2 that renames another account, and the migration succeeds: a schedule of
   the one that kept its id then belongs to the renamed one.
   */
  lemma CodexStagingMisattributes(a: string, b: string, schedule: string, legacy: string, legacyHome: string)
    requires a != b && TAKEN !in {a, b} && IsProfileId(a) && IsProfileId(b)
    ensures var previous, current := [Profile(a, "h1"), Profile(TAKEN, "h2")], [Profile(b, "h1"), Profile(TAKEN, "h2")];
            var stored, r := Stored(CODEX_TOPOLOGY_VERSION, 1, previous, Some(TAKEN)), Registry(current, TAKEN);
            && ValidStored(Codex, stored) && r.Valid()
            && TransitionOf(Codex, Some(stored), r, legacyHome)
               == Ok(Some(Transition(2, previous, Some(TAKEN), current, TAKEN, PairsMap([(a, b)]))))
            && Renamed(PairsMap([(a, b)]), TAKEN) == TAKEN
    ensures var t := Tables([], [ScheduleRow(schedule, Some(TAKEN), None, None)], []);
            var after := ExecAll(Codex, t, Script(StagedOf(Codex, 2, [(a, b)]), legacy));
            after.Ok? && |after.value.schedules| == 1 && after.value.schedules[0].owner == Some(b)
  {
    var t, pairs := Tables([], [ScheduleRow(schedule, Some(TAKEN), None, None)], []), [(a, b)];
    var staged := StagedOf(Codex, 2, pairs);
    var script := Script(staged, legacy);
    assert pairs[1..] == [] && PairsMap(pairs) == PairsMap([])[a := b] == map[a := b];
    FirstStagingName(a, b);
    OneRenameIsHandedOut(a, b, TAKEN, legacyHome);
    StagedIsWellStaged(Codex, 2, pairs);
    NoSessionsNoClash(Codex, t, script);
    ExecKeepsRows(Codex, t, script);
    OwnedCell(Codex, t, script, OfSchedule(0));
    RunCellOfCaptured(staged, legacy, 0, 0);
    assert script[0..] == script;
  }

  // ---- Topology transitions ----

  /** With owners that are ids of the previous topology, the rename map keeps them apart. */
  lemma PreviousOwnersRenameApart(engine: Engine, tr: Transition, t: Tables)
    requires tr.Consistent()
    requires forall i :: 0 <= i < |t.sessions| && t.sessions[i].owner.Some? ==>
             t.sessions[i].owner.value in Ids(tr.previous)
    ensures RenamesApart(engine, t.sessions, tr.remaps)
  {
    RemapsPermute(tr.previous, tr.current);
  }

  /**
   A consistent Claude transition over owners that are ids of the previous topology: the staged script is
   the simultaneous substitution of its rename map, refused exactly on a clash with the legacy account.
   */
  lemma ClaudeWorkFollowsTopology(t: Tables, tr: Transition, pairs: Pairs, revision: nat, legacy: string)
    requires tr.Consistent() && KeysDistinct(pairs) && PairsMap(pairs) == tr.remaps && Unique(t.sessions)
    requires forall i :: 0 <= i < |t.sessions| && t.sessions[i].owner.Some? ==>
               t.sessions[i].owner.value in Ids(tr.previous) && IsProfileId(t.sessions[i].owner.value)
    requires forall i :: 0 <= i < |t.schedules| && t.schedules[i].owner.Some? ==>
             IsProfileId(t.schedules[i].owner.value)
    requires forall i :: 0 <= i < |t.schedules| && t.schedules[i].lastOwner.Some? ==>
             IsProfileId(t.schedules[i].lastOwner.value)
    requires forall i :: 0 <= i < |t.runs| && t.runs[i].owner.Some? ==> IsProfileId(t.runs[i].owner.value)
    ensures ExecAll(Claude, t, Script(StagedOf(Claude, revision, pairs), legacy))
         == if NullClash(Claude, t, tr.remaps, legacy) then Err(UniqueViolation)
            else Ok(Parallel(Claude, t, tr.remaps, legacy))
  {
    ClaudeStagingIsFree(t, revision, pairs);
    PreviousOwnersRenameApart(Claude, tr, t);
    StagedIsParallel(Claude, t, revision, pairs, legacy);
  }

  // ---- The registry ----

  lemma ExecNext(engine: Engine, t: Tables, script: seq<Statement>, k: nat)
    requires k < |script|
    ensures ExecAll(engine, t, script[k..])
         == match Exec(engine, t, script[k])
            case Err(e) => Err(e)
            case Ok(next) => ExecAll(engine, next, script[k + 1..])
  {
    assert script[k..][0] == script[k] && script[k..][1..] == script[k + 1..];
  }

  function StageRest(engine: Engine, revision: nat, pairs: Pairs, index: nat, occupied: set<string>): seq<Staged>
    requires index < |pairs|
  {
    StagePairs(engine, revision, pairs[index + 1..], index + 1, occupied)
  }

  lemma StageNext(engine: Engine, revision: nat, pairs: Pairs, index: nat, occupied: set<string>)
    requires index < |pairs|
    ensures pairs[index].0 == pairs[index].1 ==>
              StagePairs(engine, revision, pairs[index..], index, occupied) ==
              StageRest(engine, revision, pairs, index, occupied)
    ensures pairs[index].0 != pairs[index].1 ==>
              var name := FreshName(StagingBase(engine, revision, index), occupied);
              StagePairs(engine, revision, pairs[index..], index, occupied) ==
              [Staged(pairs[index].0, name, pairs[index].1)] +
              StageRest(engine, revision, pairs, index, occupied + {name})
  {
    assert pairs[index..][0] == pairs[index] && pairs[index..][1..] == pairs[index + 1..];
  }

  method TakeName(base: string, occupied: set<string>) returns (temporary: string)
    ensures temporary == FreshName(base, occupied)
  {
    temporary := base;
    while temporary in occupied
      invariant FreshName(temporary, occupied) == FreshName(base, occupied)
      decreases AtLeast(occupied, |temporary|)
    {
      assert temporary in AtLeast(occupied, |temporary|) && temporary !in AtLeast(occupied, |temporary + "_"|);
      temporary := temporary + "_";
    }
  }

  class WorkRegistry {
    const engine: Engine
    var tables: Tables
    var applied: set<nat>

    constructor (engine: Engine)
      ensures this.engine == engine && tables == Tables([], [], []) && applied == {}
    {
      this.engine := engine;
      tables, applied := Tables([], [], []), {};
    }

    /** One transaction: an error leaves the tables and the ledger as they were. */
    method MigrateProfiles(remaps: Pairs, legacy: string, revision: nat) returns (res: Result<(), WorkError>)
      requires KeysDistinct(remaps)
      modifies this
      ensures res == Err(InvalidProfile) <==>
              !IsProfileId(legacy) || exists p :: p in remaps && !(IsProfileId(p.0) && IsProfileId(p.1))
      ensures res == Err(InvalidRevision) <==> res != Err(InvalidProfile) && revision == 0
      ensures res == Err(UniqueViolation) <==>
              res != Err(InvalidProfile) && revision > 0 && revision !in old(applied) &&
              ExecAll(engine, old(tables), Script(StagedOf(engine, revision, remaps), legacy)).Err?
      ensures res.Err? || revision in old(applied) ==> tables == old(tables) && applied == old(applied)
      ensures res.Ok? && revision !in old(applied) ==>
                applied == old(applied) + {revision} &&
                ExecAll(engine, old(tables), Script(StagedOf(engine, revision, remaps), legacy)) == Ok(tables)
    {
      if !IsProfileId(legacy) || exists p :: p in remaps && !(IsProfileId(p.0) && IsProfileId(p.1)) {
        return Err(InvalidProfile);
      }
      if revision == 0 {
        return Err(InvalidRevision);
      }
      if revision in applied {
        return Ok(());
      }
      ghost var full := StagedOf(engine, revision, remaps);
      ghost var script := Script(full, legacy);
      var renamed, staged := StageIn(remaps, revision, script, full);
      if renamed.Err? {
        return Err(renamed.error);
      }
      var filled := StageOutAndFill(renamed.value, staged, legacy, script);
      if filled.Err? {
        return Err(UniqueViolation);
      }
      tables := filled.value;
      applied := applied + {revision};
      return Ok(());
    }

    /** The second loop and the last statement: from the staging names to the new ids, then no NULL owner is left. */
    method StageOutAndFill(staging: Tables, staged: seq<Staged>, legacy: string, ghost script: seq<Statement>)
      returns (res: Result<Tables, WorkError>)
      requires script == Script(staged, legacy)
      ensures res == ExecAll(engine, staging, script[|staged|..])
      ensures res.Err? ==> res.error == UniqueViolation
    {
      var current := staging;
      for i := 0 to |staged|
        invariant ExecAll(engine, current, script[|staged| + i..]) == ExecAll(engine, staging, script[|staged|..])
      {
        ExecNext(engine, current, script, |staged| + i);
        var next := Exec(engine, current, Rename(staged[i].via, staged[i].to));
        if next.Err? {
          return Err(UniqueViolation);
        }
        current := next.value;
      }
      ExecNext(engine, current, script, 2 * |staged|);
      return Exec(engine, current, FillNull(legacy));
    }

    /** The first loop: every id that changes moves to a fresh name. */
    method StageIn(remaps: Pairs, revision: nat, ghost script: seq<Statement>, ghost full: seq<Staged>)
      returns (res: Result<Tables, WorkError>, staged: seq<Staged>)
      requires full == StagedOf(engine, revision, remaps) && |full| <= |script|
      requires forall i :: 0 <= i < |full| ==> script[i] == Rename(full[i].from, full[i].via)
      ensures res.Ok? ==>
              staged == full && ExecAll(engine, res.value, script[|full|..]) == ExecAll(engine, tables, script)
      ensures res.Err? ==> res.error == UniqueViolation && ExecAll(engine, tables, script) == Err(UniqueViolation)
    {
      var current := tables;
      var occupied := Mentioned(remaps);
      staged := [];
      assert remaps[0..] == remaps && script[0..] == script;
      for index := 0 to |remaps|
        invariant |staged| <= |full| && full == staged + StagePairs(engine, revision, remaps[index..], index, occupied)
        invariant ExecAll(engine, current, script[|staged|..]) == ExecAll(engine, tables, script)
      {
        var (from, to) := remaps[index];
        StageNext(engine, revision, remaps, index, occupied);
        if from == to {
          continue;
        }
        var temporary := TakeName(StagingBase(engine, revision, index), occupied);
        occupied := occupied + {temporary};
        assert full[|staged|] == Staged(from, temporary, to);
        assert full == staged + [Staged(from, temporary, to)] +
               StagePairs(engine, revision, remaps[index + 1..], index + 1, occupied);
        ExecNext(engine, current, script, |staged|);
        var next := Exec(engine, current, Rename(from, temporary));
        if next.Err? {
          return Err(UniqueViolation), staged;
        }
        current := next.value;
        staged := staged + [Staged(from, temporary, to)];
      }
      return Ok(current), staged;
    }
  }
}
