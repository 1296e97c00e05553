/**
 Replay bookkeeping of the terminal client: per session a cursor and a wrapper generation, kept in
 least-recently-touched order, and the sessions that are rebuilt or whose replay is not printed.
 */
module TuiReplay {
  import opened Common

  const MAX_REPLAY_SESSIONS := 128

  type Sid = string

  // ---- Insertion-ordered dicts ----

  datatype Ordered<V> = Ordered(keys: seq<Sid>, values: map<Sid, V>) {
    ghost predicate Valid() {
      && (forall i, j :: 0 <= i < j < |keys| ==> keys[i] != keys[j])
      && (forall k :: k in keys <==> k in values)
    }

    /** `d[k] = v`: a new key goes to the end, a known one stays where it is. */
    function Put(k: Sid, v: V): Ordered<V> {
      Ordered(if k in values then keys else keys + [k], values[k := v])
    }

    function Pop(k: Sid): Ordered<V> {
      Ordered(Without(keys, k), values - {k})
    }

    /** `d[k] = d.pop(k)` */
    function Touch(k: Sid): Ordered<V> {
      if k in values then Ordered(Without(keys, k) + [k], values) else this
    }

    function PopAll(ks: set<Sid>): Ordered<V> {
      Ordered(Outside(keys, ks), values - ks)
    }
  }

  function Without(keys: seq<Sid>, k: Sid): seq<Sid> {
    if keys == [] then [] else (if keys[0] == k then [] else [keys[0]]) + Without(keys[1..], k)
  }

  function Outside(keys: seq<Sid>, ks: set<Sid>): seq<Sid> {
    if keys == [] then [] else (if keys[0] in ks then [] else [keys[0]]) + Outside(keys[1..], ks)
  }

  predicate Distinct(keys: seq<Sid>) {
    forall i, j :: 0 <= i < j < |keys| ==> keys[i] != keys[j]
  }

  lemma {:induction false} OutsideIs(keys: seq<Sid>, ks: set<Sid>)
    ensures forall k :: k in Outside(keys, ks) <==> k in keys && k !in ks
    ensures Distinct(keys) ==> Distinct(Outside(keys, ks))
  {
    if keys != [] {
      OutsideIs(keys[1..], ks);
      assert keys == [keys[0]] + keys[1..];
      if Distinct(keys) {
        assert keys[0] !in keys[1..];
        assert Distinct(keys[1..]);
      }
    }
  }

  lemma {:induction false} WithoutIs(keys: seq<Sid>, k: Sid)
    ensures forall x :: x in Without(keys, k) <==> x in keys && x != k
    ensures Distinct(keys) ==> Distinct(Without(keys, k))
  {
    if keys != [] {
      WithoutIs(keys[1..], k);
      assert keys == [keys[0]] + keys[1..];
      if Distinct(keys) {
        assert keys[0] !in keys[1..];
        assert Distinct(keys[1..]);
      }
    }
  }

  // ---- State ----

  datatype State = State(
    cursors: Ordered<int>, generations: Ordered<string>, wrapperGeneration: Option<string>,
    rebuilding: set<Sid>, suppressed: set<Sid>, refreshAfter: set<Sid>)

  function KeySet(keys: seq<Sid>): set<Sid> {
    set k | k in keys
  }

  /** `dict.fromkeys([*cursors, *generations])` */
  function Known(cursors: Ordered<int>, generations: Ordered<string>): seq<Sid> {
    cursors.keys + Outside(generations.keys, KeySet(cursors.keys))
  }

  function Expired(cursors: Ordered<int>, generations: Ordered<string>): set<Sid> {
    var known := Known(cursors, generations);
    if |known| <= MAX_REPLAY_SESSIONS then {} else KeySet(known[..|known| - MAX_REPLAY_SESSIONS])
  }

  /** `_touch_replay`, and the sessions that it forgets. */
  function Touch(st: State, sid: Sid): (State, set<Sid>) {
    var cursors, generations := st.cursors.Touch(sid), st.generations.Touch(sid);
    var expired := Expired(cursors, generations);
    (st.(cursors := cursors.PopAll(expired), generations := generations.PopAll(expired),
         rebuilding := st.rebuilding - expired, suppressed := st.suppressed - expired), expired)
  }

  // ---- Frames ----

  datatype Type =
    | ReplayStart(rebuild: bool, truncated: bool)
    | ReplayEnd(toSeq: Option<int>)
    | Rekey(from: Sid, to: Sid)
    | Other(narrative: bool)

  datatype Frame = Frame(kind: Type, sid: Option<Sid>, seqNo: Option<int>, generation: Option<string>)

  function CursorOf(st: State, sid: Sid): int {
    if sid in st.cursors.values then st.cursors.values[sid] else 0
  }

  predicate GenerationChanged(st: State, f: Frame) {
    f.generation.Some? && st.wrapperGeneration.Some? && st.wrapperGeneration != f.generation
  }

  /** The session's own generation changes, which starts its sequence numbers anew. */
  predicate Renumbers(st: State, f: Frame) {
    f.sid.Some? && f.generation.Some? && f.sid.value in st.generations.values &&
    st.generations.values[f.sid.value] != f.generation.value
  }

  function NoteGeneration(st: State, f: Frame): (State, set<Sid>) {
    var st1 := if f.generation.Some? then st.(wrapperGeneration := f.generation) else st;
    if f.sid.None? || f.generation.None? then (st1, {})
    else
      var sid := f.sid.value;
      var cursors := if Renumbers(st, f) then st1.cursors.Put(sid, 0) else st1.cursors;
      Touch(st1.(cursors := cursors, generations := st1.generations.Put(sid, f.generation.value)), sid)
  }

  predicate Refreshing(st: State, f: Frame, generationChanged: bool) {
    f.kind.ReplayStart? && f.sid.Some? &&
    (f.kind.rebuild || f.kind.truncated || generationChanged || f.sid.value in st.refreshAfter)
  }

  function NoteReplayStart(st: State, f: Frame, generationChanged: bool): (State, set<Sid>) {
    if !f.kind.ReplayStart? || f.sid.None? then (st, {})
    else
      var sid := f.sid.value;
      var st1 := if Refreshing(st, f, generationChanged)
                 then st.(refreshAfter := st.refreshAfter + {sid}, suppressed := st.suppressed + {sid})
                 else st.(suppressed := st.suppressed - {sid});
      if f.kind.rebuild then Touch(st1.(cursors := st1.cursors.Put(sid, 0), rebuilding := st1.rebuilding + {sid}), sid)
      else (st1.(rebuilding := st1.rebuilding - {sid}), {})
  }

  function NoteReplayEnd(st: State, f: Frame): State {
    if f.kind.ReplayEnd? && f.sid.Some? && f.kind.toSeq.Some?
       then st.(refreshAfter := st.refreshAfter - {f.sid.value}) else st
  }

  predicate Stale(st: State, f: Frame) {
    f.sid.Some? && f.seqNo.Some? && f.sid.value !in st.rebuilding && f.seqNo.value <= CursorOf(st, f.sid.value)
  }

  function Advance(st: State, f: Frame): (State, set<Sid>) {
    if f.sid.None? || f.seqNo.None? then (st, {})
    else
      var sid := f.sid.value;
      Touch(st.(cursors := st.cursors.Put(sid, Max(CursorOf(st, sid), f.seqNo.value))), sid)
  }

  /** A narrative frame of a suppressed session is not printed. */
  predicate Hidden(st: State, f: Frame) {
    f.sid.Some? && f.sid.value in st.suppressed && f.kind == Other(true)
  }

  function FinishReplay(st: State, f: Frame): (State, set<Sid>) {
    if !f.kind.ReplayEnd? || f.sid.None? then (st, {})
    else
      var sid := f.sid.value;
      var (st1, dropped) := if f.kind.toSeq.None? then (st, {})
                            else Touch(st.(cursors :=
                                           st.cursors.Put(sid, Max(CursorOf(st, sid), f.kind.toSeq.value))), sid);
      (st1.(rebuilding := st1.rebuilding - {sid}, suppressed := st1.suppressed - {sid}), dropped)
  }

  function Moved(s: set<Sid>, from: Sid, to: Sid): set<Sid> {
    if from in s then s - {from} + {to} else s
  }

  /** The state that `session_rekey` leaves before it touches the new id. */
  function RekeyMoved(st: State, from: Sid, to: Sid): State {
    var carries := from in st.cursors.values &&
        (to !in st.cursors.values || st.cursors.values[from] >= st.cursors.values[to]);
    var cursors := if carries then st.cursors.Put(to, st.cursors.values[from]) else st.cursors;
    var generations := if carries && from in st.generations.values
        then st.generations.Put(to, st.generations.values[from]) else st.generations;
    st.(cursors := cursors.Pop(from), generations := generations.Pop(from),
        rebuilding := Moved(st.rebuilding, from, to), suppressed := Moved(st.suppressed, from, to),
        refreshAfter := Moved(st.refreshAfter, from, to))
  }

  function RekeyState(st: State, from: Sid, to: Sid): (State, set<Sid>) {
    Touch(RekeyMoved(st, from, to), to)
  }

  /** What `_handle` does to the state, what it forgets, and whether it gets as far as printing. */
  datatype Effect = Effect(state: State, dropped: set<Sid>, shown: bool)

  function Handle(st: State, f: Frame): Effect {
    var (st1, d1) := NoteGeneration(st, f);
    var (st2, d2) := NoteReplayStart(st1, f, GenerationChanged(st, f));
    var st3 := NoteReplayEnd(st2, f);
    if Stale(st3, f) then Effect(st3, d1 + d2, false)
    else
      var (st4, d4) := Advance(st3, f);
      if Hidden(st4, f) then Effect(st4, d1 + d2 + d4, false)
      else
        var (st5, d5) := FinishReplay(st4, f);
        if f.kind.Rekey? then
          var (st6, d6) := RekeyState(st5, f.kind.from, f.kind.to);
          Effect(st6, d1 + d2 + d4 + d5 + d6, true)
        else Effect(st5, d1 + d2 + d4 + d5, true)
  }

  function HandleAll(st: State, frames: seq<Frame>): State
    decreases |frames|
  {
    if frames == [] then st else HandleAll(Handle(st, frames[0]).state, frames[1..])
  }

  const FRESH := State(Ordered([], map[]), Ordered([], map[]), None, {}, {}, {})

  // ---- Invariants ----

  ghost predicate Inv(st: State) {
    && st.cursors.Valid() && st.generations.Valid()
    && st.rebuilding <= st.suppressed && st.rebuilding <= st.cursors.values.Keys
  }

  predicate Bounded(st: State) {
    |Known(st.cursors, st.generations)| <= MAX_REPLAY_SESSIONS
  }

  lemma {:induction false} OutsideConcat(a: seq<Sid>, b: seq<Sid>, ks: set<Sid>)
    ensures Outside(a + b, ks) == Outside(a, ks) + Outside(b, ks)
  {
    if a == [] {
      assert a + b == b;
    } else {
      assert (a + b)[1..] == a[1..] + b;
      OutsideConcat(a[1..], b, ks);
    }
  }

  lemma {:induction false} OutsideSwap(keys: seq<Sid>, c: set<Sid>, e: set<Sid>)
    ensures Outside(Outside(keys, c), e) == Outside(Outside(keys, e), c - e)
  {
    if keys != [] {
      OutsideSwap(keys[1..], c, e);
      OutsideFirst(keys, c);
      OutsideFirst(keys, e);
      var rest, rest' := Outside(keys[1..], c), Outside(keys[1..], e);
      if keys[0] !in c { OutsideFirst([keys[0]] + rest, e); assert ([keys[0]] + rest)[1..] == rest; }
      if keys[0] !in e { OutsideFirst([keys[0]] + rest', c - e); assert ([keys[0]] + rest')[1..] == rest'; }
    }
  }

  lemma {:induction false} OutsideFirst(keys: seq<Sid>, ks: set<Sid>)
    requires keys != []
    ensures Outside(keys, ks) == if keys[0] in ks then Outside(keys[1..], ks) else [keys[0]] + Outside(keys[1..], ks)
  {
    var rest := Outside(keys[1..], ks);
    assert [] + rest == rest;
  }

  lemma {:induction false} OutsideNone(keys: seq<Sid>, ks: set<Sid>)
    requires forall k :: k in keys ==> k !in ks
    ensures Outside(keys, ks) == keys
  {
    if keys != [] {
      OutsideNone(keys[1..], ks);
      assert keys == [keys[0]] + keys[1..];
    }
  }

  /** Removing the first `m` of distinct keys leaves the others. */
  lemma {:induction false} OutsidePrefix(keys: seq<Sid>, m: nat)
    requires m <= |keys| && Distinct(keys)
    ensures Outside(keys, KeySet(keys[..m])) == keys[m..]
  {
    assert keys == keys[..m] + keys[m..];
    OutsideConcat(keys[..m], keys[m..], KeySet(keys[..m]));
    OutsideAll(keys[..m], KeySet(keys[..m]));
    forall j | 0 <= j < |keys[m..]| ensures keys[m..][j] !in keys[..m] {
      forall i | 0 <= i < m ensures keys[..m][i] != keys[m..][j] {
        assert keys[i] != keys[m + j];
      }
    }
    OutsideNone(keys[m..], KeySet(keys[..m]));
  }

  lemma {:induction false} OutsideAll(keys: seq<Sid>, ks: set<Sid>)
    requires forall k :: k in keys ==> k in ks
    ensures Outside(keys, ks) == []
  {
    if keys != [] { OutsideAll(keys[1..], ks); }
  }

  lemma KnownDistinct(cursors: Ordered<int>, generations: Ordered<string>)
    requires cursors.Valid() && generations.Valid()
    ensures Distinct(Known(cursors, generations))
  {
    OutsideIs(generations.keys, KeySet(cursors.keys));
    var a, b := cursors.keys, Outside(generations.keys, KeySet(cursors.keys));
    forall i, j | 0 <= i < j < |a + b| ensures (a + b)[i] != (a + b)[j] {
      if i < |a| <= j {
        assert a[i] in KeySet(a) && b[j - |a|] in b;
      }
    }
  }

  lemma PutValid<V>(d: Ordered<V>, k: Sid, v: V)
    requires d.Valid()
    ensures d.Put(k, v).Valid()
  {
  }

  lemma PopValid<V>(d: Ordered<V>, k: Sid)
    requires d.Valid()
    ensures d.Pop(k).Valid()
  {
    WithoutIs(d.keys, k);
  }

  lemma TouchValid<V>(d: Ordered<V>, k: Sid)
    requires d.Valid()
    ensures d.Touch(k).Valid() && d.Touch(k).values == d.values
  {
    WithoutIs(d.keys, k);
  }

  lemma PopAllValid<V>(d: Ordered<V>, ks: set<Sid>)
    requires d.Valid()
    ensures d.PopAll(ks).Valid() && d.PopAll(ks).values == d.values - ks
  {
    OutsideIs(d.keys, ks);
  }

  /** After forgetting, at most 128 sessions are tracked. */
  lemma EvictionBounds(cursors: Ordered<int>, generations: Ordered<string>)
    requires cursors.Valid() && generations.Valid()
    ensures var expired := Expired(cursors, generations);
            |Known(cursors.PopAll(expired), generations.PopAll(expired))| <= MAX_REPLAY_SESSIONS
  {
    var expired, known := Expired(cursors, generations), Known(cursors, generations);
    var c', g' := Outside(cursors.keys, expired), Outside(generations.keys, expired);
    OutsideIs(cursors.keys, expired);
    assert KeySet(c') == KeySet(cursors.keys) - expired;
    OutsideConcat(cursors.keys, Outside(generations.keys, KeySet(cursors.keys)), expired);
    OutsideSwap(generations.keys, KeySet(cursors.keys), expired);
    assert Known(cursors.PopAll(expired), generations.PopAll(expired)) == Outside(known, expired);
    KnownDistinct(cursors, generations);
    if |known| > MAX_REPLAY_SESSIONS {
      OutsidePrefix(known, |known| - MAX_REPLAY_SESSIONS);
    } else {
      OutsideNone(known, expired);
    }
  }

  /** Touching keeps everything except what it forgets, and leaves at most 128 sessions. */
  lemma TouchFacts(st: State, sid: Sid)
    requires st.cursors.Valid() && st.generations.Valid()
    ensures var (st', dropped) := Touch(st, sid);
            && st'.cursors.Valid() && st'.generations.Valid() && Bounded(st')
            && st'.cursors.values == st.cursors.values - dropped
            && st'.generations.values == st.generations.values - dropped
            && st'.rebuilding == st.rebuilding - dropped && st'.suppressed == st.suppressed - dropped
    ensures Inv(st) ==> Inv(Touch(st, sid).0)
  {
    TouchValid(st.cursors, sid);
    TouchValid(st.generations, sid);
    var cursors, generations := st.cursors.Touch(sid), st.generations.Touch(sid);
    PopAllValid(cursors, Expired(cursors, generations));
    PopAllValid(generations, Expired(cursors, generations));
    EvictionBounds(cursors, generations);
  }

  lemma GenerationStep(st: State, f: Frame)
    requires Inv(st)
    ensures var (st', dropped) := NoteGeneration(st, f);
            && Inv(st') && (Bounded(st) ==> Bounded(st'))
            && (forall k :: k in st.cursors.values && k !in dropped && !(Renumbers(st, f) && f.sid == Some(k)) ==>
                  k in st'.cursors.values && st'.cursors.values[k] == st.cursors.values[k])
  {
    if f.sid.Some? && f.generation.Some? {
      var sid := f.sid.value;
      PutValid(st.cursors, sid, 0);
      PutValid(st.generations, sid, f.generation.value);
      var cursors := if Renumbers(st, f) then st.cursors.Put(sid, 0) else st.cursors;
      TouchFacts(st.(wrapperGeneration := f.generation, cursors := cursors,
                     generations := st.generations.Put(sid, f.generation.value)), sid);
    }
  }

  lemma StartStep(st: State, f: Frame, changed: bool)
    requires Inv(st)
    ensures var (st', dropped) := NoteReplayStart(st, f, changed);
            && Inv(st') && (Bounded(st) ==> Bounded(st'))
            && (forall k :: k in st.cursors.values && k !in dropped && !(Rebuilds(f) && f.sid == Some(k)) ==>
                  k in st'.cursors.values && st'.cursors.values[k] == st.cursors.values[k])
  {
    if f.kind.ReplayStart? && f.sid.Some? && f.kind.rebuild {
      var sid := f.sid.value;
      PutValid(st.cursors, sid, 0);
      TouchFacts(st.(refreshAfter := st.refreshAfter + {sid}, suppressed := st.suppressed + {sid},
                     cursors := st.cursors.Put(sid, 0), rebuilding := st.rebuilding + {sid}), sid);
    }
  }

  predicate Rebuilds(f: Frame) {
    f.kind.ReplayStart? && f.kind.rebuild
  }

  lemma AdvanceStep(st: State, f: Frame)
    requires Inv(st)
    ensures var (st', dropped) := Advance(st, f);
            && Inv(st') && (Bounded(st) ==> Bounded(st'))
            && (forall k :: k in st.cursors.values && k !in dropped ==>
                k in st'.cursors.values && st'.cursors.values[k] >= st.cursors.values[k])
            && (f.sid.Some? && f.seqNo.Some? && f.sid.value !in dropped ==>
                  f.sid.value in st'.cursors.values && st'.cursors.values[f.sid.value] >= f.seqNo.value)
            && st'.rebuilding == st.rebuilding - dropped && st'.suppressed == st.suppressed - dropped
  {
    if f.sid.Some? && f.seqNo.Some? {
      var sid := f.sid.value;
      PutValid(st.cursors, sid, Max(CursorOf(st, sid), f.seqNo.value));
      TouchFacts(st.(cursors := st.cursors.Put(sid, Max(CursorOf(st, sid), f.seqNo.value))), sid);
    }
  }

  lemma FinishStep(st: State, f: Frame)
    requires Inv(st)
    ensures var (st', dropped) := FinishReplay(st, f);
            && Inv(st') && (Bounded(st) ==> Bounded(st'))
            && (forall k :: k in st.cursors.values && k !in dropped ==>
                k in st'.cursors.values && st'.cursors.values[k] >= st.cursors.values[k])
  {
    if f.kind.ReplayEnd? && f.sid.Some? && f.kind.toSeq.Some? {
      var sid := f.sid.value;
      PutValid(st.cursors, sid, Max(CursorOf(st, sid), f.kind.toSeq.value));
      TouchFacts(st.(cursors := st.cursors.Put(sid, Max(CursorOf(st, sid), f.kind.toSeq.value))), sid);
    }
  }

  predicate Carries(cursors: map<Sid, int>, from: Sid, to: Sid) {
    from in cursors && (to !in cursors || cursors[from] >= cursors[to])
  }

  /** The cursor of the new id is the larger of the two; the others stay. */
  lemma RekeyCursors(cursors: Ordered<int>, from: Sid, to: Sid)
    requires cursors.Valid()
    ensures var c := (if Carries(cursors.values, from, to) then cursors.Put(to, cursors.values[from])
                      else cursors).Pop(from);
            && c.Valid() && from !in c.values
            && (forall k :: k in cursors.values && k != from ==> k in c.values && c.values[k] >= cursors.values[k])
            && (from in cursors.values && from != to ==> to in c.values)
  {
    var c := if Carries(cursors.values, from, to) then cursors.Put(to, cursors.values[from]) else cursors;
    if Carries(cursors.values, from, to) { PutValid(cursors, to, cursors.values[from]); }
    PopValid(c, from);
  }

  lemma RekeyGenerations(st: State, from: Sid, to: Sid)
    requires st.generations.Valid()
    ensures RekeyMoved(st, from, to).generations.Valid()
  {
    var carries := Carries(st.cursors.values, from, to) && from in st.generations.values;
    if carries { PutValid(st.generations, to, st.generations.values[from]); }
    PopValid(if carries then st.generations.Put(to, st.generations.values[from]) else st.generations, from);
  }

  lemma RekeyMovedFacts(st: State, from: Sid, to: Sid)
    requires Inv(st)
    ensures var st' := RekeyMoved(st, from, to);
            && st'.cursors.Valid() && st'.generations.Valid() && st'.rebuilding <= st'.suppressed
            && (from != to ==> st'.rebuilding <= st'.cursors.values.Keys)
            && (forall k :: k in st.cursors.values && k != from ==>
                k in st'.cursors.values && st'.cursors.values[k] >= st.cursors.values[k])
            && from !in st'.cursors.values
  {
    RekeyCursors(st.cursors, from, to);
    RekeyGenerations(st, from, to);
  }

  /** A rekey keeps the invariant when it changes the id. */
  lemma RekeyStep(st: State, from: Sid, to: Sid)
    requires Inv(st) && from != to
    ensures var (st', dropped) := RekeyState(st, from, to);
            && Inv(st') && Bounded(st')
            && (forall k :: k in st.cursors.values && k != from && k !in dropped ==>
                k in st'.cursors.values && st'.cursors.values[k] >= st.cursors.values[k])
  {
    RekeyMovedFacts(st, from, to);
    TouchFacts(RekeyMoved(st, from, to), to);
  }

  /** A rekey of a session to itself keeps it exactly when that session is not being rebuilt. */
  lemma RekeyToItselfExact(st: State, sid: Sid)
    requires Inv(st)
    ensures Inv(RekeyState(st, sid, sid).0) <==> sid !in st.rebuilding
  {
    RekeyMovedFacts(st, sid, sid);
    var moved := RekeyMoved(st, sid, sid);
    TouchFacts(moved, sid);
    RekeyForgets(st, sid);
    var (st', dropped) := RekeyState(st, sid, sid);
    if sid in st.rebuilding {
      assert sid in st'.rebuilding && sid !in st'.cursors.values;
    }
  }

  /** The session has neither cursor nor generation any more, so touching cannot forget it. */
  lemma RekeyForgets(st: State, sid: Sid)
    requires Inv(st)
    ensures sid !in RekeyState(st, sid, sid).1
  {
    var moved := RekeyMoved(st, sid, sid);
    RekeyMovedFacts(st, sid, sid);
    assert sid !in moved.generations.values;
    TouchValid(moved.cursors, sid);
    TouchValid(moved.generations, sid);
    var cursors, generations := moved.cursors.Touch(sid), moved.generations.Touch(sid);
    OutsideIs(generations.keys, KeySet(cursors.keys));
    assert sid !in Known(cursors, generations);
  }

  /** Every frame keeps the invariant, unless it renames a session to itself. */
  predicate Sane(f: Frame) {
    f.kind.Rekey? ==> f.kind.from != f.kind.to
  }

  lemma HandleKeepsInv(st: State, f: Frame)
    requires Inv(st) && Bounded(st) && Sane(f)
    ensures Inv(Handle(st, f).state) && Bounded(Handle(st, f).state)
  {
    GenerationStep(st, f);
    var (st1, d1) := NoteGeneration(st, f);
    StartStep(st1, f, GenerationChanged(st, f));
    var (st2, d2) := NoteReplayStart(st1, f, GenerationChanged(st, f));
    var st3 := NoteReplayEnd(st2, f);
    AdvanceStep(st3, f);
    var (st4, d4) := Advance(st3, f);
    FinishStep(st4, f);
    var (st5, d5) := FinishReplay(st4, f);
    if f.kind.Rekey? { RekeyStep(st5, f.kind.from, f.kind.to); }
  }

  /**
   In every reachable state a rebuilt session is suppressed and has a cursor, and at most 128 sessions are tracked.
   */
  lemma {:induction false} ReplayInvariant(st: State, frames: seq<Frame>)
    requires Inv(st) && Bounded(st) && forall i :: 0 <= i < |frames| ==> Sane(frames[i])
    ensures Inv(HandleAll(st, frames)) && Bounded(HandleAll(st, frames))
    decreases |frames|
  {
    if frames != [] {
      HandleKeepsInv(st, frames[0]);
      forall i | 0 <= i < |frames[1..]| ensures Sane(frames[1..][i]) {
        assert frames[1..][i] == frames[i + 1];
      }
      ReplayInvariant(Handle(st, frames[0]).state, frames[1..]);
    }
  }

  // ---- What is printed ----

  /** The cursor of `sid` starts anew with this frame, or is forgotten by it. */
  predicate Resets(st: State, f: Frame, sid: Sid) {
    || (Renumbers(st, f) && f.sid == Some(sid))
    || (Rebuilds(f) && f.sid == Some(sid))
    || (f.kind.Rekey? && f.kind.from == sid)
    || sid in Handle(st, f).dropped
  }

  /** A narrative frame of `sid` that gets through to the terminal. */
  predicate Prints(st: State, f: Frame, sid: Sid) {
    f.sid == Some(sid) && f.seqNo.Some? && f.kind == Other(true) && Handle(st, f).shown
  }

  function PrintedNumber(st: State, f: Frame, sid: Sid): Option<int> {
    if Prints(st, f, sid) then Some(f.seqNo.value) else None
  }

  /** The sequence numbers printed for `sid`, one segment between any two resets of its cursor. */
  function Printed(st: State, frames: seq<Frame>, sid: Sid, segments: seq<seq<int>>): seq<seq<int>>
    requires segments != []
    decreases |frames|
  {
    if frames == [] then segments
    else Printed(Handle(st, frames[0]).state, frames[1..], sid, NextPrinted(st, frames[0], sid, segments))
  }

  function NextPrinted(st: State, f: Frame, sid: Sid, segments: seq<seq<int>>): (next: seq<seq<int>>)
    requires segments != []
    ensures next != []
  {
    NextSegments(segments, Resets(st, f, sid), PrintedNumber(st, f, sid), sid in Handle(st, f).dropped)
  }

  /** What is printed while its own session is forgotten is a segment of its own. */
  function NextSegments(segments: seq<seq<int>>, resets: bool, x: Option<int>, own: bool): (next: seq<seq<int>>)
    requires segments != []
    ensures next != []
  {
    var open := if resets then segments + [[]] else segments;
    if x.None? then open
    else if own then segments + [[x.value], []]
    else open[|open| - 1 := open[|open| - 1] + [x.value]]
  }

  function Single(x: Option<int>): seq<int> {
    if x.None? then [] else [x.value]
  }

  function Flat(segments: seq<seq<int>>): seq<int> {
    if segments == [] then [] else Flat(segments[..|segments| - 1]) + segments[|segments| - 1]
  }

  function AllPrinted(st: State, frames: seq<Frame>, sid: Sid, before: seq<int>): seq<int>
    decreases |frames|
  {
    if frames == [] then before
    else AllPrinted(Handle(st, frames[0]).state, frames[1..], sid, before + Single(PrintedNumber(st, frames[0], sid)))
  }

  lemma {:induction false} FlatAppend(segments: seq<seq<int>>, xs: seq<int>)
    ensures Flat(segments + [xs]) == Flat(segments) + xs
  {
    assert (segments + [xs])[..|segments|] == segments;
  }

  lemma FlatExtend(segments: seq<seq<int>>, x: int)
    requires segments != []
    ensures Flat(segments[|segments| - 1 := segments[|segments| - 1] + [x]]) == Flat(segments) + [x]
  {
    var n := |segments| - 1;
    assert segments[n := segments[n] + [x]] == segments[..n] + [segments[n] + [x]];
    assert segments == segments[..n] + [segments[n]];
    FlatAppend(segments[..n], segments[n] + [x]);
    FlatAppend(segments[..n], segments[n]);
  }

  lemma NextIsFlat(segments: seq<seq<int>>, resets: bool, x: Option<int>, own: bool)
    requires segments != []
    ensures Flat(NextSegments(segments, resets, x, own)) == Flat(segments) + Single(x)
  {
    var open := if resets then segments + [[]] else segments;
    FlatAppend(segments, []);
    assert Flat(open) == Flat(segments);
    if x.Some? {
      FlatExtend(open, x.value);
      FlatAppend(segments, [x.value]);
      FlatAppend(segments + [[x.value]], []);
      assert segments + [[x.value], []] == segments + [[x.value]] + [[]];
    }
  }

  /** The segments together are everything printed, in order. */
  lemma {:induction false} SegmentsAreAllPrinted(st: State, frames: seq<Frame>, sid: Sid, segments: seq<seq<int>>)
    requires segments != []
    ensures Flat(Printed(st, frames, sid, segments)) == AllPrinted(st, frames, sid, Flat(segments))
    decreases |frames|
  {
    if frames != [] {
      NextIsPrinted(st, frames[0], sid, segments);
      SegmentsAreAllPrinted(Handle(st, frames[0]).state, frames[1..], sid, NextPrinted(st, frames[0], sid, segments));
    }
  }

  lemma NextIsPrinted(st: State, f: Frame, sid: Sid, segments: seq<seq<int>>)
    requires segments != []
    ensures Flat(NextPrinted(st, f, sid, segments)) == Flat(segments) + Single(PrintedNumber(st, f, sid))
  {
    NextIsFlat(segments, Resets(st, f, sid), PrintedNumber(st, f, sid), sid in Handle(st, f).dropped);
  }

  predicate Increasing(xs: seq<int>) {
    forall i, j :: 0 <= i < j < |xs| ==> xs[i] < xs[j]
  }

  function CursorAt(st: State, sid: Sid): Option<int> {
    if sid in st.cursors.values then Some(st.cursors.values[sid]) else None
  }

  /** No printed number is past the cursor, if there is one. */
  predicate UpTo(xs: seq<int>, cursor: Option<int>) {
    xs != [] ==> cursor.Some? && xs[|xs| - 1] <= cursor.value
  }

  /** The cursor is at least as far as everything printed in the last segment. */
  predicate Covered(st: State, sid: Sid, printed: seq<int>) {
    UpTo(printed, CursorAt(st, sid))
  }

  predicate AllIncreasing(segments: seq<seq<int>>) {
    forall i :: 0 <= i < |segments| ==> Increasing(segments[i])
  }

  lemma CursorOnlyGrows(st: State, f: Frame, sid: Sid)
    requires Inv(st) && Bounded(st) && Sane(f)
    requires sid in st.cursors.values && !Resets(st, f, sid)
    ensures var st' := Handle(st, f).state;
            sid in st'.cursors.values && st'.cursors.values[sid] >= st.cursors.values[sid]
  {
    GenerationStep(st, f);
    var (st1, d1) := NoteGeneration(st, f);
    StartStep(st1, f, GenerationChanged(st, f));
    var (st2, d2) := NoteReplayStart(st1, f, GenerationChanged(st, f));
    var st3 := NoteReplayEnd(st2, f);
    AdvanceStep(st3, f);
    var (st4, d4) := Advance(st3, f);
    FinishStep(st4, f);
    var (st5, d5) := FinishReplay(st4, f);
    if f.kind.Rekey? { RekeyStep(st5, f.kind.from, f.kind.to); }
  }

  /** What is printed is newer than the cursor, and the cursor catches up with it. */
  lemma PrintedIsNew(st: State, f: Frame, sid: Sid)
    requires Inv(st) && Bounded(st) && Prints(st, f, sid) && sid !in Handle(st, f).dropped
    ensures var st' := Handle(st, f).state; sid in st'.cursors.values && f.seqNo.value <= st'.cursors.values[sid]
    ensures sid in st.cursors.values && !Resets(st, f, sid) ==> f.seqNo.value > st.cursors.values[sid]
  {
    GenerationStep(st, f);
    var (st1, d1) := NoteGeneration(st, f);
    StartStep(st1, f, GenerationChanged(st, f));
    var (st2, d2) := NoteReplayStart(st1, f, GenerationChanged(st, f));
    var st3 := NoteReplayEnd(st2, f);
    AdvanceStep(st3, f);
    var (st4, d4) := Advance(st3, f);
    FinishStep(st4, f);
    assert sid !in st4.suppressed;
    assert sid !in st3.rebuilding;
  }

  /** What a frame that resets, prints or forgets does to the cursor of `sid`. */
  predicate Moves(before: Option<int>, after: Option<int>, resets: bool, x: Option<int>, own: bool) {
    && (before.Some? && !resets ==> after.Some? && before.value <= after.value)
    && (x.Some? && !own ==>
        after.Some? && x.value <= after.value && (!resets && before.Some? ==> before.value < x.value))
  }

  lemma PrintMoves(st: State, f: Frame, sid: Sid)
    requires Inv(st) && Bounded(st) && Sane(f)
    ensures var st' := Handle(st, f).state;
            Moves(CursorAt(st, sid), CursorAt(st', sid), Resets(st, f, sid), PrintedNumber(st, f, sid),
                  sid in Handle(st, f).dropped)
  {
    if sid in st.cursors.values && !Resets(st, f, sid) { CursorOnlyGrows(st, f, sid); }
    if Prints(st, f, sid) && sid !in Handle(st, f).dropped { PrintedIsNew(st, f, sid); }
  }

  lemma PrintStep(st: State, f: Frame, sid: Sid, segments: seq<seq<int>>)
    requires Inv(st) && Bounded(st) && Sane(f) && segments != []
    requires AllIncreasing(segments) && Covered(st, sid, segments[|segments| - 1])
    ensures var next := NextPrinted(st, f, sid, segments);
            AllIncreasing(next) && Covered(Handle(st, f).state, sid, next[|next| - 1])
  {
    PrintMoves(st, f, sid);
    SegmentsStay(st, f, sid, segments);
  }

  lemma SegmentsStay(st: State, f: Frame, sid: Sid, segments: seq<seq<int>>)
    requires segments != [] && AllIncreasing(segments) && Covered(st, sid, segments[|segments| - 1])
    requires var st' := Handle(st, f).state;
             Moves(CursorAt(st, sid), CursorAt(st', sid), Resets(st, f, sid), PrintedNumber(st, f, sid),
                   sid in Handle(st, f).dropped)
    ensures var next := NextPrinted(st, f, sid, segments);
            AllIncreasing(next) && Covered(Handle(st, f).state, sid, next[|next| - 1])
  {
    var e := Handle(st, f);
    SegmentStep(segments, Resets(st, f, sid), PrintedNumber(st, f, sid), sid in e.dropped, CursorAt(st, sid),
                CursorAt(e.state, sid));
  }

  lemma SegmentStep(segments: seq<seq<int>>, resets: bool, x: Option<int>, own: bool, before: Option<int>,
                    after: Option<int>)
    requires segments != [] && AllIncreasing(segments) && UpTo(segments[|segments| - 1], before)
    requires Moves(before, after, resets, x, own)
    ensures var next := NextSegments(segments, resets, x, own); AllIncreasing(next) && UpTo(next[|next| - 1], after)
  {
    var open := if resets then segments + [[]] else segments;
    var last := open[|open| - 1];
    if x.Some? && !own {
      AppendIncreasing(last, x.value);
      assert (last + [x.value])[|last|] == x.value;
    }
  }

  lemma AppendIncreasing(xs: seq<int>, x: int)
    requires Increasing(xs) && (xs != [] ==> xs[|xs| - 1] < x)
    ensures Increasing(xs + [x])
  {
    forall i, j | 0 <= i < j < |xs + [x]| ensures (xs + [x])[i] < (xs + [x])[j] {
      if j == |xs| && i < |xs| - 1 { assert xs[i] < xs[|xs| - 1]; }
    }
  }

  /** In each segment the printed sequence numbers of a session strictly increase: none is printed twice there. */
  lemma {:induction false} PrintedIncreases(st: State, frames: seq<Frame>, sid: Sid, segments: seq<seq<int>>)
    requires Inv(st) && Bounded(st) && forall i :: 0 <= i < |frames| ==> Sane(frames[i])
    requires segments != [] && AllIncreasing(segments) && Covered(st, sid, segments[|segments| - 1])
    ensures AllIncreasing(Printed(st, frames, sid, segments))
    decreases |frames|
  {
    if frames != [] {
      HandleKeepsInv(st, frames[0]);
      PrintStep(st, frames[0], sid, segments);
      forall i | 0 <= i < |frames[1..]| ensures Sane(frames[1..][i]) {
        assert frames[1..][i] == frames[i + 1];
      }
      PrintedIncreases(Handle(st, frames[0]).state, frames[1..], sid, NextPrinted(st, frames[0], sid, segments));
    }
  }

  // ---- A frame that forgets its own session ----

  lemma {:induction false} DistinctSize(keys: seq<Sid>)
    requires Distinct(keys)
    ensures |KeySet(keys)| == |keys|
  {
    if keys != [] {
      assert keys == [keys[0]] + keys[1..];
      assert forall i :: 0 <= i < |keys[1..]| ==> keys[1..][i] == keys[i + 1];
      DistinctSize(keys[1..]);
      assert KeySet(keys) == {keys[0]} + KeySet(keys[1..]);
      assert keys[0] !in KeySet(keys[1..]);
    }
  }

  lemma KnownSize(cursors: Ordered<int>, generations: Ordered<string>)
    requires cursors.Valid() && generations.Valid()
    ensures |Known(cursors, generations)| == |cursors.values.Keys + generations.values.Keys|
  {
    KnownDistinct(cursors, generations);
    DistinctSize(Known(cursors, generations));
    OutsideIs(generations.keys, KeySet(cursors.keys));
    assert KeySet(Known(cursors, generations)) == cursors.values.Keys + generations.values.Keys;
  }

  lemma {:induction false} WithoutLast(keys: seq<Sid>, k: Sid)
    requires k !in keys
    ensures Without(keys + [k], k) == keys
  {
    if keys == [] {
      assert [] + [k] == [k] && [k][1..] == [];
    } else {
      WithoutLast(keys[1..], k);
      assert (keys + [k])[1..] == keys[1..] + [k];
      assert keys == [keys[0]] + keys[1..];
    }
  }

  /** No cursor at all, and the table is full of other sessions of which only a generation is known. */
  predicate Full(st: State, sid: Sid) {
    st.cursors.keys == [] && |st.generations.keys| == MAX_REPLAY_SESSIONS && sid !in st.generations.values
  }

  /** Touching changes the order only; nothing is forgotten while at most 128 sessions are known. */
  lemma TouchSize(cursors: Ordered<int>, generations: Ordered<string>, sid: Sid)
    requires cursors.Valid() && generations.Valid()
    ensures var known := Known(cursors.Touch(sid), generations.Touch(sid));
            |known| == |cursors.values.Keys + generations.values.Keys|
  {
    TouchValid(cursors, sid);
    TouchValid(generations, sid);
    KnownSize(cursors.Touch(sid), generations.Touch(sid));
  }

  lemma BoundedSize(st: State)
    requires Inv(st) && Bounded(st)
    ensures |st.cursors.values.Keys + st.generations.values.Keys| <= MAX_REPLAY_SESSIONS
  {
    KnownSize(st.cursors, st.generations);
  }

  lemma KeysOfSize(generations: Ordered<string>)
    requires generations.Valid()
    ensures |generations.keys| == |generations.values.Keys|
  {
    DistinctSize(generations.keys);
    assert KeySet(generations.keys) == generations.values.Keys;
  }

  lemma NoneForgotten(cursors: Ordered<int>, generations: Ordered<string>, known: set<Sid>, sid: Sid)
    requires cursors.Valid() && generations.Valid()
    requires cursors.values.Keys + generations.values.Keys == known && |known| <= MAX_REPLAY_SESSIONS
    ensures Expired(cursors.Touch(sid), generations.Touch(sid)) == {}
  {
    TouchSize(cursors, generations, sid);
  }

  lemma KnownAgain(cursors: set<Sid>, generations: set<Sid>, sid: Sid)
    requires sid in cursors || sid in generations
    ensures cursors + {sid} + generations == cursors + generations
  {
  }

  /** A session whose cursor is moved is forgotten at once exactly then. */
  lemma AdvanceForgetsOwn(st: State, sid: Sid, n: int)
    requires Inv(st) && Bounded(st)
    ensures sid in Touch(st.(cursors := st.cursors.Put(sid, n)), sid).1 <==> Full(st, sid)
  {
    var moved := st.cursors.Put(sid, n);
    PutKeys(st.cursors, sid, n);
    BoundedSize(st);
    if sid in st.cursors.values || sid in st.generations.values {
      KnownAgain(st.cursors.values.Keys, st.generations.values.Keys, sid);
      NoneForgotten(moved, st.generations, st.cursors.values.Keys + st.generations.values.Keys, sid);
    } else {
      PutAppends(st.cursors, sid, n);
      NewGoesExact(st.cursors, st.generations, moved.Touch(sid), sid);
    }
  }

  lemma PutAppends(cursors: Ordered<int>, sid: Sid, n: int)
    requires cursors.Valid() && sid !in cursors.values
    ensures cursors.Put(sid, n).Touch(sid) == Ordered(cursors.keys + [sid], cursors.values[sid := n])
  {
    WithoutLast(cursors.keys, sid);
  }

  lemma NewGoesExact(cursors: Ordered<int>, generations: Ordered<string>, moved: Ordered<int>, sid: Sid)
    requires cursors.Valid() && generations.Valid() && moved.Valid()
    requires sid !in cursors.values && sid !in generations.values
    requires moved.keys == cursors.keys + [sid] && moved.values.Keys == cursors.values.Keys + {sid}
    requires |cursors.values.Keys + generations.values.Keys| <= MAX_REPLAY_SESSIONS
    ensures sid in Expired(moved, generations) <==> cursors.keys == [] && |generations.keys| == MAX_REPLAY_SESSIONS
  {
    KnownSize(moved, generations);
    OneMore(cursors.values.Keys, generations.values.Keys, moved.values.Keys, sid);
    if cursors.keys == [] {
      OnlyGenerations(cursors, generations);
    } else {
      assert moved.keys[0] == cursors.keys[0] != sid;
    }
    FirstGoes(moved, generations, sid);
  }

  lemma OnlyGenerations(cursors: Ordered<int>, generations: Ordered<string>)
    requires cursors.Valid() && generations.Valid() && cursors.keys == []
    ensures |cursors.values.Keys + generations.values.Keys| == |generations.keys|
  {
    KeysOfSize(generations);
    assert cursors.values.Keys == {};
    assert cursors.values.Keys + generations.values.Keys == generations.values.Keys;
  }

  lemma FirstGoes(cursors: Ordered<int>, generations: Ordered<string>, sid: Sid)
    requires cursors.keys != [] && |Known(cursors, generations)| <= MAX_REPLAY_SESSIONS + 1
    ensures sid in Expired(cursors, generations) <==>
            |Known(cursors, generations)| == MAX_REPLAY_SESSIONS + 1 && cursors.keys[0] == sid
  {
    var known := Known(cursors, generations);
    assert known[0] == cursors.keys[0];
    assert known[..1] == [known[0]];
  }

  lemma OneMore(cursors: set<Sid>, generations: set<Sid>, moved: set<Sid>, sid: Sid)
    requires moved == cursors + {sid} && sid !in cursors && sid !in generations
    ensures |moved + generations| == |cursors + generations| + 1
  {
    assert moved + generations == cursors + generations + {sid};
  }

  lemma AddToEither(cursors: set<Sid>, generations: set<Sid>, sid: Sid)
    ensures cursors + (generations + {sid}) == cursors + generations + {sid}
    ensures cursors + {sid} + (generations + {sid}) == cursors + generations + {sid}
  {
  }

  lemma NamingExpiresOthers(cursors: Ordered<int>, generations: Ordered<string>, renumbers: bool, sid: Sid,
                            generation: string)
    requires cursors.Valid() && generations.Valid() && (renumbers ==> sid in generations.values)
    requires |cursors.values.Keys + generations.values.Keys| <= MAX_REPLAY_SESSIONS
    ensures var moved, named := if renumbers then cursors.Put(sid, 0) else cursors, generations.Put(sid, generation);
            named.Valid() && sid !in Expired(moved.Touch(sid), named.Touch(sid))
  {
    var moved := if renumbers then cursors.Put(sid, 0) else cursors;
    PutKeys(cursors, sid, 0);
    PutKeys(generations, sid, generation);
    NamedKeepsOwn(moved, generations.Put(sid, generation), cursors.values.Keys, generations.values.Keys, sid);
  }

  /** A frame that names a generation never forgets its own session. */
  lemma GenerationKeepsOwn(st: State, f: Frame)
    requires Inv(st) && Bounded(st) && f.sid.Some? && f.generation.Some?
    ensures var (st', dropped) := NoteGeneration(st, f);
            f.sid.value !in dropped && f.sid.value in st'.generations.values
  {
    var sid := f.sid.value;
    var moved := if Renumbers(st, f) then st.cursors.Put(sid, 0) else st.cursors;
    var named := st.generations.Put(sid, f.generation.value);
    BoundedSize(st);
    NamingExpiresOthers(st.cursors, st.generations, Renumbers(st, f), sid, f.generation.value);
    NamedStays(named, Expired(moved.Touch(sid), named.Touch(sid)), sid);
  }

  lemma PutKeys<V>(d: Ordered<V>, k: Sid, v: V)
    requires d.Valid()
    ensures d.Put(k, v).Valid() && d.Put(k, v).values.Keys == d.values.Keys + {k}
  {
  }

  lemma NamedStays(named: Ordered<string>, expired: set<Sid>, sid: Sid)
    requires named.Valid() && sid in named.values && sid !in expired
    ensures sid in named.Touch(sid).PopAll(expired).values
  {
  }

  lemma NamedKeepsOwn(moved: Ordered<int>, named: Ordered<string>, cursors: set<Sid>, generations: set<Sid>, sid: Sid)
    requires moved.Valid() && named.Valid() && named.values.Keys == generations + {sid}
    requires moved.values.Keys == cursors || (moved.values.Keys == cursors + {sid} && sid in generations)
    requires |cursors + generations| <= MAX_REPLAY_SESSIONS
    ensures sid !in Expired(moved.Touch(sid), named.Touch(sid))
  {
    AddToEither(cursors, generations, sid);
    NamingKeepsOwn(moved, named, cursors + generations, sid);
  }

  lemma NamingKeepsOwn(cursors: Ordered<int>, generations: Ordered<string>, before: set<Sid>, sid: Sid)
    requires cursors.Valid() && generations.Valid() && |before| <= MAX_REPLAY_SESSIONS
    requires cursors.values.Keys + generations.values.Keys == before + {sid}
    requires sid in generations.values && (sid in cursors.values ==> sid in before)
    ensures sid !in Expired(cursors.Touch(sid), generations.Touch(sid))
  {
    if sid in before {
      assert before + {sid} == before;
      NoneForgotten(cursors, generations, before, sid);
    } else {
      TouchValid(cursors, sid);
      TouchValid(generations, sid);
      LastIsKept(cursors.Touch(sid), generations.Touch(sid), sid);
    }
  }

  /** A session known by its generation alone that comes last is not the one to go. */
  lemma LastIsKept(cursors: Ordered<int>, generations: Ordered<string>, sid: Sid)
    requires cursors.Valid() && generations.Valid() && sid !in cursors.values
    requires generations.keys != [] && generations.keys[|generations.keys| - 1] == sid
    ensures sid !in Expired(cursors, generations)
  {
    var known := Known(cursors, generations);
    var n := |generations.keys| - 1;
    KnownDistinct(cursors, generations);
    assert generations.keys == generations.keys[..n] + [sid];
    OutsideConcat(generations.keys[..n], [sid], KeySet(cursors.keys));
    assert Outside([sid], KeySet(cursors.keys)) == [sid] by { assert [sid][1..] == []; }
    assert known[|known| - 1] == sid;
    if |known| > MAX_REPLAY_SESSIONS {
      assert forall i :: 0 <= i < |known| - MAX_REPLAY_SESSIONS ==> known[i] != known[|known| - 1];
    }
  }

  /**
   A narrative frame that is not stale forgets its own session, and so the cursor it has just moved, exactly
   when it names no generation and the table is full of sessions that have no cursor.
   */
  lemma ForgetsOwnExact(st: State, f: Frame, sid: Sid)
    requires Inv(st) && Bounded(st)
    requires f.sid == Some(sid) && f.seqNo.Some? && f.kind == Other(true) && !Stale(NoteGeneration(st, f).0, f)
    ensures sid in Handle(st, f).dropped <==> f.generation.None? && Full(st, sid)
    ensures sid in Handle(st, f).dropped ==> Handle(st, f).shown && Full(Handle(st, f).state, sid)
  {
    var (st1, d1) := NoteGeneration(st, f);
    GenerationStep(st, f);
    if f.generation.Some? { GenerationKeepsOwn(st, f); }
    var n := Max(CursorOf(st1, sid), f.seqNo.value);
    AdvanceForgetsOwn(st1, sid, n);
    assert NoteReplayEnd(NoteReplayStart(st1, f, GenerationChanged(st, f)).0, f) == st1;
    if f.generation.None? && Full(st, sid) { FullStaysFull(st, sid, n); }
  }

  lemma FullStaysFull(st: State, sid: Sid, n: int)
    requires Inv(st) && Bounded(st) && Full(st, sid)
    ensures var (st', dropped) := Touch(st.(cursors := st.cursors.Put(sid, n)), sid);
            st'.cursors.keys == [] && st'.generations == st.generations && sid !in st'.suppressed
  {
    var moved := st.cursors.Put(sid, n);
    assert moved.keys == [sid];
    assert Without([sid], sid) == [] by { assert [sid][1..] == []; }
    assert moved.Touch(sid).keys == [sid] && st.generations.Touch(sid) == st.generations;
    FullForgets(moved.Touch(sid), st.generations, sid);
  }

  lemma FullForgets(cursors: Ordered<int>, generations: Ordered<string>, sid: Sid)
    requires cursors.keys == [sid] && sid !in generations.values && |generations.keys| == MAX_REPLAY_SESSIONS &&
             generations.Valid()
    ensures Expired(cursors, generations) == {sid}
    ensures cursors.PopAll({sid}).keys == [] && generations.PopAll({sid}) == generations
  {
    OutsideNoneOf(generations.keys, sid);
    var known := Known(cursors, generations);
    assert known == [sid] + generations.keys;
    assert known[..1] == [sid];
    PopUnknown(cursors, generations, sid);
  }

  lemma PopUnknown(cursors: Ordered<int>, generations: Ordered<string>, sid: Sid)
    requires cursors.keys == [sid] && sid !in generations.values && generations.Valid()
    ensures cursors.PopAll({sid}).keys == [] && generations.PopAll({sid}) == generations
  {
    assert Outside([sid], {sid}) == [] by { assert [sid][1..] == []; }
    OutsideNone(generations.keys, {sid});
    assert generations.values - {sid} == generations.values;
  }

  lemma OutsideNoneOf(keys: seq<Sid>, sid: Sid)
    requires sid !in keys
    ensures Outside(keys, KeySet([sid])) == keys
  {
    assert KeySet([sid]) == {sid};
    OutsideNone(keys, {sid});
  }

  /** Then the same frame is printed again, however often it arrives. */
  lemma FullTablePrintsAgain(st: State, f: Frame, sid: Sid)
    requires Inv(st) && Bounded(st) && Full(st, sid)
    requires f.sid == Some(sid) && f.seqNo.Some? && f.seqNo.value > 0 && f.kind == Other(true) && f.generation.None?
    ensures Handle(st, f).shown && Handle(Handle(st, f).state, f).shown && Full(Handle(st, f).state, sid)
  {
    FullIsNotStale(st, f, sid);
    ForgetsOwnExact(st, f, sid);
    HandleKeepsInv(st, f);
    var st' := Handle(st, f).state;
    FullIsNotStale(st', f, sid);
    ForgetsOwnExact(st', f, sid);
  }

  lemma FullIsNotStale(st: State, f: Frame, sid: Sid)
    requires Inv(st) && Full(st, sid)
    requires f.sid == Some(sid) && f.seqNo.Some? && f.seqNo.value > 0 && f.generation.None?
    ensures !Stale(NoteGeneration(st, f).0, f)
  {
    assert sid !in st.cursors.keys;
  }

  // ---- From the start ----

  lemma FreshHolds()
    ensures Inv(FRESH) && Bounded(FRESH) && forall sid :: Covered(FRESH, sid, [])
  {
  }

  /**
   After any frames a new client has received, the invariant holds and the printed narrative of every session
   increases.
   */
  lemma EveryRunIsSafe(frames: seq<Frame>, sid: Sid)
    requires forall i :: 0 <= i < |frames| ==> Sane(frames[i])
    ensures Inv(HandleAll(FRESH, frames)) && Bounded(HandleAll(FRESH, frames))
    ensures AllIncreasing(Printed(FRESH, frames, sid, [[]]))
    ensures Flat(Printed(FRESH, frames, sid, [[]])) == AllPrinted(FRESH, frames, sid, [])
  {
    FreshHolds();
    ReplayInvariant(FRESH, frames);
    PrintedIncreases(FRESH, frames, sid, [[]]);
    SegmentsAreAllPrinted(FRESH, frames, sid, [[]]);
    assert Flat([[]]) == Flat([]) + [] == [];
  }

  /** A new client that hears of one session drops nothing. */
  lemma TouchOnly(st: State, sid: Sid)
    requires st.cursors == Ordered([sid], map[sid := 0]) && st.generations == Ordered([], map[])
    ensures sid in st.rebuilding ==> sid in Touch(st, sid).0.rebuilding
  {
    var cursors := st.cursors.Touch(sid);
    assert Without([sid], sid) == [] by { assert [sid][1..] == []; }
    assert cursors.keys == [sid];
    assert |Known(cursors, st.generations.Touch(sid))| == 1;
  }

  lemma RebuildReached(sid: Sid)
    ensures var st := Handle(FRESH, Frame(ReplayStart(true, false), Some(sid), None, None)).state;
            Inv(st) && sid in st.rebuilding
  {
    var start := Frame(ReplayStart(true, false), Some(sid), None, None);
    FreshHolds();
    HandleKeepsInv(FRESH, start);
    var st := FRESH.(refreshAfter := {sid}, suppressed := {sid}, cursors := FRESH.cursors.Put(sid, 0),
                     rebuilding := {sid});
    assert [] + [sid] == [sid] && FRESH.cursors.Put(sid, 0) == Ordered([sid], map[sid := 0]);
    assert FRESH.refreshAfter + {sid} == {sid} && FRESH.suppressed + {sid} == {sid} &&
           FRESH.rebuilding + {sid} == {sid};
    TouchOnly(st, sid);
    assert NoteReplayStart(FRESH, start, false) == Touch(st, sid);
  }

  /** A rekey of a session to itself breaks it in a state that one rebuilding replay reaches. */
  lemma SelfRekeyBreaksIt(sid: Sid)
    ensures var frames := [Frame(ReplayStart(true, false), Some(sid), None, None),
                           Frame(Rekey(sid, sid), None, None, None)];
            !Inv(HandleAll(FRESH, frames))
  {
    var start, rekey := Frame(ReplayStart(true, false), Some(sid), None, None),
        Frame(Rekey(sid, sid), None, None, None);
    RebuildReached(sid);
    var st := Handle(FRESH, start).state;
    RekeyToItselfExact(st, sid);
    assert Handle(st, rekey).state == RekeyState(st, sid, sid).0;
    assert [start, rekey][1..] == [rekey] && [rekey][1..] == [];
    assert HandleAll(FRESH, [start, rekey]) == HandleAll(st, [rekey]) == HandleAll(Handle(st, rekey).state, []);
  }

  function Longer(sid: Sid, n: nat): Sid {
    sid + seq(n, _ => 'x')
  }

  /** A frame without a sequence number that names a generation. */
  function Naming(sid: Sid): Frame {
    Frame(Other(false), Some(sid), None, Some("g"))
  }

  /** One such frame for each of `n` sessions other than `sid`. */
  function Crowd(sid: Sid, n: nat): seq<Frame> {
    if n == 0 then [] else Crowd(sid, n - 1) + [Naming(Longer(sid, n))]
  }

  lemma {:induction false} HandleLast(st: State, frames: seq<Frame>, f: Frame)
    ensures HandleAll(st, frames + [f]) == Handle(HandleAll(st, frames), f).state
    decreases |frames|
  {
    if frames == [] {
      assert [] + [f] == [f] && [f][1..] == [];
      assert HandleAll(Handle(st, f).state, []) == Handle(st, f).state;
    } else {
      assert (frames + [f])[1..] == frames[1..] + [f];
      HandleLast(Handle(st, frames[0]).state, frames[1..], f);
    }
  }

  lemma NameAppends(cursors: Ordered<int>, generations: Ordered<string>, sid: Sid)
    requires cursors.Valid() && generations.Valid()
    requires cursors.keys == [] && |generations.keys| < MAX_REPLAY_SESSIONS && sid !in generations.values
    ensures var named := generations.Put(sid, "g");
            && Expired(cursors.Touch(sid), named.Touch(sid)) == {}
            && cursors.Touch(sid).PopAll({}) == cursors
            && named.Touch(sid).PopAll({}).keys == generations.keys + [sid]
  {
    var named := generations.Put(sid, "g");
    WithoutLast(generations.keys, sid);
    assert cursors.Touch(sid) == cursors && named.Touch(sid) == named;
    OutsideNone(named.keys, {});
    assert KeySet(cursors.keys) == {};
    assert Known(cursors, named) == named.keys;
    PopNone(cursors);
    PopNone(named);
  }

  lemma NamingAppends(st: State, sid: Sid)
    requires Inv(st) && st.cursors.keys == [] && |st.generations.keys| < MAX_REPLAY_SESSIONS &&
             sid !in st.generations.values
    ensures var st' := Handle(st, Naming(sid)).state;
            Inv(st') && st'.cursors.keys == [] && st'.generations.keys == st.generations.keys + [sid]
  {
    var f := Naming(sid);
    NameAppends(st.cursors, st.generations, sid);
    GenerationStep(st, f);
    assert Handle(st, f).state == NoteGeneration(st, f).0;
  }

  lemma {:induction false} CrowdFills(sid: Sid, n: nat)
    requires n <= MAX_REPLAY_SESSIONS
    ensures var st := HandleAll(FRESH, Crowd(sid, n));
            && Inv(st) && st.cursors.keys == [] && |st.generations.keys| == n
            && forall k :: k in st.generations.keys ==> |sid| < |k| <= |sid| + n
  {
    if n == 0 {
      FreshHolds();
    } else {
      CrowdFills(sid, n - 1);
      HandleLast(FRESH, Crowd(sid, n - 1), Naming(Longer(sid, n)));
      NamingAppends(HandleAll(FRESH, Crowd(sid, n - 1)), Longer(sid, n));
    }
  }

  /** A new client comes to print one frame twice: 128 other sessions fill its table first. */
  lemma PrintedTwice(f: Frame, sid: Sid)
    requires f.sid == Some(sid) && f.seqNo.Some? && f.seqNo.value > 0 && f.kind == Other(true) && f.generation.None?
    ensures var st := HandleAll(FRESH, Crowd(sid, MAX_REPLAY_SESSIONS));
            Handle(st, f).shown && Handle(Handle(st, f).state, f).shown
  {
    CrowdFills(sid, MAX_REPLAY_SESSIONS);
    var st := HandleAll(FRESH, Crowd(sid, MAX_REPLAY_SESSIONS));
    OnlyGenerations(st.cursors, st.generations);
    KnownSize(st.cursors, st.generations);
    FullTablePrintsAgain(st, f, sid);
  }

  // ---- The client ----

  lemma {:induction false} WithoutOutside(keys: seq<Sid>, ks: set<Sid>, k: Sid)
    ensures Without(Outside(keys, ks), k) == Outside(keys, ks + {k})
  {
    if keys != [] {
      WithoutOutside(keys[1..], ks, k);
      OutsideFirst(keys, ks);
      OutsideFirst(keys, ks + {k});
      if keys[0] !in ks {
        var rest := Outside(keys[1..], ks);
        assert ([keys[0]] + rest)[1..] == rest;
        if keys[0] == k { assert [] + Without(rest, k) == Without(rest, k); }
      }
    }
  }

  lemma PopOneMore<V>(d: Ordered<V>, ks: set<Sid>, k: Sid)
    ensures d.PopAll(ks).Pop(k) == d.PopAll(ks + {k})
  {
    WithoutOutside(d.keys, ks, k);
    assert d.values - ks - {k} == d.values - (ks + {k});
  }

  lemma PopNone<V>(d: Ordered<V>)
    ensures d.PopAll({}) == d
  {
    OutsideNone(d.keys, {});
    assert d.values - {} == d.values;
  }

  lemma KeySetGrows(keys: seq<Sid>, i: nat)
    requires i < |keys|
    ensures KeySet(keys[..i + 1]) == KeySet(keys[..i]) + {keys[i]}
  {
    assert keys[..i + 1] == keys[..i] + [keys[i]];
  }

  class Replay {
    var cursors: Ordered<int>
    var generations: Ordered<string>
    var wrapperGeneration: Option<string>
    var rebuilding: set<Sid>
    var suppressed: set<Sid>
    var refreshAfter: set<Sid>

    ghost function Now(): State
      reads this
    {
      State(cursors, generations, wrapperGeneration, rebuilding, suppressed, refreshAfter)
    }

    constructor ()
      ensures Now() == FRESH
    {
      cursors, generations, wrapperGeneration := Ordered([], map[]), Ordered([], map[]), None;
      rebuilding, suppressed, refreshAfter := {}, {}, {};
    }

    /** `_touch_replay` */
    method TouchReplay(sid: Sid)
      modifies this
      ensures Now() == Touch(old(Now()), sid).0
    {
      cursors := cursors.Touch(sid);
      generations := generations.Touch(sid);
      var known := Known(cursors, generations);
      if |known| > MAX_REPLAY_SESSIONS {
        Forget(known[..|known| - MAX_REPLAY_SESSIONS]);
      } else {
        PopNone(cursors);
        PopNone(generations);
      }
    }

    method Forget(known: seq<Sid>)
      modifies `cursors, `generations, `rebuilding, `suppressed
      ensures cursors == old(cursors).PopAll(KeySet(known)) && generations == old(generations).PopAll(KeySet(known))
      ensures rebuilding == old(rebuilding) - KeySet(known) && suppressed == old(suppressed) - KeySet(known)
    {
      PopNone(cursors);
      PopNone(generations);
      assert KeySet(known[..0]) == {};
      for i := 0 to |known|
        invariant cursors == old(cursors).PopAll(KeySet(known[..i])) &&
                  generations == old(generations).PopAll(KeySet(known[..i]))
        invariant rebuilding == old(rebuilding) - KeySet(known[..i]) &&
                  suppressed == old(suppressed) - KeySet(known[..i])
      {
        var expired := known[i];
        KeySetGrows(known, i);
        PopOneMore(old(cursors), KeySet(known[..i]), expired);
        PopOneMore(old(generations), KeySet(known[..i]), expired);
        cursors := cursors.Pop(expired);
        generations := generations.Pop(expired);
        rebuilding := rebuilding - {expired};
        suppressed := suppressed - {expired};
      }
      assert known[..|known|] == known;
    }

    /** The cursor, generation, rebuild and suppress part of `_handle`; whether the frame gets as far as printing. */
    method HandleFrame(f: Frame) returns (shown: bool)
      modifies this
      ensures Now() == Handle(old(Now()), f).state && shown == Handle(old(Now()), f).shown
    {
      var changed := NoteFrameGeneration(f);
      NoteFrameStart(f, changed);
      if f.kind.ReplayEnd? && f.sid.Some? && f.kind.toSeq.Some? {
        refreshAfter := refreshAfter - {f.sid.value};
      }
      var fresh_ := PassCursor(f);
      if !fresh_ {
        return false;
      }
      if f.sid.Some? && f.sid.value in suppressed && f.kind == Other(true) {
        return false;
      }
      FinishFrame(f);
      if f.kind.Rekey? {
        RekeySession(f.kind.from, f.kind.to);
      }
      return true;
    }

    /** Drops what the cursor has passed already, and moves the cursor otherwise. */
    method PassCursor(f: Frame) returns (fresh_: bool)
      modifies this
      ensures fresh_ == !Stale(old(Now()), f)
      ensures Now() == if fresh_ then Advance(old(Now()), f).0 else old(Now())
    {
      if f.sid.None? || f.seqNo.None? {
        return true;
      }
      var sid := f.sid.value;
      var cursor := if sid in cursors.values then cursors.values[sid] else 0;
      if sid !in rebuilding && f.seqNo.value <= cursor {
        return false;
      }
      cursors := cursors.Put(sid, Max(cursor, f.seqNo.value));
      TouchReplay(sid);
      return true;
    }

    method NoteFrameGeneration(f: Frame) returns (changed: bool)
      modifies this
      ensures changed == GenerationChanged(old(Now()), f) && Now() == NoteGeneration(old(Now()), f).0
    {
      changed := f.generation.Some? && wrapperGeneration.Some? && wrapperGeneration != f.generation;
      if f.generation.Some? {
        wrapperGeneration := f.generation;
      }
      if f.sid.Some? && f.generation.Some? {
        var sid := f.sid.value;
        if sid in generations.values && generations.values[sid] != f.generation.value {
          cursors := cursors.Put(sid, 0);
        }
        generations := generations.Put(sid, f.generation.value);
        TouchReplay(sid);
      }
    }

    method NoteFrameStart(f: Frame, changed: bool)
      modifies this
      ensures Now() == NoteReplayStart(old(Now()), f, changed).0
    {
      if !f.kind.ReplayStart? || f.sid.None? {
        return;
      }
      var sid := f.sid.value;
      if f.kind.rebuild || f.kind.truncated || changed || sid in refreshAfter {
        refreshAfter := refreshAfter + {sid};
        suppressed := suppressed + {sid};
      } else {
        suppressed := suppressed - {sid};
      }
      if f.kind.rebuild {
        cursors := cursors.Put(sid, 0);
        rebuilding := rebuilding + {sid};
        TouchReplay(sid);
      } else {
        rebuilding := rebuilding - {sid};
      }
    }

    method FinishFrame(f: Frame)
      modifies this
      ensures Now() == FinishReplay(old(Now()), f).0
    {
      if !f.kind.ReplayEnd? || f.sid.None? {
        return;
      }
      var sid := f.sid.value;
      if f.kind.toSeq.Some? {
        cursors := cursors.Put(sid, Max(if sid in cursors.values then cursors.values[sid] else 0, f.kind.toSeq.value));
        TouchReplay(sid);
      }
      rebuilding := rebuilding - {sid};
      suppressed := suppressed - {sid};
    }

    method RekeySession(from: Sid, to: Sid)
      modifies this
      ensures Now() == RekeyState(old(Now()), from, to).0
    {
      if from in cursors.values && (to !in cursors.values || cursors.values[from] >= cursors.values[to]) {
        cursors := cursors.Put(to, cursors.values[from]);
        if from in generations.values {
          generations := generations.Put(to, generations.values[from]);
        }
      }
      cursors := cursors.Pop(from);
      generations := generations.Pop(from);
      if from in rebuilding {
        rebuilding := rebuilding - {from} + {to};
      }
      if from in refreshAfter {
        refreshAfter := refreshAfter - {from} + {to};
      }
      if from in suppressed {
        suppressed := suppressed - {from} + {to};
      }
      assert Now() == RekeyMoved(old(Now()), from, to);
      TouchReplay(to);
    }
  }
}
