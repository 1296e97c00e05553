/**
 What the terminal client leaves out: over any frames, exactly which narrative frames of a session are hidden
 because History will replace them, and exactly which frames are dropped as old.
 */
module TuiHidden {
  import opened Common
  import opened TuiReplay

  // ---- What each part of the handler does to one session ----

  lemma GenerationSets(st: State, f: Frame)
    requires Inv(st)
    ensures var (st', dropped) := NoteGeneration(st, f);
            && st'.suppressed == st.suppressed - dropped && st'.rebuilding == st.rebuilding - dropped
            && st'.refreshAfter == st.refreshAfter
            && st'.cursors.values ==
               (if Renumbers(st, f) then st.cursors.values[f.sid.value := 0] else st.cursors.values) - dropped
            && (f.generation.Some? ==> st'.wrapperGeneration == f.generation)
  {
    if f.sid.Some? && f.generation.Some? {
      var sid := f.sid.value;
      PutValid(st.cursors, sid, 0);
      PutValid(st.generations, sid, f.generation.value);
      var cursors := if Renumbers(st, f) then st.cursors.Put(sid, 0) else st.cursors;
      var named := st.generations.Put(sid, f.generation.value);
      TouchFacts(st.(wrapperGeneration := f.generation, cursors := cursors, generations := named), sid);
    }
  }

  lemma StartSets(st: State, f: Frame, changed: bool)
    requires Inv(st) && f.kind.ReplayStart? && f.sid.Some?
    ensures var (st', dropped) := NoteReplayStart(st, f, changed);
            var sid := f.sid.value;
            var refreshes := f.kind.rebuild || f.kind.truncated || changed || sid in st.refreshAfter;
            && st'.suppressed == (if refreshes then st.suppressed + {sid} else st.suppressed - {sid}) - dropped
            && st'.rebuilding == (if f.kind.rebuild then st.rebuilding + {sid} else st.rebuilding - {sid}) - dropped
            && st'.refreshAfter == (if refreshes then st.refreshAfter + {sid} else st.refreshAfter)
            && st'.cursors.values ==
               (if f.kind.rebuild then st.cursors.values[sid := 0] else st.cursors.values) - dropped
  {
    var sid := f.sid.value;
    PutValid(st.cursors, sid, 0);
    if f.kind.rebuild {
      TouchFacts(st.(refreshAfter := st.refreshAfter + {sid}, suppressed := st.suppressed + {sid},
                     cursors := st.cursors.Put(sid, 0), rebuilding := st.rebuilding + {sid}), sid);
    }
  }

  lemma AdvanceSets(st: State, f: Frame)
    requires Inv(st)
    ensures var (st', dropped) := Advance(st, f);
            && st'.suppressed == st.suppressed - dropped && st'.rebuilding == st.rebuilding - dropped
            && st'.refreshAfter == st.refreshAfter
            && st'.cursors.values == (if f.sid.Some? && f.seqNo.Some?
                                      then st.cursors.values[f.sid.value :=
                                                             Max(CursorOf(st, f.sid.value), f.seqNo.value)]
                                      else st.cursors.values) - dropped
  {
    if f.sid.Some? && f.seqNo.Some? {
      var sid := f.sid.value;
      PutValid(st.cursors, sid, Max(CursorOf(st, sid), f.seqNo.value));
      TouchFacts(st.(cursors := st.cursors.Put(sid, Max(CursorOf(st, sid), f.seqNo.value))), sid);
    }
  }

  lemma FinishSets(st: State, f: Frame)
    requires Inv(st) && f.kind.ReplayEnd? && f.sid.Some?
    ensures var (st', dropped) := FinishReplay(st, f);
            var sid := f.sid.value;
            && st'.suppressed == st.suppressed - dropped - {sid} && st'.rebuilding == st.rebuilding - dropped - {sid}
            && st'.refreshAfter == st.refreshAfter
            && st'.cursors.values == (if f.kind.toSeq.Some?
                                      then st.cursors.values[sid := Max(CursorOf(st, sid), f.kind.toSeq.value)]
                                      else st.cursors.values) - dropped
  {
    var sid := f.sid.value;
    if f.kind.toSeq.Some? {
      PutValid(st.cursors, sid, Max(CursorOf(st, sid), f.kind.toSeq.value));
      TouchFacts(st.(cursors := st.cursors.Put(sid, Max(CursorOf(st, sid), f.kind.toSeq.value))), sid);
    }
  }

  /** A rename moves what is known of the old id to the new one, which keeps the larger cursor. */
  lemma RekeySets(st: State, from: Sid, to: Sid)
    requires Inv(st) && from != to
    ensures var (st', dropped) := RekeyState(st, from, to);
            && st'.suppressed == Moved(st.suppressed, from, to) - dropped
            && st'.rebuilding == Moved(st.rebuilding, from, to) - dropped
            && st'.refreshAfter == Moved(st.refreshAfter, from, to)
            && from !in st'.cursors.values
            && (forall k :: k != from && k != to && k !in dropped ==> CursorAt(st', k) == CursorAt(st, k))
            && (to !in dropped ==>
                CursorOf(st', to) == if from !in st.cursors.values then CursorOf(st, to)
                                     else if to !in st.cursors.values then CursorOf(st, from)
                                     else Max(CursorOf(st, from), CursorOf(st, to)))
  {
    RekeyMovedFacts(st, from, to);
    TouchFacts(RekeyMoved(st, from, to), to);
  }

  // ---- The whole handler ----

  predicate OwnStart(f: Frame, sid: Sid) {
    f.kind.ReplayStart? && f.sid == Some(sid)
  }

  predicate OwnEnd(f: Frame, sid: Sid) {
    f.kind.ReplayEnd? && f.sid == Some(sid)
  }

  /** A replay after which the session's history is fetched anew. */
  predicate StartsRefresh(st: State, f: Frame, sid: Sid) {
    && OwnStart(f, sid)
    && (f.kind.rebuild || f.kind.truncated || sid in st.refreshAfter
        || (f.generation.Some? && st.wrapperGeneration.Some? && f.generation != st.wrapperGeneration))
  }

  /** Not a rename of this session, nor one to it. */
  predicate Apart(f: Frame, sid: Sid) {
    f.kind.Rekey? ==> f.kind.from != sid && f.kind.to != sid
  }

  /** The state in which the cursor test is made, and what was forgotten before. */
  function Noted(st: State, f: Frame): (State, set<Sid>) {
    var (st1, d1) := NoteGeneration(st, f);
    var (st2, d2) := NoteReplayStart(st1, f, GenerationChanged(st, f));
    (NoteReplayEnd(st2, f), d1 + d2)
  }

  /** The frame is dropped by the cursor test. */
  predicate TooOld(st: State, f: Frame) {
    Stale(Noted(st, f).0, f)
  }

  lemma NotedFacts(st: State, f: Frame)
    requires Inv(st) && Bounded(st)
    ensures Inv(Noted(st, f).0) && Bounded(Noted(st, f).0)
  {
    GenerationStep(st, f);
    StartStep(NoteGeneration(st, f).0, f, GenerationChanged(st, f));
  }

  lemma GenerationOnly(st: State, f: Frame, sid: Sid)
    requires Inv(st) && Bounded(st)
    ensures var (st', dropped) := NoteGeneration(st, f);
            && (sid in st'.suppressed <==> sid !in dropped && sid in st.suppressed)
            && (sid in st'.rebuilding <==> sid !in dropped && sid in st.rebuilding)
            && CursorAt(st', sid) == (if sid in dropped then None
                                      else if f.sid == Some(sid) && Renumbers(st, f) then Some(0)
                                      else CursorAt(st, sid))
            && (f.sid == Some(sid) ==> sid !in dropped)
  {
    GenerationSets(st, f);
    if f.sid == Some(sid) && f.generation.Some? { GenerationKeepsOwn(st, f); }
  }

  lemma StartOnly(st: State, f: Frame, changed: bool, sid: Sid)
    requires Inv(st)
    ensures var (st', dropped) := NoteReplayStart(st, f, changed);
            var refreshes := f.kind.ReplayStart? &&
                (f.kind.rebuild || f.kind.truncated || changed || sid in st.refreshAfter);
            && (sid in st'.suppressed <==>
                sid !in dropped && if OwnStart(f, sid) then refreshes else sid in st.suppressed)
            && (sid in st'.rebuilding <==>
                sid !in dropped && if OwnStart(f, sid) then f.kind.rebuild else sid in st.rebuilding)
            && (sid in st'.refreshAfter <==> sid in st.refreshAfter || (OwnStart(f, sid) && refreshes))
            && CursorAt(st', sid) == (if sid in dropped then None
                                      else if OwnStart(f, sid) && f.kind.rebuild then Some(0)
                                      else CursorAt(st, sid))
  {
    if f.kind.ReplayStart? && f.sid.Some? { StartSets(st, f, changed); }
  }

  /** Before the cursor test only a replay start changes which sessions are hidden or rebuilt. */
  lemma NotedHidden(st: State, f: Frame, sid: Sid)
    requires Inv(st) && Bounded(st)
    ensures var (st', dropped) := Noted(st, f);
            && (sid in st'.suppressed <==>
                sid !in dropped && if OwnStart(f, sid) then StartsRefresh(st, f, sid) else sid in st.suppressed)
            && (sid in st'.rebuilding <==>
                sid !in dropped && if OwnStart(f, sid) then f.kind.rebuild else sid in st.rebuilding)
            && (sid in st'.refreshAfter <==> if OwnStart(f, sid) then StartsRefresh(st, f, sid)
                                             else sid in st.refreshAfter && !(OwnEnd(f, sid) && f.kind.toSeq.Some?))
  {
    GenerationOnly(st, f, sid);
    GenerationStep(st, f);
    StartOnly(NoteGeneration(st, f).0, f, GenerationChanged(st, f), sid);
  }

  /** Its cursor is 0 after a new generation or the start of a rebuild, and otherwise as before. */
  lemma NotedCursor(st: State, f: Frame, sid: Sid)
    requires Inv(st) && Bounded(st)
    ensures var (st', dropped) := Noted(st, f);
            CursorAt(st', sid) == if sid in dropped then None
                                  else if f.sid == Some(sid) && (Rebuilds(f) || Renumbers(st, f)) then Some(0)
                                  else CursorAt(st, sid)
  {
    GenerationOnly(st, f, sid);
    GenerationStep(st, f);
    StartOnly(NoteGeneration(st, f).0, f, GenerationChanged(st, f), sid);
  }

  lemma AdvanceOnly(st: State, f: Frame, sid: Sid)
    requires Inv(st) && Bounded(st)
    ensures var (st', dropped) := Advance(st, f);
            && (sid in st'.suppressed <==> sid !in dropped && sid in st.suppressed)
            && (sid in st'.rebuilding <==> sid !in dropped && sid in st.rebuilding)
            && (sid in st'.refreshAfter <==> sid in st.refreshAfter)
            && CursorAt(st', sid) == (if sid in dropped then None
                                      else if f.sid == Some(sid) && f.seqNo.Some?
                                              then Some(Max(CursorOf(st, sid), f.seqNo.value))
                                      else CursorAt(st, sid))
  {
    AdvanceSets(st, f);
  }

  lemma FinishOnly(st: State, f: Frame, sid: Sid)
    requires Inv(st) && Bounded(st)
    ensures var (st', dropped) := FinishReplay(st, f);
            && (sid in st'.suppressed <==> sid !in dropped && !OwnEnd(f, sid) && sid in st.suppressed)
            && (sid in st'.rebuilding <==> sid !in dropped && !OwnEnd(f, sid) && sid in st.rebuilding)
            && (sid in st'.refreshAfter <==> sid in st.refreshAfter)
            && CursorAt(st', sid) == (if sid in dropped then None
                                      else if OwnEnd(f, sid) && f.kind.toSeq.Some?
                                              then Some(Max(CursorOf(st, sid), f.kind.toSeq.value))
                                      else CursorAt(st, sid))
  {
    if f.kind.ReplayEnd? && f.sid.Some? { FinishSets(st, f); }
  }

  /** Renames of other sessions. */
  lemma RekeyOnly(st: State, from: Sid, to: Sid, sid: Sid)
    requires Inv(st) && from != to && sid != from && sid != to
    ensures var (st', dropped) := RekeyState(st, from, to);
            && (sid in st'.suppressed <==> sid !in dropped && sid in st.suppressed)
            && (sid in st'.rebuilding <==> sid !in dropped && sid in st.rebuilding)
            && (sid in st'.refreshAfter <==> sid in st.refreshAfter)
            && CursorAt(st', sid) == if sid in dropped then None else CursorAt(st, sid)
  {
    RekeySets(st, from, to);
    RekeyForgotten(st, from, to, sid);
  }

  lemma RekeyForgotten(st: State, from: Sid, to: Sid, sid: Sid)
    requires Inv(st)
    ensures sid in RekeyState(st, from, to).1 ==> sid !in RekeyState(st, from, to).0.cursors.values
  {
    RekeyMovedFacts(st, from, to);
    TouchFacts(RekeyMoved(st, from, to), to);
  }

  // ---- What a frame does to one session ----

  /**
   The numbers that the frame acknowledges for the session when it is not too old: its own, and that of a replay end.
   */
  function Counted(st: State, f: Frame, sid: Sid): seq<int> {
    if TooOld(st, f) then [] else Single(OwnNumber(f, sid)) + Single(EndNumber(f, sid))
  }

  function OwnNumber(f: Frame, sid: Sid): Option<int> {
    if f.sid == Some(sid) then f.seqNo else None
  }

  function EndNumber(f: Frame, sid: Sid): Option<int> {
    if OwnEnd(f, sid) then f.kind.toSeq else None
  }

  /** `cursor` is the highest of the numbers, or 0. */
  predicate Tops(cursor: int, numbers: seq<int>) {
    && cursor >= 0 && (cursor == 0 || cursor in numbers)
    && forall i :: 0 <= i < |numbers| ==> numbers[i] <= cursor
  }

  /** The cursor starts anew. */
  predicate Restarts(st: State, f: Frame, sid: Sid) {
    f.sid == Some(sid) && (Rebuilds(f) || Renumbers(st, f))
  }

  /** Hidden, rebuilt and to be refreshed after the frame, unless the session is forgotten with it. */
  predicate SessionAfter(st: State, f: Frame, sid: Sid, after: State, dropped: set<Sid>) {
    && (sid in after.suppressed <==>
        sid !in dropped && if OwnStart(f, sid) then StartsRefresh(st, f, sid)
                           else sid in st.suppressed && !(OwnEnd(f, sid) && !TooOld(st, f)))
    && (sid in after.rebuilding <==>
        sid !in dropped && if OwnStart(f, sid) then f.kind.rebuild
                           else sid in st.rebuilding && !(OwnEnd(f, sid) && !TooOld(st, f)))
    && (sid in after.refreshAfter <==>
        if OwnStart(f, sid) then StartsRefresh(st, f, sid)
        else sid in st.refreshAfter && !(OwnEnd(f, sid) && f.kind.toSeq.Some?))
  }

  lemma HandleSession(st: State, f: Frame, sid: Sid)
    requires Inv(st) && Bounded(st) && Sane(f) && Apart(f, sid)
    ensures SessionAfter(st, f, sid, Handle(st, f).state, Handle(st, f).dropped)
  {
    NotedFacts(st, f);
    NotedHidden(st, f, sid);
    var (st3, d3) := Noted(st, f);
    if !TooOld(st, f) {
      AdvanceStep(st3, f);
      AdvanceOnly(st3, f, sid);
      var (st4, d4) := Advance(st3, f);
      if !Hidden(st4, f) {
        FinishStep(st4, f);
        FinishOnly(st4, f, sid);
        var (st5, d5) := FinishReplay(st4, f);
        if f.kind.Rekey? { RekeyOnly(st5, f.kind.from, f.kind.to, sid); }
      }
    }
  }

  lemma TopsMore(cursor: int, numbers: seq<int>, x: Option<int>)
    requires Tops(cursor, numbers)
    ensures Tops(if x.Some? then Max(cursor, x.value) else cursor, numbers + Single(x))
  {
    var more := numbers + Single(x);
    if x.Some? {
      assert more[|numbers|] == x.value;
      if cursor != 0 && cursor >= x.value {
        var i :| 0 <= i < |numbers| && numbers[i] == cursor;
        assert more[i] == cursor;
      }
    } else {
      assert more == numbers;
    }
  }

  /** What is left of the handler once the frame has passed the cursor test. */
  function Delivered(st: State, f: Frame): (State, set<Sid>) {
    var (st4, d4) := Advance(st, f);
    if Hidden(st4, f) then (st4, d4)
    else
      var (st5, d5) := FinishReplay(st4, f);
      if f.kind.Rekey? then
        var (st6, d6) := RekeyState(st5, f.kind.from, f.kind.to);
        (st6, d4 + d5 + d6)
      else (st5, d4 + d5)
  }

  lemma DeliveredIs(st: State, f: Frame)
    ensures var (st3, d3) := Noted(st, f);
            var (st', d') := if TooOld(st, f) then (st3, {}) else Delivered(st3, f);
            Handle(st, f).state == st' && Handle(st, f).dropped == d3 + d'
  {
  }

  lemma AdvancedCursor(st: State, f: Frame, sid: Sid, numbers: seq<int>)
    requires Inv(st) && Bounded(st) && sid !in Advance(st, f).1 && Tops(CursorOf(st, sid), numbers)
    ensures Tops(CursorOf(Advance(st, f).0, sid), numbers + Single(OwnNumber(f, sid)))
  {
    AdvanceOnly(st, f, sid);
    TopsMore(CursorOf(st, sid), numbers, OwnNumber(f, sid));
  }

  lemma FinishedCursor(st: State, f: Frame, sid: Sid, numbers: seq<int>)
    requires Inv(st) && Bounded(st) && sid !in FinishReplay(st, f).1 && Tops(CursorOf(st, sid), numbers)
    ensures Tops(CursorOf(FinishReplay(st, f).0, sid), numbers + Single(EndNumber(f, sid)))
  {
    FinishOnly(st, f, sid);
    TopsMore(CursorOf(st, sid), numbers, EndNumber(f, sid));
  }

  lemma DeliveredCursor(st: State, f: Frame, sid: Sid, numbers: seq<int>)
    requires Inv(st) && Bounded(st) && Sane(f) && Apart(f, sid) && sid !in Delivered(st, f).1
    requires Tops(CursorOf(st, sid), numbers)
    ensures Tops(CursorOf(Delivered(st, f).0, sid), numbers + (Single(OwnNumber(f, sid)) + Single(EndNumber(f, sid))))
  {
    var more := numbers + Single(OwnNumber(f, sid));
    AdvancedCursor(st, f, sid, numbers);
    AdvanceStep(st, f);
    Concat(numbers, Single(OwnNumber(f, sid)), Single(EndNumber(f, sid)));
    if !Hidden(Advance(st, f).0, f) {
      FinishedCursor(Advance(st, f).0, f, sid, more);
      if f.kind.Rekey? {
        FinishStep(Advance(st, f).0, f);
        RekeyOnly(FinishReplay(Advance(st, f).0, f).0, f.kind.from, f.kind.to, sid);
      }
    }
  }

  lemma Concat(a: seq<int>, b: seq<int>, c: seq<int>)
    ensures a + b + c == a + (b + c)
    ensures c == [] ==> a + (b + c) == a + b
  {
  }

  lemma HandleCursor(st: State, f: Frame, sid: Sid, numbers: seq<int>)
    requires Inv(st) && Bounded(st) && Sane(f) && Apart(f, sid) && sid !in Handle(st, f).dropped
    requires Tops(CursorOf(st, sid), numbers)
    ensures Tops(CursorOf(Handle(st, f).state, sid),
                 (if Restarts(st, f, sid) then [] else numbers) + Counted(st, f, sid))
  {
    NotedFacts(st, f);
    NotedCursor(st, f, sid);
    DeliveredIs(st, f);
    var kept := if Restarts(st, f, sid) then [] else numbers;
    assert Tops(CursorOf(Noted(st, f).0, sid), kept);
    if TooOld(st, f) {
      assert kept + [] == kept;
    } else {
      DeliveredCursor(Noted(st, f).0, f, sid, kept);
    }
  }

  // ---- Forgotten sessions have no cursor ----

  lemma FullForgetsAgain(st: State, sid: Sid, n: int)
    requires Inv(st) && Bounded(st) && Full(st, sid)
    ensures var (st', dropped) := Touch(st.(cursors := st.cursors.Put(sid, n)), sid); sid in dropped && Full(st', sid)
  {
    AdvanceForgetsOwn(st, sid, n);
    FullStaysFull(st, sid, n);
  }

  /** A session that a frame of its own makes the client forget is forgotten by the rest of this frame, too. */
  lemma NotedForgets(st: State, f: Frame, sid: Sid)
    requires Inv(st) && Bounded(st) && sid in Noted(st, f).1
    ensures sid !in Noted(st, f).0.cursors.values && (f.sid == Some(sid) ==> Full(Noted(st, f).0, sid))
  {
    NotedCursor(st, f, sid);
    GenerationOnly(st, f, sid);
    GenerationStep(st, f);
    var (st1, d1) := NoteGeneration(st, f);
    if f.sid == Some(sid) {
      AdvanceForgetsOwn(st1, sid, 0);
      FullStaysFullIn(st1, f, sid, GenerationChanged(st, f));
    }
  }

  lemma FullStaysFullIn(st: State, f: Frame, sid: Sid, changed: bool)
    requires Inv(st) && Bounded(st) && f.sid == Some(sid) && sid in NoteReplayStart(st, f, changed).1
    ensures Full(NoteReplayStart(st, f, changed).0, sid)
  {
    var raised := st.(refreshAfter := st.refreshAfter + {sid}, suppressed := st.suppressed + {sid},
                      rebuilding := st.rebuilding + {sid});
    assert NoteReplayStart(st, f, changed) == Touch(raised.(cursors := st.cursors.Put(sid, 0)), sid);
    assert Expired(st.cursors.Put(sid, 0).Touch(sid), st.generations.Touch(sid)) ==
           Touch(st.(cursors := st.cursors.Put(sid, 0)), sid).1;
    AdvanceForgetsOwn(st, sid, 0);
    FullStaysFull(st, sid, 0);
  }

  /** Without a cursor, and for a frame of its own in no position to get one. */
  predicate Gone(st: State, f: Frame, sid: Sid) {
    sid !in st.cursors.values && (f.sid == Some(sid) ==> Full(st, sid))
  }

  lemma AdvanceForgets(st: State, f: Frame, sid: Sid)
    requires Inv(st) && Bounded(st) && (sid in Advance(st, f).1 || Gone(st, f, sid))
    ensures Gone(Advance(st, f).0, f, sid)
  {
    AdvanceOnly(st, f, sid);
    if f.sid == Some(sid) && f.seqNo.Some? {
      AdvanceForgetsOwn(st, sid, Max(CursorOf(st, sid), f.seqNo.value));
      FullForgetsAgain(st, sid, Max(CursorOf(st, sid), f.seqNo.value));
    }
  }

  lemma FinishForgets(st: State, f: Frame, sid: Sid)
    requires Inv(st) && Bounded(st) && (sid in FinishReplay(st, f).1 || Gone(st, f, sid))
    ensures sid !in FinishReplay(st, f).0.cursors.values
  {
    FinishOnly(st, f, sid);
    if OwnEnd(f, sid) && f.kind.toSeq.Some? {
      AdvanceForgetsOwn(st, sid, Max(CursorOf(st, sid), f.kind.toSeq.value));
    }
  }

  lemma DeliveredForgets(st: State, f: Frame, sid: Sid)
    requires Inv(st) && Bounded(st) && Sane(f) && Apart(f, sid) && (sid in Delivered(st, f).1 || Gone(st, f, sid))
    ensures sid !in Delivered(st, f).0.cursors.values
  {
    AdvanceStep(st, f);
    var (st4, d4) := Advance(st, f);
    if sid in d4 || Gone(st, f, sid) { AdvanceForgets(st, f, sid); }
    if !Hidden(st4, f) {
      FinishStep(st4, f);
      var (st5, d5) := FinishReplay(st4, f);
      if sid in d5 || Gone(st4, f, sid) { FinishForgets(st4, f, sid); }
      if f.kind.Rekey? { RekeyOnly(st5, f.kind.from, f.kind.to, sid); }
    }
  }

  lemma DroppedHasNoCursor(st: State, f: Frame, sid: Sid)
    requires Inv(st) && Bounded(st) && Sane(f) && Apart(f, sid) && sid in Handle(st, f).dropped
    ensures sid !in Handle(st, f).state.cursors.values
  {
    DeliveredIs(st, f);
    NotedFacts(st, f);
    if sid in Noted(st, f).1 { NotedForgets(st, f, sid); }
    if !TooOld(st, f) { DeliveredForgets(Noted(st, f).0, f, sid); }
  }

  // ---- Over all frames a new client has received ----

  predicate AllApart(frames: seq<Frame>, sid: Sid) {
    forall f :: f in frames ==> Sane(f) && Apart(f, sid)
  }

  /** The client after the first `i` frames. */
  function At(frames: seq<Frame>, i: nat): State
    requires i <= |frames|
  {
    HandleAll(FRESH, frames[..i])
  }

  /** The session is forgotten with frame `i`. */
  predicate ForgottenAt(frames: seq<Frame>, i: nat, sid: Sid)
    requires i < |frames|
  {
    sid in Handle(At(frames, i), frames[i]).dropped
  }

  /** A replay end for the session that is not too old comes with frame `i`. */
  predicate EndedAt(frames: seq<Frame>, i: nat, sid: Sid)
    requires i < |frames|
  {
    OwnEnd(frames[i], sid) && !TooOld(At(frames, i), frames[i])
  }

  /** Another replay of the session starts, one ends, or the session is forgotten, after frame `i`. */
  ghost predicate Untouched(frames: seq<Frame>, i: nat, sid: Sid)
    requires i <= |frames|
  {
    forall j :: i <= j < |frames| ==>
      !OwnStart(frames[j], sid) && !EndedAt(frames, j, sid) && !ForgottenAt(frames, j, sid)
  }

  /** The last replay of the session is one after which its history is fetched anew, and has not ended. */
  ghost predicate HiddenSince(frames: seq<Frame>, sid: Sid) {
    exists i :: 0 <= i < |frames| && StartsRefresh(At(frames, i), frames[i], sid) && !ForgottenAt(frames, i, sid)
      && Untouched(frames, i + 1, sid)
  }

  /** The last replay of the session rebuilds it, and has not ended. */
  ghost predicate RebuiltSince(frames: seq<Frame>, sid: Sid) {
    exists i :: 0 <= i < |frames| && OwnStart(frames[i], sid) && frames[i].kind.rebuild && !ForgottenAt(frames, i, sid)
      && Untouched(frames, i + 1, sid)
  }

  /** A replay asked for its history, and no replay end has said since how far it goes. */
  ghost predicate RefreshSince(frames: seq<Frame>, sid: Sid) {
    exists i :: 0 <= i < |frames| && StartsRefresh(At(frames, i), frames[i], sid)
      && forall j :: i < j < |frames| ==> !(OwnEnd(frames[j], sid) && frames[j].kind.toSeq.Some?)
  }

  lemma AtPrefix(frames: seq<Frame>, f: Frame, i: nat)
    requires i <= |frames|
    ensures At(frames + [f], i) == At(frames, i)
  {
    assert (frames + [f])[..i] == frames[..i];
  }

  lemma AtLast(frames: seq<Frame>, f: Frame)
    ensures At(frames + [f], |frames|) == HandleAll(FRESH, frames)
    ensures HandleAll(FRESH, frames + [f]) == Handle(HandleAll(FRESH, frames), f).state
  {
    assert (frames + [f])[..|frames|] == frames;
    HandleLast(FRESH, frames, f);
  }

  /** Untouched so far, and by the next frame. */
  lemma UntouchedNext(frames: seq<Frame>, f: Frame, i: nat, sid: Sid)
    requires i <= |frames|
    ensures Untouched(frames + [f], i, sid) <==>
            && Untouched(frames, i, sid)
            && !OwnStart(f, sid) && !EndedAt(frames + [f], |frames|, sid) && !ForgottenAt(frames + [f], |frames|, sid)
  {
    var longer := frames + [f];
    forall j | 0 <= j < |frames|
      ensures EndedAt(longer, j, sid) == EndedAt(frames, j, sid) &&
              ForgottenAt(longer, j, sid) == ForgottenAt(frames, j, sid)
      ensures longer[j] == frames[j]
    {
      AtPrefix(frames, f, j);
    }
    if Untouched(longer, i, sid) {
      assert longer[|frames|] == f;
      forall j | i <= j < |frames|
        ensures !OwnStart(frames[j], sid) && !EndedAt(frames, j, sid) && !ForgottenAt(frames, j, sid)
      {
        assert longer[j] == frames[j];
      }
    }
  }

  predicate UntouchedBy(st: State, f: Frame, sid: Sid) {
    !OwnStart(f, sid) && !(OwnEnd(f, sid) && !TooOld(st, f)) && sid !in Handle(st, f).dropped
  }

  lemma HiddenSinceNext(frames: seq<Frame>, f: Frame, sid: Sid)
    ensures var st := HandleAll(FRESH, frames);
            HiddenSince(frames + [f], sid) <==>
              (StartsRefresh(st, f, sid) && sid !in Handle(st, f).dropped) ||
              (HiddenSince(frames, sid) && UntouchedBy(st, f, sid))
  {
    var st, longer := HandleAll(FRESH, frames), frames + [f];
    AtLast(frames, f);
    assert longer[|frames|] == f;
    if HiddenSince(longer, sid) {
      var i :| 0 <= i < |longer| && StartsRefresh(At(longer, i), longer[i], sid) && !ForgottenAt(longer, i, sid)
        && Untouched(longer, i + 1, sid);
      if i < |frames| {
        AtPrefix(frames, f, i);
        assert longer[i] == frames[i];
        UntouchedNext(frames, f, i + 1, sid);
        assert HiddenSince(frames, sid);
      }
    }
    if StartsRefresh(st, f, sid) && sid !in Handle(st, f).dropped {
      assert Untouched(longer, |frames| + 1, sid);
    } else if HiddenSince(frames, sid) && UntouchedBy(st, f, sid) {
      var i :| 0 <= i < |frames| && StartsRefresh(At(frames, i), frames[i], sid) && !ForgottenAt(frames, i, sid)
        && Untouched(frames, i + 1, sid);
      AtPrefix(frames, f, i);
      assert longer[i] == frames[i];
      UntouchedNext(frames, f, i + 1, sid);
    }
  }

  lemma RebuiltSinceNext(frames: seq<Frame>, f: Frame, sid: Sid)
    ensures var st := HandleAll(FRESH, frames);
            RebuiltSince(frames + [f], sid) <==>
              (OwnStart(f, sid) && f.kind.rebuild && sid !in Handle(st, f).dropped)
              || (RebuiltSince(frames, sid) && UntouchedBy(st, f, sid))
  {
    var st, longer := HandleAll(FRESH, frames), frames + [f];
    AtLast(frames, f);
    assert longer[|frames|] == f;
    if RebuiltSince(longer, sid) {
      var i :| 0 <= i < |longer| && OwnStart(longer[i], sid) && longer[i].kind.rebuild && !ForgottenAt(longer, i, sid)
        && Untouched(longer, i + 1, sid);
      if i < |frames| {
        AtPrefix(frames, f, i);
        assert longer[i] == frames[i];
        UntouchedNext(frames, f, i + 1, sid);
        assert RebuiltSince(frames, sid);
      }
    }
    if OwnStart(f, sid) && f.kind.rebuild && sid !in Handle(st, f).dropped {
      assert Untouched(longer, |frames| + 1, sid);
    } else if RebuiltSince(frames, sid) && UntouchedBy(st, f, sid) {
      var i :| 0 <= i < |frames| && OwnStart(frames[i], sid) && frames[i].kind.rebuild && !ForgottenAt(frames, i, sid)
        && Untouched(frames, i + 1, sid);
      AtPrefix(frames, f, i);
      assert longer[i] == frames[i];
      UntouchedNext(frames, f, i + 1, sid);
    }
  }

  lemma RefreshSinceNext(frames: seq<Frame>, f: Frame, sid: Sid)
    ensures RefreshSince(frames + [f], sid) <==>
              StartsRefresh(HandleAll(FRESH, frames), f, sid) || (RefreshSince(frames, sid) && EndNumber(f, sid).None?)
  {
    var longer := frames + [f];
    AtLast(frames, f);
    assert longer[|frames|] == f;
    if RefreshSince(longer, sid) {
      var i :| 0 <= i < |longer| && StartsRefresh(At(longer, i), longer[i], sid)
        && forall j :: i < j < |longer| ==> !(OwnEnd(longer[j], sid) && longer[j].kind.toSeq.Some?);
      if i < |frames| {
        AtPrefix(frames, f, i);
        assert longer[i] == frames[i];
        forall j | i < j < |frames| ensures !(OwnEnd(frames[j], sid) && frames[j].kind.toSeq.Some?) {
          assert longer[j] == frames[j];
        }
        assert RefreshSince(frames, sid);
      }
    }
    if !StartsRefresh(HandleAll(FRESH, frames), f, sid) && RefreshSince(frames, sid) && EndNumber(f, sid).None? {
      var i :| 0 <= i < |frames| && StartsRefresh(At(frames, i), frames[i], sid)
        && forall j :: i < j < |frames| ==> !(OwnEnd(frames[j], sid) && frames[j].kind.toSeq.Some?);
      AtPrefix(frames, f, i);
      assert longer[i] == frames[i];
    }
  }

  /** The client's three sets say exactly this of every session, whatever frames it has received. */
  lemma {:induction false} SetsSinceStart(frames: seq<Frame>, sid: Sid)
    requires AllApart(frames, sid)
    ensures var st := HandleAll(FRESH, frames);
            && Inv(st) && Bounded(st)
            && (sid in st.suppressed <==> HiddenSince(frames, sid))
            && (sid in st.rebuilding <==> RebuiltSince(frames, sid))
            && (sid in st.refreshAfter <==> RefreshSince(frames, sid))
    decreases |frames|
  {
    if frames == [] {
      FreshHolds();
    } else {
      var front, f := frames[..|frames| - 1], frames[|frames| - 1];
      assert frames == front + [f] && f in frames && forall g :: g in front ==> g in frames;
      SetsSinceStart(front, sid);
      AtLast(front, f);
      HandleKeepsInv(HandleAll(FRESH, front), f);
      HandleSession(HandleAll(FRESH, front), f, sid);
      HiddenSinceNext(front, f, sid);
      RebuiltSinceNext(front, f, sid);
      RefreshSinceNext(front, f, sid);
    }
  }

  // ---- Which frames are left out ----

  /** The numbers acknowledged for the session since its cursor last started anew. */
  function Passed(frames: seq<Frame>, sid: Sid): seq<int>
    decreases |frames|
  {
    if frames == [] then []
    else
      var front, f := frames[..|frames| - 1], frames[|frames| - 1];
      var st := HandleAll(FRESH, front);
      if sid in Handle(st, f).dropped then []
      else (if Restarts(st, f, sid) then [] else Passed(front, sid)) + Counted(st, f, sid)
  }

  lemma {:induction false} CursorTopsPassed(frames: seq<Frame>, sid: Sid)
    requires AllApart(frames, sid)
    ensures Tops(CursorOf(HandleAll(FRESH, frames), sid), Passed(frames, sid))
    decreases |frames|
  {
    if frames != [] {
      var front, f := frames[..|frames| - 1], frames[|frames| - 1];
      assert frames == front + [f] && f in frames && forall g :: g in front ==> g in frames;
      var st := HandleAll(FRESH, front);
      CursorTopsPassed(front, sid);
      SetsSinceStart(front, sid);
      AtLast(front, f);
      if sid in Handle(st, f).dropped {
        DroppedHasNoCursor(st, f, sid);
      } else {
        HandleCursor(st, f, sid, Passed(front, sid));
      }
    }
  }

  lemma OwnIsTooOld(st: State, f: Frame, sid: Sid)
    requires Inv(st) && Bounded(st) && f.sid == Some(sid) && !f.kind.ReplayStart?
    ensures TooOld(st, f) <==>
            f.seqNo.Some? && sid !in st.rebuilding && f.seqNo.value <= if Renumbers(st, f) then 0 else CursorOf(st, sid)
  {
    GenerationOnly(st, f, sid);
  }

  /**
   A frame of the session is dropped as old exactly when no rebuild is under way and its number is not positive or
   not above one that was acknowledged since the cursor started anew, of frames or of replay ends.
   */
  lemma TooOldExactly(frames: seq<Frame>, f: Frame, sid: Sid)
    requires AllApart(frames, sid) && f.sid == Some(sid) && !f.kind.ReplayStart?
    ensures var st := HandleAll(FRESH, frames);
            TooOld(st, f) <==>
              && f.seqNo.Some? && !RebuiltSince(frames, sid)
              && (f.seqNo.value <= 0 ||
                  (!Renumbers(st, f) && exists i ::
                   0 <= i < |Passed(frames, sid)| && f.seqNo.value <= Passed(frames, sid)[i]))
  {
    var st, passed := HandleAll(FRESH, frames), Passed(frames, sid);
    SetsSinceStart(frames, sid);
    CursorTopsPassed(frames, sid);
    OwnIsTooOld(st, f, sid);
    var cursor := CursorOf(st, sid);
    if f.seqNo.Some? && 0 < f.seqNo.value <= cursor {
      var i :| 0 <= i < |passed| && passed[i] == cursor;
      assert f.seqNo.value <= passed[i];
    }
  }

  /**
   A narrative frame that is not too old is shown exactly unless its session is hidden, or it makes the client
   forget its own session. One that is too old is not shown.
   */
  lemma ShownExactly(frames: seq<Frame>, f: Frame, sid: Sid)
    requires AllApart(frames, sid) && f.sid == Some(sid) && f.kind == Other(true)
    ensures var st := HandleAll(FRESH, frames);
            Handle(st, f).shown <==>
              !TooOld(st, f) && (!HiddenSince(frames, sid) || (f.seqNo.Some? && f.generation.None? && Full(st, sid)))
  {
    var st := HandleAll(FRESH, frames);
    SetsSinceStart(frames, sid);
    GenerationOnly(st, f, sid);
    GenerationStep(st, f);
    var st1 := NoteGeneration(st, f).0;
    assert Noted(st, f).0 == st1;
    DeliveredIs(st, f);
    if !TooOld(st, f) {
      AdvanceOnly(st1, f, sid);
      if f.seqNo.Some? {
        ForgetsOwnExact(st, f, sid);
        AdvanceForgetsOwn(st1, sid, Max(CursorOf(st1, sid), f.seqNo.value));
      }
    }
  }

  /** So after a replay end that is not too old the next narrative frame above the cursor is shown. */
  lemma EndShowsAgain(frames: seq<Frame>, end: Frame, f: Frame, sid: Sid)
    requires AllApart(frames, sid) && OwnEnd(end, sid) && !TooOld(HandleAll(FRESH, frames), end)
    requires f.sid == Some(sid) && f.kind == Other(true) && f.seqNo.Some?
    requires f.seqNo.value > CursorOf(HandleAll(FRESH, frames + [end]), sid)
    ensures Handle(HandleAll(FRESH, frames + [end]), f).shown
  {
    var all := frames + [end];
    assert AllApart(all, sid);
    SetsSinceStart(all, sid);
    HiddenSinceNext(frames, end, sid);
    CursorTopsPassed(all, sid);
    OwnIsTooOld(HandleAll(FRESH, all), f, sid);
    ShownExactly(all, f, sid);
  }

  /** Only narrative frames are hidden: any other frame is shown unless it is too old, and without a session always. */
  lemma OthersAreShown(st: State, f: Frame)
    ensures f.kind != Other(true) ==> (Handle(st, f).shown <==> !TooOld(st, f))
    ensures f.sid.None? || f.seqNo.None? ==> !TooOld(st, f)
    ensures f.sid.None? ==> Handle(st, f).shown
  {
    DeliveredIs(st, f);
  }

  // ---- Generations ----

  function GenerationAt(st: State, sid: Sid): Option<string> {
    if sid in st.generations.values then Some(st.generations.values[sid]) else None
  }

  /** The generation that the client has for the session: of its last frame that named one, unless forgotten since. */
  function LastNamed(frames: seq<Frame>, sid: Sid): Option<string>
    decreases |frames|
  {
    if frames == [] then None
    else
      var front, f := frames[..|frames| - 1], frames[|frames| - 1];
      if sid in Handle(HandleAll(FRESH, front), f).dropped then None
      else if f.sid == Some(sid) && f.generation.Some? then f.generation
      else LastNamed(front, sid)
  }

  /** The generation that any frame has named last. */
  function LastGeneration(frames: seq<Frame>): Option<string>
    decreases |frames|
  {
    if frames == [] then None
    else if frames[|frames| - 1].generation.Some? then frames[|frames| - 1].generation
    else LastGeneration(frames[..|frames| - 1])
  }

  lemma GenerationNamed(st: State, f: Frame, sid: Sid)
    requires Inv(st) && Bounded(st)
    ensures var (st', dropped) := NoteGeneration(st, f);
            && GenerationAt(st', sid) == (if sid in dropped then None
                                          else if f.sid == Some(sid) && f.generation.Some? then f.generation
                                          else GenerationAt(st, sid))
            && st'.wrapperGeneration == if f.generation.Some? then f.generation else st.wrapperGeneration
  {
    if f.sid.Some? && f.generation.Some? {
      var own := f.sid.value;
      PutValid(st.cursors, own, 0);
      PutValid(st.generations, own, f.generation.value);
      var cursors := if Renumbers(st, f) then st.cursors.Put(own, 0) else st.cursors;
      var named := st.generations.Put(own, f.generation.value);
      TouchFacts(st.(wrapperGeneration := f.generation, cursors := cursors, generations := named), own);
    }
  }

  lemma StartGeneration(st: State, f: Frame, changed: bool, sid: Sid)
    requires Inv(st)
    ensures var (st', dropped) := NoteReplayStart(st, f, changed);
            && GenerationAt(st', sid) == (if sid in dropped then None else GenerationAt(st, sid))
            && st'.wrapperGeneration == st.wrapperGeneration
  {
    if f.kind.ReplayStart? && f.sid.Some? && f.kind.rebuild {
      var own := f.sid.value;
      PutValid(st.cursors, own, 0);
      TouchFacts(st.(refreshAfter := st.refreshAfter + {own}, suppressed := st.suppressed + {own},
                     cursors := st.cursors.Put(own, 0), rebuilding := st.rebuilding + {own}), own);
    }
  }

  lemma DeliveredGeneration(st: State, f: Frame, sid: Sid)
    requires Inv(st) && Sane(f) && Apart(f, sid)
    ensures var (st', dropped) := Delivered(st, f);
            && GenerationAt(st', sid) == (if sid in dropped then None else GenerationAt(st, sid))
            && st'.wrapperGeneration == st.wrapperGeneration
  {
    AdvanceGeneration(st, f, sid);
    AdvanceStep(st, f);
    var (st4, d4) := Advance(st, f);
    if !Hidden(st4, f) {
      FinishGeneration(st4, f, sid);
      FinishStep(st4, f);
      var (st5, d5) := FinishReplay(st4, f);
      if f.kind.Rekey? { RekeyGeneration(st5, f.kind.from, f.kind.to, sid); }
    }
  }

  lemma AdvanceGeneration(st: State, f: Frame, sid: Sid)
    requires Inv(st)
    ensures var (st', dropped) := Advance(st, f);
            && GenerationAt(st', sid) == (if sid in dropped then None else GenerationAt(st, sid))
            && st'.wrapperGeneration == st.wrapperGeneration
  {
    if f.sid.Some? && f.seqNo.Some? {
      var own := f.sid.value;
      PutValid(st.cursors, own, Max(CursorOf(st, own), f.seqNo.value));
      TouchFacts(st.(cursors := st.cursors.Put(own, Max(CursorOf(st, own), f.seqNo.value))), own);
    }
  }

  lemma FinishGeneration(st: State, f: Frame, sid: Sid)
    requires Inv(st)
    ensures var (st', dropped) := FinishReplay(st, f);
            && GenerationAt(st', sid) == (if sid in dropped then None else GenerationAt(st, sid))
            && st'.wrapperGeneration == st.wrapperGeneration
  {
    if f.kind.ReplayEnd? && f.sid.Some? && f.kind.toSeq.Some? {
      var own := f.sid.value;
      PutValid(st.cursors, own, Max(CursorOf(st, own), f.kind.toSeq.value));
      TouchFacts(st.(cursors := st.cursors.Put(own, Max(CursorOf(st, own), f.kind.toSeq.value))), own);
    }
  }

  lemma RekeyGeneration(st: State, from: Sid, to: Sid, sid: Sid)
    requires Inv(st) && from != to && sid != from && sid != to
    ensures var (st', dropped) := RekeyState(st, from, to);
            && GenerationAt(st', sid) == (if sid in dropped then None else GenerationAt(st, sid))
            && st'.wrapperGeneration == st.wrapperGeneration
  {
    RekeyMovedFacts(st, from, to);
    TouchFacts(RekeyMoved(st, from, to), to);
  }

  /** Whether a frame starts a new generation, of its session or of the wrapper, is judged by what was named last. */
  lemma {:induction false} GenerationsSinceStart(frames: seq<Frame>, sid: Sid)
    requires AllApart(frames, sid)
    ensures GenerationAt(HandleAll(FRESH, frames), sid) == LastNamed(frames, sid)
    ensures HandleAll(FRESH, frames).wrapperGeneration == LastGeneration(frames)
    decreases |frames|
  {
    if frames != [] {
      var front, f := frames[..|frames| - 1], frames[|frames| - 1];
      assert frames == front + [f] && f in frames && forall g :: g in front ==> g in frames;
      var st := HandleAll(FRESH, front);
      GenerationsSinceStart(front, sid);
      SetsSinceStart(front, sid);
      AtLast(front, f);
      HandleGeneration(st, f, sid);
    }
  }

  lemma HandleGeneration(st: State, f: Frame, sid: Sid)
    requires Inv(st) && Bounded(st) && Sane(f) && Apart(f, sid)
    ensures var e := Handle(st, f);
            && GenerationAt(e.state, sid) == (if sid in e.dropped then None
                                              else if f.sid == Some(sid) && f.generation.Some? then f.generation
                                              else GenerationAt(st, sid))
            && e.state.wrapperGeneration == if f.generation.Some? then f.generation else st.wrapperGeneration
  {
    DeliveredIs(st, f);
    GenerationNamed(st, f, sid);
    GenerationStep(st, f);
    NotedFacts(st, f);
    StartGeneration(NoteGeneration(st, f).0, f, GenerationChanged(st, f), sid);
    if !TooOld(st, f) { DeliveredGeneration(Noted(st, f).0, f, sid); }
  }

  /** The frame renumbers its session exactly when it names another generation than the last one named for it. */
  lemma RenumbersExactly(frames: seq<Frame>, f: Frame, sid: Sid)
    requires AllApart(frames, sid) && f.sid == Some(sid)
    ensures Renumbers(HandleAll(FRESH, frames), f) <==>
            f.generation.Some? && LastNamed(frames, sid).Some? && f.generation != LastNamed(frames, sid)
  {
    GenerationsSinceStart(frames, sid);
  }

  /**
   A replay start has its history fetched anew exactly if it rebuilds, is truncated, is of another wrapper generation,
   or an earlier one still waits.
   */
  lemma RefreshesExactly(frames: seq<Frame>, f: Frame, sid: Sid)
    requires AllApart(frames, sid) && OwnStart(f, sid)
    ensures StartsRefresh(HandleAll(FRESH, frames), f, sid) <==>
              || f.kind.rebuild || f.kind.truncated || RefreshSince(frames, sid)
              || (f.generation.Some? && LastGeneration(frames).Some? && f.generation != LastGeneration(frames))
  {
    SetsSinceStart(frames, sid);
    GenerationsSinceStart(frames, sid);
  }

  // ---- Renames ----

  /** The old number is at least the new one, or there is no new one: then cursor and generation go along. */
  predicate GoesAlong(st: State, from: Sid, to: Sid) {
    from in st.cursors.values && (to in st.cursors.values ==> st.cursors.values[from] >= st.cursors.values[to])
  }

  /** A rename leaves nothing under the old id; the new one is hidden, rebuilt or refreshed if either of them was. */
  lemma RenameExactly(st: State, from: Sid, to: Sid)
    requires Inv(st) && from != to
    ensures var (st', dropped) := RekeyState(st, from, to);
            && from !in st'.suppressed && from !in st'.rebuilding && from !in st'.refreshAfter
            && CursorAt(st', from).None? && GenerationAt(st', from).None?
            && (to in st'.refreshAfter <==> from in st.refreshAfter || to in st.refreshAfter)
            && (to in st'.suppressed <==> to !in dropped && (from in st.suppressed || to in st.suppressed))
            && (to in st'.rebuilding <==> to !in dropped && (from in st.rebuilding || to in st.rebuilding))
    ensures var (st', dropped) := RekeyState(st, from, to);
            to !in dropped ==>
              && CursorAt(st', to) == (if GoesAlong(st, from, to) then CursorAt(st, from) else CursorAt(st, to))
              && GenerationAt(st', to) == if GoesAlong(st, from, to) && GenerationAt(st, from).Some?
                                          then GenerationAt(st, from) else GenerationAt(st, to)
  {
    RekeyMovedFacts(st, from, to);
    TouchFacts(RekeyMoved(st, from, to), to);
  }

  /** Every rename frame is carried out, unless it is too old, after the frame itself has been counted. */
  lemma RenameIsHandled(st: State, f: Frame)
    requires f.kind.Rekey? && !TooOld(st, f)
    ensures f.sid.None? && f.generation.None? ==>
              Handle(st, f).state == RekeyState(st, f.kind.from, f.kind.to).0
    ensures Handle(st, f).state == RekeyState(Advance(Noted(st, f).0, f).0, f.kind.from, f.kind.to).0
  {
    DeliveredIs(st, f);
  }
}
