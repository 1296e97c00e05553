/**
 The durable topology of one engine: the topology file, the pending-transition marker and, for
 Codex, the owner of the unprofiled restart marker.
 */
module TopologyStore {
  import opened Common
  import opened ProfileRemaps
  import opened ProfileRegistry

  datatype Engine = Codex | Claude

  datatype StoreError =
    | ReplacesHome
    | LegacyDirMissing
    | TargetsAnotherRegistry
    | MarkerMissing
    | OwnerRevisionAhead
    | OwnerRevisionStale
    | OwnerMissedTransition

  /** The topology file. Codex files of format 1 record no default account. */
  datatype Stored = Stored(formatVersion: nat, revision: nat, profiles: seq<Profile>, defaultId: Option<string>)

  const CODEX_TOPOLOGY_VERSION := 2
  const CLAUDE_TOPOLOGY_VERSION := 1

  function FormatOf(engine: Engine): nat {
    match engine
    case Codex => CODEX_TOPOLOGY_VERSION
    case Claude => CLAUDE_TOPOLOGY_VERSION
  }

  /** What `_load` accepts. */
  predicate ValidStored(engine: Engine, s: Stored) {
    && s.revision >= 1
    && 1 <= |s.profiles| <= MAX_PROFILES
    && WellFormed(s.profiles)
    && (forall p <- s.profiles :: IsProfileId(p.id))
    && (s.defaultId.Some? ==> s.defaultId.value in Ids(s.profiles))
    && (engine.Claude? ==> s.defaultId.Some? && s.formatVersion == CLAUDE_TOPOLOGY_VERSION)
  }

  function StoredOf(engine: Engine, r: Registry, revision: nat): Stored {
    Stored(FormatOf(engine), revision, r.profiles, Some(r.defaultId))
  }

  /** The pending-transition file: `as_dict`, which leaves out the rename map. */
  datatype Marker = Marker(
    revision: nat, previous: seq<Profile>, previousDefault: Option<string>, current: seq<Profile>,
        currentDefault: string)

  function MarkerOf(t: Transition): Marker {
    Marker(t.revision, t.previous, t.previousDefault, t.current, t.currentDefault)
  }

  predicate Targets(m: Marker, r: Registry) {
    m.current == r.profiles && m.currentDefault == r.defaultId
  }

  /** The registry describes exactly the stored topology. */
  predicate Unchanged(engine: Engine, s: Stored, r: Registry) {
    match engine
    case Codex =>
      s.formatVersion == CODEX_TOPOLOGY_VERSION && s.profiles == r.profiles &&
      (s.defaultId.None? || s.defaultId == Some(r.defaultId))
    case Claude => s.profiles == r.profiles && s.defaultId == Some(r.defaultId)
  }

  /** The previous accounts, their default and the next revision. */
  function Baseline(engine: Engine, stored: Option<Stored>, r: Registry, legacyHome: string)
    : Result<(seq<Profile>, Option<string>, nat), StoreError>
  {
    match stored
    case Some(s) =>
      var default := if s.defaultId.None? && |s.profiles| == 1 then Some(s.profiles[0].id) else s.defaultId;
      Ok((s.profiles, default, s.revision + 1))
    case None =>
      match engine
      case Codex => Ok(([], None, 1))
      case Claude =>
        match OwnerOf(r.profiles, legacyHome)
        case Some(id) => Ok(([Profile(id, legacyHome)], Some(id), 1))
        case None => Err(LegacyDirMissing)
  }

  /** `transition()` */
  function TransitionOf(engine: Engine, stored: Option<Stored>, r: Registry, legacyHome: string)
    : Result<Option<Transition>, StoreError>
  {
    if stored.Some? && Unchanged(engine, stored.value, r) then Ok(None)
    else
      var (previous, default, revision) :- Baseline(engine, stored, r, legacyHome);
      var remaps := RemapsOf(previous, r.profiles);
      if !KeepsAccounts(previous, r.profiles, remaps) then Err(ReplacesHome)
      else Ok(Some(Transition(revision, previous, default, r.profiles, r.defaultId, remaps)))
  }

  function NextRevision(stored: Option<Stored>): nat {
    if stored.Some? then stored.value.revision + 1 else 1
  }

  lemma TransitionIsConsistent(engine: Engine, stored: Option<Stored>, r: Registry, legacyHome: string)
    requires r.Valid() && (stored.Some? ==> ValidStored(engine, stored.value))
    requires TransitionOf(engine, stored, r, legacyHome).Ok? && TransitionOf(engine, stored, r, legacyHome).value.Some?
    ensures var t := TransitionOf(engine, stored, r, legacyHome).value.value;
            && t.Consistent() && t.Target() == r && t.revision == NextRevision(stored)
            && (stored.Some? ==> t.previous == stored.value.profiles)
  {
    if stored.None? && engine.Claude? {
      OwnerOfCharacterized(r.profiles, legacyHome);
      var t := TransitionOf(engine, stored, r, legacyHome).value.value;
      assert t.previous == [Profile(OwnerOf(r.profiles, legacyHome).value, legacyHome)];
      assert t.previous[0] in t.previous;
    } else if stored.Some? && |stored.value.profiles| == 1 {
      assert stored.value.profiles[0] in stored.value.profiles;
    }
  }

  /**
   No transition exactly when the file describes the registry; refused exactly when a first Claude registry lacks the
   legacy directory, or an id stands for another home than before and its previous account is not moved away from it.
   */
  lemma TransitionExactly(engine: Engine, stored: Option<Stored>, r: Registry, legacyHome: string)
    requires r.Valid() && (stored.Some? ==> ValidStored(engine, stored.value))
    ensures var asked := TransitionOf(engine, stored, r, legacyHome);
            && (asked == Ok(None) <==>
                && stored.Some? && stored.value.profiles == r.profiles
                && (engine.Codex? ==> stored.value.formatVersion == 2)
                && (stored.value.defaultId == Some(r.defaultId) || (engine.Codex? && stored.value.defaultId.None?)))
            && (asked == Err(LegacyDirMissing) <==>
                stored.None? && engine.Claude? && forall p :: p in r.profiles ==> p.home != legacyHome)
            && (asked == Err(ReplacesHome) <==>
                && stored.Some?
                && exists p, q :: p in stored.value.profiles && q in r.profiles && p.id == q.id && p.home != q.home
                     && p.id !in RemapsOf(stored.value.profiles, r.profiles))
  {
    OwnerOfCharacterized(r.profiles, legacyHome);
    if stored.None? && engine.Claude? && OwnerOf(r.profiles, legacyHome).Some? {
      FirstKeepsAccounts(r, legacyHome);
    }
  }

  /** What a transition records of the previous topology, and so does the marker file. */
  lemma TransitionRecords(engine: Engine, stored: Option<Stored>, r: Registry, legacyHome: string)
    requires r.Valid() && (stored.Some? ==> ValidStored(engine, stored.value))
    requires TransitionOf(engine, stored, r, legacyHome).Ok? && TransitionOf(engine, stored, r, legacyHome).value.Some?
    ensures var t := TransitionOf(engine, stored, r, legacyHome).value.value;
            && t.current == r.profiles && t.currentDefault == r.defaultId
            && t.revision == (if stored.Some? then stored.value.revision + 1 else 1)
            && (stored.Some? ==> t.previous == stored.value.profiles)
            && (stored.Some? && stored.value.defaultId.Some? ==> t.previousDefault == stored.value.defaultId)
            && (stored.Some? && stored.value.defaultId.None? ==>
                  t.previousDefault == if |t.previous| == 1 then Some(t.previous[0].id) else None)
            && (stored.None? && engine.Codex? ==> t.previous == [] && t.previousDefault == None)
            && (stored.None? && engine.Claude? ==>
                  exists p :: p in r.profiles && p.home == legacyHome && t.previous == [p] &&
                              t.previousDefault == Some(p.id))
  {
    OwnerOfCharacterized(r.profiles, legacyHome);
    if stored.None? && engine.Claude? {
      var t := TransitionOf(engine, stored, r, legacyHome).value.value;
      var id := OwnerOf(r.profiles, legacyHome).value;
      assert Profile(id, legacyHome) in r.profiles;
      assert t.previous == [Profile(id, legacyHome)];
    }
  }

  lemma FirstKeepsAccounts(r: Registry, legacyHome: string)
    requires r.Valid() && OwnerOf(r.profiles, legacyHome).Some?
    ensures var previous := [Profile(OwnerOf(r.profiles, legacyHome).value, legacyHome)];
            KeepsAccounts(previous, r.profiles, RemapsOf(previous, r.profiles))
  {
    OwnerOfCharacterized(r.profiles, legacyHome);
    var owner := Profile(OwnerOf(r.profiles, legacyHome).value, legacyHome);
    forall p, q | p in [owner] && q in r.profiles && p.id == q.id ensures p.home == q.home {
      SameProfile(r.profiles, owner, q);
    }
  }

  /** `prepare()`: what it answers and what it leaves in the marker file. */
  function PrepareOf(engine: Engine, stored: Option<Stored>, pending: Option<Marker>, r: Registry, legacyHome: string)
    : (Result<Option<Transition>, StoreError>, Option<Marker>)
  {
    match TransitionOf(engine, stored, r, legacyHome)
    case Err(e) => (Err(e), pending)
    case Ok(None) =>
      if pending.Some? && !Targets(pending.value, r) then (Err(TargetsAnotherRegistry), pending) else (Ok(None), None)
    case Ok(Some(t)) =>
      if pending.Some? && pending.value != MarkerOf(t) then (Err(TargetsAnotherRegistry), pending)
      else (Ok(Some(t)), Some(MarkerOf(t)))
  }

  // ---- Owner of the unprofiled restart marker ----

  datatype Owner = Owner(profileId: Option<string>, revision: nat)

  /** `legacy_restart_profile_id()`: the owner, which is also what is written back. */
  function LegacyOwnerOf(owner: Option<Owner>, r: Registry, transition: Option<Transition>, revision: nat)
    : Result<Option<string>, StoreError>
  {
    var current :=
      if owner.Some? then owner.value
      else if transition.Some? then Owner(Some(transition.value.LegacyProfileId()), revision)
      else Owner(Some(r.defaultId), revision);
    if current.revision > revision then Err(OwnerRevisionAhead)
    else if current.revision < revision && transition.None? then Err(OwnerRevisionStale)
    else if transition.Some? && current.revision < revision && current.revision != revision - 1
            then Err(OwnerMissedTransition)
    else
      var id :=
        if transition.Some? && current.profileId.Some? && current.revision < revision
        then Some(Renamed(transition.value.remaps, current.profileId.value)) else current.profileId;
      Ok(if id.Some? && id.value in Ids(r.profiles) then id else None)
  }

  /**
   The restart owner follows the account: the record of the previous revision that named `p` names
   `q` for the same home afterwards, or nobody when the account is gone, and asking again while the
   transition is still pending changes nothing.
   */
  lemma LegacyOwnerFollowsAccount(t: Transition, p: Profile)
    requires t.Consistent() && t.revision >= 1 && p in t.previous && NoHeadReuse(t.previous, t.current)
    ensures var before := Some(Owner(Some(p.id), t.revision - 1));
            var answer := LegacyOwnerOf(before, t.Target(), Some(t), t.revision);
            && answer.Ok?
            && (forall q :: q in t.current && q.home == p.home ==> answer == Ok(Some(q.id)))
            && (p.home !in Homes(t.current) ==> answer == Ok(None))
            && LegacyOwnerOf(Some(Owner(answer.value, t.revision)), t.Target(), Some(t), t.revision) == answer
            && LegacyOwnerOf(Some(Owner(answer.value, t.revision)), t.Target(), None, t.revision) == answer
  {
    var answer := LegacyOwnerOf(Some(Owner(Some(p.id), t.revision - 1)), t.Target(), Some(t), t.revision);
    LegacyOwnerAnswer(t, p);
    LegacyOwnerAgain(t, answer.value);
  }

  lemma LegacyOwnerAnswer(t: Transition, p: Profile)
    requires t.Consistent() && t.revision >= 1 && p in t.previous && NoHeadReuse(t.previous, t.current)
    ensures var answer := LegacyOwnerOf(Some(Owner(Some(p.id), t.revision - 1)), t.Target(), Some(t), t.revision);
            && answer.Ok? && (answer.value.Some? ==> answer.value.value in Ids(t.current))
            && (forall q :: q in t.current && q.home == p.home ==> answer == Ok(Some(q.id)))
            && (p.home !in Homes(t.current) ==> answer == Ok(None))
  {
    RemapsPermute(t.previous, t.current);
    AttributionExact(t.previous, t.current);
    var id := Renamed(t.remaps, p.id);
    if p.home !in Homes(t.current) {
      forall q | q in t.current ensures q.id != id {
        assert q.home in Homes(t.current);
      }
    }
  }

  /** An owner of the present revision stays, whether the transition is still pending or done. */
  lemma LegacyOwnerAgain(t: Transition, owner: Option<string>)
    requires owner.Some? ==> owner.value in Ids(t.current)
    ensures LegacyOwnerOf(Some(Owner(owner, t.revision)), t.Target(), Some(t), t.revision) == Ok(owner)
    ensures LegacyOwnerOf(Some(Owner(owner, t.revision)), t.Target(), None, t.revision) == Ok(owner)
  {
  }

  // ---- State that names no account ----

  /**
   Whose state without a profile is, once `r` is configured: the account that has the home of the stored default
   or of the only stored account; for a first Claude topology the one that has the legacy directory; and when
   no file says so, as for a first Codex topology, the default account of `r`.
   */
  predicate OwnsUnprofiled(engine: Engine, stored: Option<Stored>, r: Registry, legacyHome: string, q: Profile) {
    match stored
    case Some(s) =>
      if s.defaultId.Some? then exists p :: p in s.profiles && Some(p.id) == s.defaultId && p.home == q.home
      else if |s.profiles| == 1 then s.profiles[0].home == q.home
      else q.id == r.defaultId
    case None => if engine.Claude? then q.home == legacyHome else q.id == r.defaultId
  }

  lemma UnprofiledOwner(engine: Engine, stored: Option<Stored>, r: Registry, legacyHome: string, q: Profile)
    requires r.Valid() && (stored.Some? ==> ValidStored(engine, stored.value))
    requires TransitionOf(engine, stored, r, legacyHome).Ok? && TransitionOf(engine, stored, r, legacyHome).value.Some?
    requires q in r.profiles && OwnsUnprofiled(engine, stored, r, legacyHome, q)
    ensures TransitionOf(engine, stored, r, legacyHome).value.value.LegacyProfileId() == q.id
  {
    if stored.Some? {
      UnprofiledOwnerLater(engine, stored.value, r, legacyHome, q);
    } else if engine.Claude? {
      var t := TransitionOf(engine, stored, r, legacyHome).value.value;
      OwnerOfCharacterized(r.profiles, legacyHome);
      SameProfile(r.profiles, q, Profile(OwnerOf(r.profiles, legacyHome).value, legacyHome));
      assert t.previous == [q] && q in t.previous;
      RemapsPermute(t.previous, t.current);
    }
  }

  lemma UnprofiledOwnerLater(engine: Engine, s: Stored, r: Registry, legacyHome: string, q: Profile)
    requires r.Valid() && ValidStored(engine, s)
    requires TransitionOf(engine, Some(s), r, legacyHome).Ok? &&
             TransitionOf(engine, Some(s), r, legacyHome).value.Some?
    requires q in r.profiles && OwnsUnprofiled(engine, Some(s), r, legacyHome, q)
    ensures TransitionOf(engine, Some(s), r, legacyHome).value.value.LegacyProfileId() == q.id
  {
    var t := TransitionOf(engine, Some(s), r, legacyHome).value.value;
    TransitionIsConsistent(engine, Some(s), r, legacyHome);
    RemapsPermute(t.previous, t.current);
    if s.defaultId.Some? {
      var p :| p in s.profiles && Some(p.id) == s.defaultId && p.home == q.home;
      assert |t.previous| == 1 ==> t.previous[0] == p;
    } else if |s.profiles| == 1 {
      assert s.profiles[0] in t.previous;
    }
  }

  /** A stored id without a profile is translated to what `r` issues for its owner and that session. */
  lemma UnprofiledStateFollowsOwner(engine: Engine, stored: Option<Stored>, r: Registry, legacyHome: string,
                                    native: string, q: Profile)
    requires r.Valid() && (stored.Some? ==> ValidStored(engine, stored.value)) && IsNativeId(native)
    requires TransitionOf(engine, stored, r, legacyHome).Ok? && TransitionOf(engine, stored, r, legacyHome).value.Some?
    requires q in r.profiles && OwnsUnprofiled(engine, stored, r, legacyHome, q)
    ensures TransitionOf(engine, stored, r, legacyHome).value.value.Translate(native) == r.WireSessionId(q.id, native)
  {
    UnprofiledOwner(engine, stored, r, legacyHome, q);
    ProfileIdHasNoAt(native);
    if !r.IsMulti() { assert q == r.profiles[0]; }
  }

  /** The first Codex topology is always handed out, and gives all such state to the default account. */
  lemma FirstCodexStateIsTheDefaults(r: Registry, legacyHome: string, native: string)
    requires r.Valid() && IsNativeId(native)
    ensures var asked := TransitionOf(Codex, None, r, legacyHome);
            && asked.Ok? && asked.value.Some? && asked.value.value.revision == 1
            && asked.value.value.Translate(native) == r.WireSessionId(r.defaultId, native)
  {
    var q :| q in r.profiles && q.id == r.defaultId;
    UnprofiledStateFollowsOwner(Codex, None, r, legacyHome, native, q);
  }

  /** When the owner is gone its state stays dormant: no account answers to the translated id. */
  lemma UnprofiledStateStaysDormant(engine: Engine, s: Stored, r: Registry, legacyHome: string, native: string,
                                    p: Profile)
    requires r.Valid() && ValidStored(engine, s) && IsNativeId(native)
    requires p in s.profiles && (s.defaultId == Some(p.id) || (s.defaultId.None? && s.profiles == [p]))
    requires p.home !in Homes(r.profiles) && NoHeadReuse(s.profiles, r.profiles)
    requires TransitionOf(engine, Some(s), r, legacyHome).Ok? &&
             TransitionOf(engine, Some(s), r, legacyHome).value.Some?
    ensures var to := TransitionOf(engine, Some(s), r, legacyHome).value.value.Translate(native);
            to.Ok? ==> r.ResolveWireSessionId(to.value).Err?
  {
    var t := TransitionOf(engine, Some(s), r, legacyHome).value.value;
    TransitionIsConsistent(engine, Some(s), r, legacyHome);
    ProfileIdHasNoAt(native);
    if |s.profiles| == 1 { assert s.profiles[0] == p; }
    assert t.LegacyProfileId() == Renamed(t.remaps, p.id);
    DormantNameNeverResolves(t, p, native);
  }

  /** The restart owner asked for the first time: the owner of the state, and afterwards the default. */
  lemma FirstRestartOwner(engine: Engine, stored: Option<Stored>, r: Registry, legacyHome: string, q: Profile)
    requires r.Valid() && (stored.Some? ==> ValidStored(engine, stored.value))
    requires TransitionOf(engine, stored, r, legacyHome).Ok? && TransitionOf(engine, stored, r, legacyHome).value.Some?
    requires q in r.profiles && OwnsUnprofiled(engine, stored, r, legacyHome, q)
    ensures var t := TransitionOf(engine, stored, r, legacyHome).value.value;
            LegacyOwnerOf(None, r, Some(t), t.revision) == Ok(Some(q.id))
    ensures forall revision :: LegacyOwnerOf(None, r, None, revision) == Ok(Some(r.defaultId))
  {
    UnprofiledOwner(engine, stored, r, legacyHome, q);
  }

  /** A recorded owner is refused exactly when it is ahead, or when transitions since then were missed. */
  lemma OwnerRefusedExactly(owner: Option<Owner>, r: Registry, transition: Option<Transition>, revision: nat)
    ensures LegacyOwnerOf(owner, r, transition, revision).Err? <==>
            owner.Some? && owner.value.revision != revision
            && !(transition.Some? && owner.value.revision + 1 == revision)
  {
  }

  /** The two topology files and the owner file of one engine. */
  class TopologyFiles {
    const engine: Engine
    var stored: Option<Stored>
    var pending: Option<Marker>
    var owner: Option<Owner>

    constructor (engine: Engine)
      ensures this.engine == engine && stored.None? && pending.None? && owner.None?
    {
      this.engine := engine;
      stored, pending, owner := None, None, None;
    }

    ghost predicate Valid()
      reads this
    {
      stored.Some? ==> ValidStored(engine, stored.value)
    }

    method FindTransition(r: Registry, legacyHome: string) returns (res: Result<Option<Transition>, StoreError>)
      requires Valid() && r.Valid()
      ensures res == TransitionOf(engine, stored, r, legacyHome)
    {
      if stored.Some? && Unchanged(engine, stored.value, r) {
        return Ok(None);
      }
      var baseline := Baseline(engine, stored, r, legacyHome);
      if baseline.Err? {
        return Err(baseline.error);
      }
      var (previous, default, revision) := baseline.value;
      var remaps := Remaps(previous, r.profiles);
      if !KeepsAccounts(previous, r.profiles, remaps) {
        return Err(ReplacesHome);
      }
      return Ok(Some(Transition(revision, previous, default, r.profiles, r.defaultId, remaps)));
    }

    method Prepare(r: Registry, legacyHome: string) returns (res: Result<Option<Transition>, StoreError>)
      requires Valid() && r.Valid()
      modifies this`pending
      ensures (res, pending) == PrepareOf(engine, stored, old(pending), r, legacyHome)
      ensures res.Err? ==> pending == old(pending)
      ensures res == Ok(None) ==> pending == None
      ensures res.Ok? && res.value.Some? ==>
              var t := res.value.value;
              pending == Some(Marker(t.revision, t.previous, t.previousDefault, t.current, t.currentDefault))
      ensures res == Err(TargetsAnotherRegistry) <==>
              var asked := TransitionOf(engine, stored, r, legacyHome);
              && asked.Ok? && old(pending).Some?
              && if asked.value.Some? then old(pending).value != MarkerOf(asked.value.value)
                 else old(pending).value.current != r.profiles || old(pending).value.currentDefault != r.defaultId
      ensures res == TransitionOf(engine, stored, r, legacyHome) || res == Err(TargetsAnotherRegistry)
    {
      res := FindTransition(r, legacyHome);
      match res {
        case Err(_) =>
        case Ok(None) =>
          if pending.Some? {
            if !Targets(pending.value, r) {
              return Err(TargetsAnotherRegistry);
            }
            pending := None;
          }
        case Ok(Some(t)) =>
          if pending.Some? {
            if pending.value != MarkerOf(t) {
              res := Err(TargetsAnotherRegistry);
            }
          } else {
            pending := Some(MarkerOf(t));
          }
      }
    }

    method Complete(r: Registry, t: Transition) returns (res: Result<(), StoreError>)
      requires Valid() && r.Valid() && t.revision >= 1
      modifies this`stored, this`pending
      ensures res.Ok? <==> old(pending) == Some(MarkerOf(t))
      ensures res.Ok? ==> stored == Some(StoredOf(engine, r, t.revision)) && pending == None
      ensures res.Ok? ==> var s := stored.value;
              s.revision == t.revision && s.profiles == r.profiles && s.defaultId == Some(r.defaultId)
      ensures res.Err? ==> res.error == MarkerMissing && stored == old(stored) && pending == old(pending)
      ensures Valid()
    {
      if pending != Some(MarkerOf(t)) {
        return Err(MarkerMissing);
      }
      stored := Some(StoredOf(engine, r, t.revision));
      pending := None;
      return Ok(());
    }

    method LegacyRestartProfileId(r: Registry, transition: Option<Transition>, revision: nat)
      returns (res: Result<Option<string>, StoreError>)
      modifies this`owner
      ensures res == LegacyOwnerOf(old(owner), r, transition, revision)
      ensures owner == if res.Ok? then Some(Owner(res.value, revision)) else old(owner)
    {
      var id: Option<string>;
      var at: nat;
      if owner.Some? {
        id, at := owner.value.profileId, owner.value.revision;
      } else if transition.Some? {
        id, at := Some(transition.value.LegacyProfileId()), revision;
      } else {
        id, at := Some(r.defaultId), revision;
      }
      if at > revision {
        return Err(OwnerRevisionAhead);
      }
      if at < revision && transition.None? {
        return Err(OwnerRevisionStale);
      }
      if transition.Some? && at < revision && at != revision - 1 {
        return Err(OwnerMissedTransition);
      }
      if transition.Some? && id.Some? && at < revision {
        id := Some(Renamed(transition.value.remaps, id.value));
      }
      var answer := if id.Some? && id.value in Ids(r.profiles) then id else None;
      owner := Some(Owner(answer, revision));
      return Ok(answer);
    }
  }
}
