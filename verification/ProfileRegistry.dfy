/**
 The configured account registry and its routing ids.

 One account: sessions keep their native id. Several accounts: a session is addressed as
 `<profile>@<native>`. A topology transition rewrites persisted routing ids from one registry to the
 next without touching the native id.
 */
module ProfileRegistry {
  import opened Common
  import opened ProfileRemaps

  const MAX_WIRE_ID_CHARS := 128
  const MAX_PROFILES := 32

  datatype IdError =
    | UnknownProfile
    | InvalidNative
    | TooLong
    | InvalidWire
    | NotNamespaced
    | MustNotBeNamespaced
    | EmptyPersisted

  /** `^[A-Za-z0-9][A-Za-z0-9_-]{0,31}$` */
  predicate IsProfileId(s: string) {
    1 <= |s| <= 32 && IsAsciiAlnum(s[0]) && forall c <- s :: IsAsciiAlnum(c) || c == '_' || c == '-'
  }

  /** `^[A-Za-z0-9][A-Za-z0-9._:-]{0,127}$` */
  predicate IsNativeId(s: string) {
    1 <= |s| <= 128 && IsAsciiAlnum(s[0]) &&
    forall c <- s :: IsAsciiAlnum(c) || c == '.' || c == '_' || c == ':' || c == '-'
  }

  /** Both patterns, one character at a time. */
  lemma IdsGrow(s: string, c: char)
    ensures !IsProfileId("") && !IsNativeId("")
    ensures s == "" ==> (IsProfileId(s + [c]) <==> IsAsciiAlnum(c)) && (IsNativeId(s + [c]) <==> IsAsciiAlnum(c))
    ensures s != "" ==>
              && (IsProfileId(s + [c]) <==> IsProfileId(s) && |s| < 32 && (IsAsciiAlnum(c) || c in "_-"))
              && (IsNativeId(s + [c]) <==> IsNativeId(s) && |s| < 128 && (IsAsciiAlnum(c) || c in "._:-"))
  {
    var t := s + [c];
    assert t[|s|] == c && forall i :: 0 <= i < |s| ==> t[i] == s[i];
    assert c in t && forall x :: x in s ==> x in t;
    if s == "" { assert t[0] == c; }
  }

  datatype Registry = Registry(profiles: seq<Profile>, defaultId: string) {
    /** What `from_json` and the constructor enforce. */
    predicate Valid() {
      && 1 <= |profiles| <= MAX_PROFILES
      && WellFormed(profiles)
      && (forall p <- profiles :: IsProfileId(p.id))
      && defaultId in Ids(profiles)
    }

    predicate IsMulti() {
      |profiles| > 1
    }

    function WireSessionId(profileId: string, native: string): Result<string, IdError> {
      if profileId !in Ids(profiles) then Err(UnknownProfile)
      else if !IsNativeId(native) then Err(InvalidNative)
      else if !IsMulti() then Ok(native)
      else Routed(profileId, native)
    }

    function ResolveWireSessionId(wire: string): Result<(string, string), IdError> {
      if wire == "" || |wire| > MAX_WIRE_ID_CHARS then Err(InvalidWire)
      else if '@' !in wire then
        if IsMulti() then Err(NotNamespaced)
        else if IsNativeId(wire) then Ok((defaultId, wire)) else Err(InvalidNative)
      else if !IsMulti() then Err(MustNotBeNamespaced)
      else
        var at := IndexOfAt(wire);
        if wire[..at] !in Ids(profiles) then Err(UnknownProfile)
        else if IsNativeId(wire[at + 1..]) then Ok((wire[..at], wire[at + 1..])) else Err(InvalidNative)
    }
  }

  function Routed(profileId: string, native: string): Result<string, IdError> {
    var routed := profileId + "@" + native;
    if |routed| > MAX_WIRE_ID_CHARS then Err(TooLong) else Ok(routed)
  }

  /** The first `@`, where `split("@", 1)` cuts. */
  function IndexOfAt(s: string): (at: nat)
    requires '@' in s
    ensures at < |s| && s[at] == '@' && '@' !in s[..at]
  {
    if s[0] == '@' then 0 else
      var rest := IndexOfAt(s[1..]);
      assert s[..rest + 1] == [s[0]] + s[1..][..rest];
      rest + 1
  }

  lemma SplitRouted(profileId: string, native: string)
    requires '@' !in profileId
    ensures var s := profileId + "@" + native;
            '@' in s && s[..IndexOfAt(s)] == profileId && s[IndexOfAt(s) + 1..] == native
  {
    var s := profileId + "@" + native;
    assert s[|profileId|] == '@';
    assert forall i :: 0 <= i < |profileId| ==> s[i] == profileId[i];
    forall k: nat | |profileId| < k <= |s| ensures '@' in s[..k] {
      assert s[..k][|profileId|] == '@';
    }
  }

  lemma ProfileIdHasNoAt(s: string)
    requires IsProfileId(s) || IsNativeId(s)
    ensures '@' !in s
  {
  }

  /** Resolving an issued id gives back the account and the native id. */
  lemma ResolveOfWire(r: Registry, profileId: string, native: string)
    requires r.Valid() && r.WireSessionId(profileId, native).Ok?
    ensures r.ResolveWireSessionId(r.WireSessionId(profileId, native).value) == Ok((profileId, native))
  {
    var p :| p in r.profiles && p.id == profileId;
    ProfileIdHasNoAt(profileId);
    ProfileIdHasNoAt(native);
    if r.IsMulti() {
      SplitRouted(profileId, native);
    } else {
      assert r.profiles[0].id == profileId == r.defaultId;
    }
  }

  /** An id that resolves is the one the registry issues for what it resolves to. */
  lemma WireOfResolve(r: Registry, wire: string)
    requires r.Valid() && r.ResolveWireSessionId(wire).Ok?
    ensures var (profileId, native) := r.ResolveWireSessionId(wire).value;
            r.WireSessionId(profileId, native) == Ok(wire)
  {
    if '@' in wire {
      var at := IndexOfAt(wire);
      assert wire == wire[..at] + "@" + wire[at + 1..];
    }
  }

  /** Up to 32 accounts with legal and different ids, different homes, and a default among them. */
  lemma ValidExactly(r: Registry)
    ensures r.Valid() <==>
            && 0 < |r.profiles| < 33
            && (forall i :: 0 <= i < |r.profiles| ==> IsProfileId(r.profiles[i].id))
            && (forall i, j :: 0 <= i < j < |r.profiles| ==>
                  r.profiles[i].id != r.profiles[j].id && r.profiles[i].home != r.profiles[j].home)
            && (exists i :: 0 <= i < |r.profiles| && r.profiles[i].id == r.defaultId)
  {
    if exists i :: 0 <= i < |r.profiles| && r.profiles[i].id == r.defaultId {
      var i :| 0 <= i < |r.profiles| && r.profiles[i].id == r.defaultId;
      assert r.profiles[i] in r.profiles;
    }
  }

  /** The native id for a lone account, `profile@native` for one of several, of at most 128 characters. */
  lemma IssuedExactly(r: Registry, profileId: string, native: string)
    requires r.Valid()
    ensures var issued := r.WireSessionId(profileId, native);
            && (issued == Err(UnknownProfile) <==> forall p :: p in r.profiles ==> p.id != profileId)
            && (issued == Err(InvalidNative) <==> issued != Err(UnknownProfile) && !IsNativeId(native))
            && (issued == Err(TooLong) <==>
                issued != Err(UnknownProfile) && IsNativeId(native) && |r.profiles| > 1 && |profileId| + |native| > 127)
            && (issued.Ok? ==> issued.value == if |r.profiles| == 1 then native else profileId + ("@" + native))
            && (issued.Err? ==> issued.error in {UnknownProfile, InvalidNative, TooLong})
  {
    if r.IsMulti() {
      assert profileId + "@" + native == profileId + ("@" + native);
    }
  }

  /** An id resolves exactly when the registry issues it; otherwise the refusal says what is wrong with its form. */
  lemma ResolvedExactly(r: Registry, wire: string)
    requires r.Valid()
    ensures var resolved := r.ResolveWireSessionId(wire);
            && (resolved.Ok? <==> exists p, native :: r.WireSessionId(p, native) == Ok(wire))
            && (resolved == Err(InvalidWire) <==> wire == "" || |wire| > 128)
            && (resolved == Err(NotNamespaced) <==> 0 < |wire| <= 128 && '@' !in wire && |r.profiles| > 1)
            && (resolved == Err(MustNotBeNamespaced) <==> 0 < |wire| <= 128 && '@' in wire && |r.profiles| == 1)
  {
    if r.ResolveWireSessionId(wire).Ok? {
      WireOfResolve(r, wire);
      var (p, native) := r.ResolveWireSessionId(wire).value;
      assert r.WireSessionId(p, native) == Ok(wire);
    }
    if p, native :| r.WireSessionId(p, native) == Ok(wire) {
      ResolveOfWire(r, p, native);
    }
  }

  // ---- Transitions ----

  /** `ProfileTopologyTransition`; `previousDefault` is None when an old file recorded none. */
  datatype Transition = Transition(
    revision: nat,
    previous: seq<Profile>,
    previousDefault: Option<string>,
    current: seq<Profile>,
    currentDefault: string,
    remaps: map<string, string>) {

    predicate CurrentIsMulti() {
      |current| > 1
    }

    /** `legacy_profile_id`: who owns state that carries no profile. */
    function LegacyProfileId(): string {
      if |previous| == 1 then Renamed(remaps, previous[0].id)
      else if previousDefault.Some? then Renamed(remaps, previousDefault.value)
      else currentDefault
    }

    /** `wire_session_id` of the transition. */
    function Translate(sid: string): Result<string, IdError> {
      if sid == "" then Err(EmptyPersisted)
      else
        var (profileId, native) :=
          if '@' in sid then (Renamed(remaps, sid[..IndexOfAt(sid)]), sid[IndexOfAt(sid) + 1..])
          else (LegacyProfileId(), sid);
        if !IsNativeId(native) then Err(InvalidNative)
        else if CurrentIsMulti() || profileId != currentDefault then Routed(profileId, native)
        else Ok(native)
    }

    function Target(): Registry {
      Registry(current, currentDefault)
    }

    /** What `transition()` guarantees of the value it returns. */
    predicate Consistent() {
      && Target().Valid()
      && WellFormed(previous)
      && (forall p <- previous :: IsProfileId(p.id))
      && (previousDefault.Some? ==> previousDefault.value in Ids(previous))
      && remaps == RemapsOf(previous, current)
      && KeepsAccounts(previous, current, remaps)
    }
  }

  /** `r` is the registry the transition starts from. */
  predicate StartsFrom(t: Transition, r: Registry) {
    r.Valid() && t.previous == r.profiles
  }

  lemma ResolvedParts(t: Transition, r: Registry, sid: string)
    requires t.Consistent() && StartsFrom(t, r) && r.ResolveWireSessionId(sid).Ok?
    ensures var (profileId, native) := r.ResolveWireSessionId(sid).value;
            && profileId in Ids(t.previous) && IsNativeId(native)
            && t.Translate(sid) == (if t.CurrentIsMulti() || Renamed(t.remaps, profileId) != t.currentDefault
                                    then Routed(Renamed(t.remaps, profileId), native) else Ok(native))
  {
    if !r.IsMulti() {
      assert t.previous[0] in r.profiles && t.previous[0].id == r.defaultId;
    }
  }

  /**
   A routing id keeps its meaning: if it named session `native` of a home that is still configured,
   its translation is what the new registry answers for that home and session, also when that
   answer is that the new id would be too long.
   */
  lemma TranslatePreservesMeaning(t: Transition, r: Registry, sid: string, p: Profile, q: Profile)
    requires t.Consistent() && StartsFrom(t, r)
    requires r.ResolveWireSessionId(sid).Ok? && r.ResolveWireSessionId(sid).value.0 == p.id
    requires p in t.previous && q in t.current && p.home == q.home
    ensures t.Translate(sid) == t.Target().WireSessionId(q.id, r.ResolveWireSessionId(sid).value.1)
  {
    ResolvedParts(t, r, sid);
    RemapsPermute(t.previous, t.current);
    assert Renamed(t.remaps, p.id) == q.id;
    if !t.CurrentIsMulti() {
      assert q == t.current[0];
      assert t.currentDefault in Ids(t.current);
    }
  }

  /** The translation of a dropped account's id carries the renamed id of the dropped account. */
  lemma DormantNeverResolves(t: Transition, r: Registry, sid: string, p: Profile)
    requires t.Consistent() && StartsFrom(t, r)
    requires r.ResolveWireSessionId(sid).Ok? && r.ResolveWireSessionId(sid).value.0 == p.id
    requires p in t.previous && p.home !in Homes(t.current)
    requires NoHeadReuse(t.previous, t.current)
    requires t.Translate(sid).Ok?
    ensures t.Target().ResolveWireSessionId(t.Translate(sid).value).Err?
  {
    ResolvedParts(t, r, sid);
    DormantNameNeverResolves(t, p, r.ResolveWireSessionId(sid).value.1);
  }

  lemma DormantNameNeverResolves(t: Transition, p: Profile, native: string)
    requires t.Consistent() && IsNativeId(native)
    requires p in t.previous && p.home !in Homes(t.current) && NoHeadReuse(t.previous, t.current)
    ensures Renamed(t.remaps, p.id) !in Ids(t.current)
    ensures Routed(Renamed(t.remaps, p.id), native).Ok? ==>
              t.Target().ResolveWireSessionId(Routed(Renamed(t.remaps, p.id), native).value).Err?
  {
    var name := Renamed(t.remaps, p.id);
    AttributionExact(t.previous, t.current);
    RemapsPermute(t.previous, t.current);
    assert name !in Ids(t.current) by {
      forall q | q in t.current ensures q.id != name {
        assert q.home in Homes(t.current);
      }
    }
    RenamedIsProfileId(t, p.id);
    ProfileIdHasNoAt(name);
    SplitRouted(name, native);
  }

  lemma RenamedIsProfileId(t: Transition, id: string)
    requires t.Consistent() && id in Ids(t.previous)
    ensures IsProfileId(Renamed(t.remaps, id))
  {
    var base := Direct(t.previous, t.current);
    DirectInjective(t.previous, t.current);
    RemapsComplete(t.previous, t.current);
    RemapsPermute(t.previous, t.current);
    if id in t.remaps && id !in base {
      assert t.remaps[id] in base;
    }
  }

  /** Whoever moves to a lone account has its home. */
  lemma MovedToLone(previous: seq<Profile>, q: Profile, a: string, b: string)
    requires Moved(previous, [q], a, b)
    ensures q.home in Homes(previous)
  {
    var h :| Profile(a, h) in previous && Profile(b, h) in [q];
    assert Profile(a, h).home == h;
  }

  /** With one account left there is nothing to reuse, so a sibling's id never resolves. */
  lemma SingleTargetNeverReuses(t: Transition)
    requires t.Consistent() && !t.CurrentIsMulti()
    ensures NoHeadReuse(t.previous, t.current)
  {
    DirectCharacterized(t.previous, t.current);
    var base, q := Direct(t.previous, t.current), t.current[0];
    assert t.current == [q];
    if q.id in base {
      MovedToLone(t.previous, q, q.id, base[q.id]);
    }
  }

  lemma DormantSiblingNeverResolves(t: Transition, r: Registry, sid: string, p: Profile)
    requires t.Consistent() && StartsFrom(t, r) && !t.CurrentIsMulti()
    requires r.ResolveWireSessionId(sid).Ok? && r.ResolveWireSessionId(sid).value.0 == p.id
    requires p in t.previous && p.home !in Homes(t.current)
    requires t.Translate(sid).Ok?
    ensures t.Target().ResolveWireSessionId(t.Translate(sid).value).Err?
  {
    SingleTargetNeverReuses(t);
    DormantNeverResolves(t, r, sid, p);
  }

  /** State written before profiles existed belongs to the account that was the default then. */
  lemma LegacyStateFollowsDefault(t: Transition, native: string, p: Profile, q: Profile)
    requires t.Consistent() && IsNativeId(native)
    requires p in t.previous && q in t.current && p.home == q.home
    requires t.previousDefault == Some(p.id)
    ensures t.Translate(native) == t.Target().WireSessionId(q.id, native)
  {
    ProfileIdHasNoAt(native);
    RemapsPermute(t.previous, t.current);
    if |t.previous| == 1 { assert t.previous[0] == p; }
    assert t.LegacyProfileId() == q.id;
    if !t.CurrentIsMulti() { assert q == t.current[0]; }
  }

  // ---- Sequences of topologies ----

  /** Each transition starts where the one before it ended. */
  predicate Linked(start: Registry, ts: seq<Transition>)
    decreases |ts|
  {
    ts == [] || (ts[0].Consistent() && StartsFrom(ts[0], start) && Linked(ts[0].Target(), ts[1..]))
  }

  function Last(start: Registry, ts: seq<Transition>): Registry {
    if ts == [] then start else ts[|ts| - 1].Target()
  }

  function TranslateAll(sid: string, ts: seq<Transition>): Result<string, IdError>
    decreases |ts|
  {
    if ts == [] then Ok(sid)
    else
      var next :- ts[0].Translate(sid);
      TranslateAll(next, ts[1..])
  }

  /**
   Over any sequence of topologies that keeps a home configured, a session id of that home ends as
   the id the last registry issues for it, or was rejected on the way for being too long.
   */
  lemma {:induction false} MeaningSurvivesHistory(start: Registry, ts: seq<Transition>, sid: string, p: Profile,
                                                  last: Profile)
    requires start.Valid() && Linked(start, ts)
    requires start.ResolveWireSessionId(sid).Ok? && start.ResolveWireSessionId(sid).value.0 == p.id
    requires p in start.profiles && last in Last(start, ts).profiles && last.home == p.home
    requires forall t <- ts :: p.home in Homes(t.current)
    ensures var native := start.ResolveWireSessionId(sid).value.1;
            TranslateAll(sid, ts) == Last(start, ts).WireSessionId(last.id, native)
            || TranslateAll(sid, ts) == Err(TooLong)
    decreases |ts|
  {
    if ts == [] {
      SameProfile(start.profiles, p, last);
      WireOfResolve(start, sid);
    } else {
      var t := ts[0];
      var native := start.ResolveWireSessionId(sid).value.1;
      var q :| q in t.current && q.home == p.home;
      TranslatePreservesMeaning(t, start, sid, p, q);
      ResolvedParts(t, start, sid);
      if t.Translate(sid).Ok? {
        ResolveOfWire(t.Target(), q.id, native);
        assert Last(start, ts) == Last(t.Target(), ts[1..]);
        MeaningSurvivesHistory(t.Target(), ts[1..], t.Translate(sid).value, q, last);
      } else {
        assert q.id in Ids(t.current);
      }
    }
  }
}
