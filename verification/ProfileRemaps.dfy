/**
 Account topologies and the rename map between two of them.

 An account is a private home directory; its id is a name the user may change. `Remaps` turns two
 topologies into the map from old ids to new ids, closing every rename chain that displaces an
 account which is not configured any more. Both engines use the same algorithm.
 */
module ProfileRemaps {
  import opened Common

  datatype Profile = Profile(id: string, home: string)

  function Ids(ps: seq<Profile>): set<string> {
    set p <- ps :: p.id
  }

  function Homes(ps: seq<Profile>): set<string> {
    set p <- ps :: p.home
  }

  /** Neither an id nor a home occurs twice. */
  predicate WellFormed(ps: seq<Profile>) {
    forall i, j :: 0 <= i < j < |ps| ==> ps[i].id != ps[j].id && ps[i].home != ps[j].home
  }

  lemma SameProfile(ps: seq<Profile>, p: Profile, q: Profile)
    requires WellFormed(ps) && p in ps && q in ps
    requires p.id == q.id || p.home == q.home
    ensures p == q
  {
  }

  /** The id `previous` gives to a home. */
  function OwnerOf(previous: seq<Profile>, home: string): Option<string> {
    if previous == [] then None
    else if previous[|previous| - 1].home == home then Some(previous[|previous| - 1].id)
    else OwnerOf(previous[..|previous| - 1], home)
  }

  lemma {:induction false} OwnerOfCharacterized(previous: seq<Profile>, home: string)
    ensures OwnerOf(previous, home).None? <==> home !in Homes(previous)
    ensures OwnerOf(previous, home).Some? ==> Profile(OwnerOf(previous, home).value, home) in previous
  {
    if previous != [] {
      var init := previous[..|previous| - 1];
      OwnerOfCharacterized(init, home);
      assert previous == init + [previous[|previous| - 1]];
    }
  }

  /** The renames that follow directly from homes that kept their place but changed their id. */
  function Direct(previous: seq<Profile>, current: seq<Profile>): map<string, string> {
    if current == [] then map[]
    else
      var q := current[|current| - 1];
      var rest := Direct(previous, current[..|current| - 1]);
      var was := OwnerOf(previous, q.home);
      if was.Some? && was.value != q.id then rest[was.value := q.id] else rest
  }

  /** The keys of `Direct`, in the order in which the dict comprehension inserts them. */
  function DirectOrder(previous: seq<Profile>, current: seq<Profile>): seq<string> {
    if current == [] then []
    else
      var q := current[|current| - 1];
      var rest := DirectOrder(previous, current[..|current| - 1]);
      var was := OwnerOf(previous, q.home);
      if was.Some? && was.value != q.id then rest + [was.value] else rest
  }

  ghost predicate Moved(previous: seq<Profile>, current: seq<Profile>, a: string, b: string) {
    a != b && exists h :: Profile(a, h) in previous && Profile(b, h) in current
  }

  lemma {:induction false} DirectCharacterized(previous: seq<Profile>, current: seq<Profile>)
    requires WellFormed(previous) && WellFormed(current)
    ensures forall a :: a in Direct(previous, current) ==> Moved(previous, current, a, Direct(previous, current)[a])
    ensures forall a, b :: Moved(previous, current, a, b) ==>
              a in Direct(previous, current) && Direct(previous, current)[a] == b
    ensures forall a :: a in Direct(previous, current) <==> a in DirectOrder(previous, current)
    ensures forall i, j :: 0 <= i < j < |DirectOrder(previous, current)| ==>
              DirectOrder(previous, current)[i] != DirectOrder(previous, current)[j]
  {
    if current == [] {
    } else {
      var n := |current| - 1;
      var q, init := current[n], current[..n];
      assert current == init + [q];
      DirectCharacterized(previous, init);
      OwnerOfCharacterized(previous, q.home);
      var m, r := Direct(previous, current), Direct(previous, init);
      var was := OwnerOf(previous, q.home);
      if was.Some? && was.value != q.id {
        var o := was.value;
        assert o !in r;
      }
      forall a | a in m ensures Moved(previous, current, a, m[a]) {
        if a in r && m[a] == r[a] {
          assert Moved(previous, init, a, r[a]);
        }
      }
      forall a, b | Moved(previous, current, a, b) ensures a in m && m[a] == b {
        var h :| Profile(a, h) in previous && Profile(b, h) in current;
        if Profile(b, h) in init {
          assert Moved(previous, init, a, b);
        } else {
          assert Profile(b, h) == q;
          if was.Some? { SameProfile(previous, Profile(a, h), Profile(was.value, h)); }
        }
      }
    }
  }

  ghost predicate Injective(m: map<string, string>) {
    forall a, b :: a in m && b in m && m[a] == m[b] ==> a == b
  }

  lemma DirectInjective(previous: seq<Profile>, current: seq<Profile>)
    requires WellFormed(previous) && WellFormed(current)
    ensures Injective(Direct(previous, current))
    ensures forall a :: a in Direct(previous, current) ==>
              a in Ids(previous) && Direct(previous, current)[a] in Ids(current) && Direct(previous, current)[a] != a
  {
    DirectCharacterized(previous, current);
    var m := Direct(previous, current);
    forall a | a in m
      ensures a in Ids(previous) && m[a] in Ids(current) && m[a] != a
    {
      assert Moved(previous, current, a, m[a]);
      var h :| Profile(a, h) in previous && Profile(m[a], h) in current;
      assert Profile(a, h).id == a && Profile(m[a], h).id == m[a];
    }
    forall a, b | a in m && b in m && m[a] == m[b] ensures a == b {
      assert Moved(previous, current, a, m[a]) && Moved(previous, current, b, m[b]);
      var h :| Profile(a, h) in previous && Profile(m[a], h) in current;
      var k :| Profile(b, k) in previous && Profile(m[b], k) in current;
      SameProfile(current, Profile(m[a], h), Profile(m[b], k));
      SameProfile(previous, Profile(a, h), Profile(b, k));
    }
  }

  // ---- Rename chains ----

  /** `p` follows `m` from element to element. */
  ghost predicate Path(m: map<string, string>, p: seq<string>) {
    |p| > 0 && forall i :: 0 <= i < |p| - 1 ==> p[i] in m && m[p[i]] == p[i + 1]
  }

  ghost predicate Reaches(m: map<string, string>, a: string, b: string) {
    exists p :: Path(m, p) && p[0] == a && p[|p| - 1] == b
  }

  lemma InteriorIsValue(m: map<string, string>, p: seq<string>)
    requires Path(m, p)
    ensures |p| > 1 ==> p[|p| - 1] in m.Values
  {
    if |p| > 1 { assert m[p[|p| - 2]] == p[|p| - 1]; }
  }

  /** Backwards along an injective map there is only one way to go. */
  lemma {:induction false} HeadPathUnique(m: map<string, string>, p: seq<string>, q: seq<string>)
    requires Injective(m) && Path(m, p) && Path(m, q)
    requires p[0] !in m.Values && q[0] !in m.Values
    requires p[|p| - 1] == q[|q| - 1]
    ensures p == q
  {
    if |p| == 1 || |q| == 1 {
      InteriorIsValue(m, p);
      InteriorIsValue(m, q);
    } else {
      HeadPathUnique(m, p[..|p| - 1], q[..|q| - 1]);
      assert p == p[..|p| - 1] + [p[|p| - 1]] && q == q[..|q| - 1] + [q[|q| - 1]];
    }
  }

  /** Forwards there is only one way to go, and it stops where the map does. */
  lemma {:induction false} TailPathUnique(m: map<string, string>, p: seq<string>, q: seq<string>)
    requires Path(m, p) && Path(m, q) && p[0] == q[0]
    requires p[|p| - 1] !in m && q[|q| - 1] !in m
    ensures p == q
  {
    if |p| == 1 || |q| == 1 {
    } else {
      TailPathUnique(m, p[1..], q[1..]);
      assert p == [p[0]] + p[1..] && q == [q[0]] + q[1..];
    }
  }

  lemma HeadPathDistinct(m: map<string, string>, p: seq<string>, i: nat, j: nat)
    requires Injective(m) && Path(m, p) && p[0] !in m.Values
    requires i < j < |p|
    ensures p[i] != p[j]
  {
    if p[i] == p[j] {
      HeadPathUnique(m, p[..i + 1], p[..j + 1]);
    }
  }

  /** The `while tail in remaps and tail not in seen` walk. */
  function Tail(m: map<string, string>, x: string, seen: set<string>): string
    decreases |m.Keys - seen|
  {
    if x in m && x !in seen then
      assert m.Keys - (seen + {x}) < m.Keys - seen;
      CardinalityDecreases(m.Keys - (seen + {x}), m.Keys - seen);
      Tail(m, m[x], seen + {x})
    else x
  }

  /** The `for start in tuple(remaps)` loop from a partly completed map `m`. */
  function CompleteFrom(m: map<string, string>, targets: set<string>, oldIds: set<string>,
                        starts: seq<string>): map<string, string>
    decreases |starts|
  {
    if starts == [] then m
    else
      var tail := Tail(m, starts[0], {});
      CompleteFrom(
        if starts[0] !in targets && tail in oldIds && tail !in m then m[tail := starts[0]] else m,
        targets, oldIds, starts[1..])
  }

  function RemapsOf(previous: seq<Profile>, current: seq<Profile>): map<string, string> {
    var direct := Direct(previous, current);
    CompleteFrom(direct, direct.Values, Ids(previous), DirectOrder(previous, current))
  }

  /** Every added entry sends the displaced end of a rename chain to the id the chain vacates. */
  ghost predicate Extends(base: map<string, string>, oldIds: set<string>, r: map<string, string>) {
    && (forall k :: k in base ==> k in r && r[k] == base[k])
    && (forall k :: k in r && k !in base ==>
          k in oldIds && r[k] in base && r[k] !in base.Values && Reaches(base, r[k], k))
  }

  /** `r` is `base` with every chain that displaces an old id closed into a cycle. */
  ghost predicate Completes(base: map<string, string>, oldIds: set<string>, r: map<string, string>) {
    && Extends(base, oldIds, r)
    && (forall k :: k in base.Values && k in oldIds ==> k in r)
  }

  /** `seen` holds nothing but earlier elements of `p`. */
  ghost predicate Visited(p: seq<string>, seen: set<string>) {
    forall y :: y in seen ==> exists i :: 0 <= i < |p| - 1 && p[i] == y
  }

  lemma VisitedExtend(p: seq<string>, seen: set<string>, z: string)
    requires |p| > 0 && Visited(p, seen)
    ensures Visited(p + [z], seen + {p[|p| - 1]})
  {
    var p' := p + [z];
    var seen' := seen + {p[|p| - 1]};
    forall y | y in seen' ensures exists i :: 0 <= i < |p'| - 1 && p'[i] == y {
      if y in seen {
        var i :| 0 <= i < |p| - 1 && p[i] == y;
        assert p'[i] == y;
      } else {
        assert p'[|p| - 1] == y;
      }
    }
  }

  /** An added key is reached from another head than `p`'s. */
  lemma OnPathMeansBase(base: map<string, string>, oldIds: set<string>, m: map<string, string>, p: seq<string>)
    requires Injective(base) && Extends(base, oldIds, m)
    requires Path(base, p) && p[0] !in base.Values
    requires forall k :: k in m && k !in base ==> m[k] != p[0]
    ensures p[|p| - 1] in m ==> p[|p| - 1] in base
  {
    var x := p[|p| - 1];
    if x in m && x !in base {
      var c :| Path(base, c) && c[0] == m[x] && c[|c| - 1] == x;
      HeadPathUnique(base, c, p);
    }
  }

  lemma NotVisited(base: map<string, string>, p: seq<string>, seen: set<string>)
    requires Injective(base) && Path(base, p) && p[0] !in base.Values && Visited(p, seen)
    ensures p[|p| - 1] !in seen
  {
    forall i: nat | i < |p| - 1 ensures p[i] != p[|p| - 1] {
      HeadPathDistinct(base, p, i, |p| - 1);
    }
  }

  /** The walk from an unclosed head sees only `base`, and ends outside the map. */
  lemma {:induction false} WalkFromHead(base: map<string, string>, oldIds: set<string>, m: map<string, string>,
                                        p: seq<string>, seen: set<string>) returns (q: seq<string>)
    requires Injective(base) && Extends(base, oldIds, m)
    requires Path(base, p) && p[0] in base && p[0] !in base.Values
    requires forall k :: k in m && k !in base ==> m[k] != p[0]
    requires Visited(p, seen)
    ensures Path(base, q) && q[0] == p[0] && |q| > 1
    ensures q[|q| - 1] == Tail(m, p[|p| - 1], seen)
    ensures q[|q| - 1] !in m
    decreases |m.Keys - seen|
  {
    var x := p[|p| - 1];
    NotVisited(base, p, seen);
    OnPathMeansBase(base, oldIds, m, p);
    if x in m {
      var p' := p + [base[x]];
      assert Path(base, p');
      CardinalityDecreases(m.Keys - (seen + {x}), m.Keys - seen);
      VisitedExtend(p, seen, base[x]);
      q := WalkFromHead(base, oldIds, m, p', seen + {x});
    } else {
      q := p;
    }
  }

  lemma {:induction false} CompleteFromExtends(base: map<string, string>, oldIds: set<string>, m: map<string, string>,
                                               starts: seq<string>)
    requires Injective(base) && Extends(base, oldIds, m)
    requires forall s <- starts :: s in base
    requires forall i, j :: 0 <= i < j < |starts| ==> starts[i] != starts[j]
    requires forall k :: k in m && k !in base ==> m[k] !in starts
    ensures var r := CompleteFrom(m, base.Values, oldIds, starts);
            Extends(base, oldIds, r) && m.Keys <= r.Keys &&
            forall s <- starts :: s !in base.Values ==> ClosedFrom(base, oldIds, r, s)
    decreases |starts|
  {
    if starts != [] {
      var s := starts[0];
      var tail := Tail(m, s, {});
      var m' := if s !in base.Values && tail in oldIds && tail !in m then m[tail := s] else m;
      if s !in base.Values {
        var q := WalkFromHead(base, oldIds, m, [s], {});
        assert Reaches(base, s, tail);
        assert Extends(base, oldIds, m');
        CompleteFromExtends(base, oldIds, m', starts[1..]);
        var r := CompleteFrom(m, base.Values, oldIds, starts);
        assert ClosedFrom(base, oldIds, r, s);
      } else {
        CompleteFromExtends(base, oldIds, m', starts[1..]);
      }
    }
  }

  /** The chain that starts at `s` ends in a key of `r`, or outside the old ids. */
  ghost predicate ClosedFrom(base: map<string, string>, oldIds: set<string>, r: map<string, string>, s: string) {
    exists p :: Path(base, p) && p[0] == s && p[|p| - 1] !in base && (p[|p| - 1] in oldIds ==> p[|p| - 1] in r)
  }

  /** A path to an end of the map cannot be entered from one of its own elements. */
  lemma EntryIsNew(base: map<string, string>, p: seq<string>, k: string)
    requires Path(base, p) && p[|p| - 1] !in base
    requires k in base && base[k] == p[0]
    ensures k !in p
  {
    if k in p {
      var j :| 0 <= j < |p| && p[j] == k;
      TailPathUnique(base, p, p[j + 1..]);
    }
  }

  /** Walking an injective map backwards from an end of a chain reaches a head. */
  lemma {:induction false} HeadOfTail(base: map<string, string>, p: seq<string>, rest: set<string>)
    returns (q: seq<string>)
    requires Path(base, p) && p[|p| - 1] !in base && |p| > 1
    requires forall k :: k in base ==> k in p || k in rest
    ensures Path(base, q) && q[|q| - 1] == p[|p| - 1] && |q| > 1
    ensures q[0] in base && q[0] !in base.Values
    decreases rest
  {
    if p[0] !in base.Values {
      q := p;
    } else {
      var k :| k in base && base[k] == p[0];
      EntryIsNew(base, p, k);
      q := HeadOfTail(base, [k] + p, rest - {k});
    }
  }

  lemma EveryTailClosed(base: map<string, string>, oldIds: set<string>, r: map<string, string>)
    requires Extends(base, oldIds, r)
    requires forall s :: s in base && s !in base.Values ==> ClosedFrom(base, oldIds, r, s)
    ensures Completes(base, oldIds, r)
  {
    forall k | k in base.Values && k in oldIds && k !in base ensures k in r {
      var a :| a in base && base[a] == k;
      assert Path(base, [a, k]);
      var q := HeadOfTail(base, [a, k], base.Keys);
      var p :| Path(base, p) && p[0] == q[0] && p[|p| - 1] !in base && (p[|p| - 1] in oldIds ==> p[|p| - 1] in r);
      TailPathUnique(base, p, q);
    }
  }

  /** The loops close every chain, whatever the order in which the chains are visited. */
  lemma RemapsComplete(previous: seq<Profile>, current: seq<Profile>)
    requires WellFormed(previous) && WellFormed(current)
    ensures Completes(Direct(previous, current), Ids(previous), RemapsOf(previous, current))
  {
    var base := Direct(previous, current);
    DirectCharacterized(previous, current);
    DirectInjective(previous, current);
    CompleteFromExtends(base, Ids(previous), base, DirectOrder(previous, current));
    EveryTailClosed(base, Ids(previous), RemapsOf(previous, current));
  }

  /** `remaps.get(id, id)` */
  function Renamed(remaps: map<string, string>, id: string): string {
    Get(remaps, id, id)
  }

  lemma CompletedInjective(base: map<string, string>, oldIds: set<string>, r: map<string, string>)
    requires Injective(base) && Completes(base, oldIds, r)
    requires forall a :: a in base ==> a in oldIds && base[a] != a
    ensures Injective(r)
    ensures forall a :: a in r ==> r[a] != a
    ensures forall a, b :: a in oldIds && b in oldIds && Renamed(r, a) == Renamed(r, b) ==> a == b
  {
    forall a, b | a in r && b in r && r[a] == r[b] ensures a == b {
      if a !in base && b !in base {
        var p :| Path(base, p) && p[0] == r[a] && p[|p| - 1] == a;
        var q :| Path(base, q) && q[0] == r[b] && q[|q| - 1] == b;
        TailPathUnique(base, p, q);
      }
    }
  }

  /**
   The rename map of any two topologies: it is injective, no id maps to itself, no two previous
   accounts end up with one id, and every home that stays keeps its state under its new id.
   */
  lemma RemapsPermute(previous: seq<Profile>, current: seq<Profile>)
    requires WellFormed(previous) && WellFormed(current)
    ensures var r := RemapsOf(previous, current);
            && Injective(r)
            && (forall a :: a in r ==> a in Ids(previous) && r[a] != a)
            && (forall a, b :: a in Ids(previous) && b in Ids(previous) && Renamed(r, a) == Renamed(r, b) ==> a == b)
            && (forall p, q :: p in previous && q in current && p.home == q.home ==> Renamed(r, p.id) == q.id)
  {
    var base, r := Direct(previous, current), RemapsOf(previous, current);
    DirectInjective(previous, current);
    DirectCharacterized(previous, current);
    RemapsComplete(previous, current);
    CompletedInjective(base, Ids(previous), r);
    forall p, q | p in previous && q in current && p.home == q.home ensures Renamed(r, p.id) == q.id {
      SurvivorKeepsState(previous, current, r, p, q);
    }
  }

  lemma SurvivorKeepsState(previous: seq<Profile>, current: seq<Profile>, r: map<string, string>, p: Profile,
                           q: Profile)
    requires WellFormed(previous) && WellFormed(current)
    requires Completes(Direct(previous, current), Ids(previous), r)
    requires p in previous && q in current && p.home == q.home
    ensures Renamed(r, p.id) == q.id
  {
    var base := Direct(previous, current);
    DirectCharacterized(previous, current);
    assert Profile(p.id, p.home) == p && Profile(q.id, p.home) == q;
    if p.id != q.id {
      assert Moved(previous, current, p.id, q.id);
    } else {
      forall b ensures !Moved(previous, current, p.id, b) && !Moved(previous, current, b, p.id) {
        NobodyElseMoves(previous, current, p, b);
      }
      if p.id in r {
        assert p.id !in base;
        var c :| Path(base, c) && c[0] == r[p.id] && c[|c| - 1] == p.id;
        InteriorIsValue(base, c);
      }
    }
  }

  /** The id of an account that keeps both home and id takes no part in any rename. */
  lemma NobodyElseMoves(previous: seq<Profile>, current: seq<Profile>, p: Profile, b: string)
    requires WellFormed(previous) && WellFormed(current)
    requires p in previous && p in current
    ensures !Moved(previous, current, p.id, b) && !Moved(previous, current, b, p.id)
  {
  }

  /** `_validate_home_replacements` passes. */
  predicate KeepsAccounts(previous: seq<Profile>, current: seq<Profile>, remaps: map<string, string>) {
    forall p, q :: p in previous && q in current && p.id == q.id && p.home != q.home ==> q.id in remaps
  }

  /**
   No account that is new in `current` takes an id whose rename chain ends by displacing an account
   that `current` drops. A caller can check this before it asks for the transition.
   */
  predicate NoHeadReuse(previous: seq<Profile>, current: seq<Profile>) {
    forall q :: q in current ==> !ReusesHead(previous, current, q)
  }

  /** No previous account's state is handed to a different account. */
  ghost predicate NeverMisattributes(previous: seq<Profile>, current: seq<Profile>, remaps: map<string, string>) {
    forall p, q :: p in previous && q in current && Renamed(remaps, p.id) == q.id ==> p.home == q.home
  }

  lemma NewProfileHeadsItsChain(previous: seq<Profile>, current: seq<Profile>, q: Profile)
    requires WellFormed(previous) && WellFormed(current)
    requires q in current && q.home !in Homes(previous)
    ensures q.id !in Direct(previous, current).Values
  {
    var base := Direct(previous, current);
    DirectCharacterized(previous, current);
    forall a | a in base ensures base[a] != q.id {
      assert Moved(previous, current, a, base[a]);
      var h :| Profile(a, h) in previous && Profile(base[a], h) in current;
      assert h in Homes(previous) by { assert Profile(a, h).home == h; }
      if base[a] == q.id { SameProfile(current, q, Profile(base[a], h)); }
    }
  }

  /** A head's chain is closed onto the head exactly when its tail is an old id. */
  lemma HeadReceivesTail(base: map<string, string>, oldIds: set<string>, r: map<string, string>, head: string)
    requires Injective(base) && Completes(base, oldIds, r)
    requires head in base && head !in base.Values
    ensures Tail(base, head, {}) !in base
    ensures Tail(base, head, {}) in oldIds ==> Tail(base, head, {}) in r && r[Tail(base, head, {})] == head
    ensures forall k :: k in r && r[k] == head ==> k == Tail(base, head, {}) && k in oldIds
  {
    var w := WalkFromHead(base, oldIds, base, [head], {});
    var t := w[|w| - 1];
    InteriorIsValue(base, w);
    if t in oldIds {
      var c :| Path(base, c) && c[0] == r[t] && c[|c| - 1] == t;
      HeadPathUnique(base, c, w);
    }
    forall k | k in r && r[k] == head ensures k == t && k in oldIds {
      var c :| Path(base, c) && c[0] == r[k] && c[|c| - 1] == k;
      TailPathUnique(base, c, w);
    }
  }

  /** The validated rename map keeps every account's state away from other accounts exactly when no head is reused. */
  lemma AttributionExact(previous: seq<Profile>, current: seq<Profile>)
    requires WellFormed(previous) && WellFormed(current)
    requires KeepsAccounts(previous, current, RemapsOf(previous, current))
    ensures NeverMisattributes(previous, current, RemapsOf(previous, current)) <==> NoHeadReuse(previous, current)
  {
    var base, r := Direct(previous, current), RemapsOf(previous, current);
    DirectInjective(previous, current);
    RemapsComplete(previous, current);
    RemapsPermute(previous, current);
    forall p, q | p in previous && q in current && Renamed(r, p.id) == q.id && p.home != q.home
      ensures ReusesHead(previous, current, q)
    {
      MisattributionReusesHead(previous, current, r, p, q);
    }
    forall q | q in current && ReusesHead(previous, current, q)
      ensures exists p :: p in previous && Renamed(r, p.id) == q.id && p.home != q.home
    {
      NewProfileHeadsItsChain(previous, current, q);
      HeadReceivesTail(base, Ids(previous), r, q.id);
      var p :| p in previous && p.id == Tail(base, q.id, {});
      assert p.home in Homes(previous);
    }
  }

  predicate ReusesHead(previous: seq<Profile>, current: seq<Profile>, q: Profile) {
    var direct := Direct(previous, current);
    q.home !in Homes(previous) && q.id in direct && Tail(direct, q.id, {}) in Ids(previous)
  }

  lemma MisattributionReusesHead(previous: seq<Profile>, current: seq<Profile>, r: map<string, string>, p: Profile,
                                 q: Profile)
    requires WellFormed(previous) && WellFormed(current) && r == RemapsOf(previous, current)
    requires KeepsAccounts(previous, current, r)
    requires p in previous && q in current && Renamed(r, p.id) == q.id && p.home != q.home
    ensures ReusesHead(previous, current, q)
  {
    var base := Direct(previous, current);
    DirectInjective(previous, current);
    RemapsComplete(previous, current);
    RemapsPermute(previous, current);
    assert p.id in Ids(previous);
    if q.home in Homes(previous) {
      var o :| o in previous && o.home == q.home;
      assert o.id in Ids(previous);
      assert Renamed(r, o.id) == q.id;
      SameProfile(previous, o, p);
    } else {
      NewProfileHeadsItsChain(previous, current, q);
      assert p.id in r && p.id !in base;
      HeadReceivesTail(base, Ids(previous), r, q.id);
    }
  }

  /**
   The validator alone does not give this: here the account of "B" is dropped, "A" is renamed to
   "B", a new account takes the freed id "A", and the dropped account's state becomes that of "A".
   */
  lemma HeadReuseExample()
    ensures var previous := [Profile("A", "h1"), Profile("B", "h2")];
            var current := [Profile("B", "h1"), Profile("A", "h3")];
            && WellFormed(previous) && WellFormed(current)
            && KeepsAccounts(previous, current, RemapsOf(previous, current))
            && Renamed(RemapsOf(previous, current), "B") == "A"
  {
    var previous := [Profile("A", "h1"), Profile("B", "h2")];
    var current := [Profile("B", "h1"), Profile("A", "h3")];
    assert OwnerOf(previous[..1], "h1") == Some("A");
    assert OwnerOf(previous, "h1") == Some("A") && OwnerOf(previous, "h3") == None;
    assert current[..1] == [Profile("B", "h1")] && current[..1][..0] == [];
    assert Direct(previous, current[..1]) == map["A" := "B"];
    assert DirectOrder(previous, current[..1]) == ["A"];
    var base := Direct(previous, current);
    assert base == map["A" := "B"] && DirectOrder(previous, current) == ["A"];
    assert "A" in base && base["A"] == "B";
    assert base.Values == {"B"};
    assert Tail(base, "A", {}) == Tail(base, "B", {} + {"A"}) == "B";
    assert previous[1].id == "B";
    assert CompleteFrom(base, base.Values, Ids(previous), ["A"])
        == CompleteFrom(base["B" := "A"], base.Values, Ids(previous), []);
  }

  /** The dict-growing loops. */
  method Remaps(previous: seq<Profile>, current: seq<Profile>) returns (remaps: map<string, string>)
    requires WellFormed(previous) && WellFormed(current)
    ensures remaps == RemapsOf(previous, current)
  {
    remaps := Direct(previous, current);
    var starts := DirectOrder(previous, current);
    var oldIds := Ids(previous);
    var targets := remaps.Values;
    for i := 0 to |starts|
      invariant CompleteFrom(remaps, targets, oldIds, starts[i..]) == RemapsOf(previous, current)
    {
      var start := starts[i];
      assert starts[i..][0] == start && starts[i..][1..] == starts[i + 1..];
      if start in targets {
        continue;
      }
      var tail := start;
      var seen: set<string> := {};
      while tail in remaps && tail !in seen
        invariant Tail(remaps, tail, seen) == Tail(remaps, start, {})
        decreases |remaps.Keys - seen|
      {
        CardinalityDecreases(remaps.Keys - (seen + {tail}), remaps.Keys - seen);
        seen := seen + {tail};
        tail := remaps[tail];
      }
      if tail in oldIds && tail !in remaps {
        remaps := remaps[tail := start];
      }
    }
    assert starts[|starts|..] == [];
  }
}
