/**
 The rules of the snapshot in terms that the archive writer and the member check do not use: which
 trees are archived, by their shape alone; which member names are safe, by what a file system makes
 of the written path; which members are acceptable, by whether a writer could have produced them; and
 exactly when a snapshot is refused.
 */
module SnapshotRules {
  import opened Common
  import opened CheckpointArchive
  import S = SnapshotRestore

  // ----- which trees are archived -----

  function Bytes(t: Tree): nat
    decreases t
  {
    match t
    case File(_, data) => |data|
    case Dir(_, children) => BytesAll(children)
    case Special(_) => 0
  }

  function BytesAll(c: Children): nat
    decreases c
  {
    if c.Empty? then 0 else Bytes(c.node) + BytesAll(c.rest)
  }

  function Height(t: Tree): nat
    decreases t
  {
    if t.Dir? then 1 + HeightAll(t.children) else 1
  }

  function HeightAll(c: Children): nat
    decreases c
  {
    if c.Empty? then 0
    else if Height(c.node) >= HeightAll(c.rest) then Height(c.node) else HeightAll(c.rest)
  }

  /** Nothing but files and directories. */
  predicate Ordinary(t: Tree)
    decreases t
  {
    match t
    case File(_, _) => true
    case Dir(_, children) => OrdinaryAll(children)
    case Special(_) => false
  }

  predicate OrdinaryAll(c: Children)
    decreases c
  {
    c.More? ==> Ordinary(c.node) && OrdinaryAll(c.rest)
  }

  lemma {:induction false} TotalConcat(a: seq<Entry>, b: seq<Entry>)
    ensures TotalBytes(a + b) == TotalBytes(a) + TotalBytes(b)
    decreases |b|
  {
    if b == [] {
      assert a + b == a;
    } else {
      assert (a + b)[..|a + b| - 1] == a + b[..|b| - 1];
      TotalConcat(a, b[..|b| - 1]);
    }
  }

  lemma {:induction false} ListingBytes(p: Path, t: Tree)
    ensures TotalBytes(Listing(p, t)) == Bytes(t)
    decreases t, 1
  {
    var first := [Entry(p, t.meta, KindOf(t))];
    assert first[..0] == [];
    if t.Dir? {
      ListingAllBytes(p, t.children);
      TotalConcat(first, ListingAll(p, t.children));
    } else {
      assert Listing(p, t) == first;
    }
  }

  lemma {:induction false} ListingAllBytes(p: Path, c: Children)
    ensures TotalBytes(ListingAll(p, c)) == BytesAll(c)
    decreases c, 0
  {
    if c.More? {
      ListingBytes(Under(p, c.name), c.node);
      ListingAllBytes(p, c.rest);
      TotalConcat(Listing(Under(p, c.name), c.node), ListingAll(p, c.rest));
    }
  }

  lemma {:induction false} ListingCount(p: Path, t: Tree)
    ensures |Listing(p, t)| == Size(t) >= 1
    decreases t, 1
  {
    if t.Dir? {
      ListingAllCount(p, t.children);
    }
  }

  lemma {:induction false} ListingAllCount(p: Path, c: Children)
    ensures |ListingAll(p, c)| == SizeAll(c)
    decreases c, 0
  {
    if c.More? {
      ListingCount(Under(p, c.name), c.node);
      ListingAllCount(p, c.rest);
    }
  }

  predicate Shallow(s: seq<Entry>, limit: nat) {
    forall e :: e in s ==> Parts(e.path) <= limit
  }

  lemma {:induction false} ListingDepth(p: Path, t: Tree, limit: nat)
    ensures Shallow(Listing(p, t), limit) <==> Parts(p) + Height(t) <= limit + 1
    decreases t, 1
  {
    assert Listing(p, t)[0] in Listing(p, t);
    if t.Dir? {
      ListingAllDepth(p, t.children, limit);
      assert Shallow(Listing(p, t), limit) <==> Parts(p) <= limit && Shallow(ListingAll(p, t.children), limit);
    }
  }

  lemma {:induction false} ListingAllDepth(p: Path, c: Children, limit: nat)
    ensures Shallow(ListingAll(p, c), limit) <==> c.Empty? || Parts(p) + HeightAll(c) <= limit
    decreases c, 0
  {
    if c.More? {
      var here, there := Listing(Under(p, c.name), c.node), ListingAll(p, c.rest);
      ListingDepth(Under(p, c.name), c.node, limit);
      ListingAllDepth(p, c.rest, limit);
      assert Shallow(here + there, limit) <==> Shallow(here, limit) && Shallow(there, limit);
    }
  }

  predicate AllOrdinary(s: seq<Entry>) {
    forall e :: e in s ==> !e.kind.IsOther?
  }

  lemma {:induction false} ListingOrdinary(p: Path, t: Tree)
    ensures AllOrdinary(Listing(p, t)) <==> Ordinary(t)
    decreases t, 1
  {
    assert Listing(p, t)[0] in Listing(p, t);
    if t.Dir? {
      ListingAllOrdinary(p, t.children);
      assert AllOrdinary(Listing(p, t)) <==> AllOrdinary(ListingAll(p, t.children));
    }
  }

  lemma {:induction false} ListingAllOrdinary(p: Path, c: Children)
    ensures AllOrdinary(ListingAll(p, c)) <==> OrdinaryAll(c)
    decreases c, 0
  {
    if c.More? {
      var here, there := Listing(Under(p, c.name), c.node), ListingAll(p, c.rest);
      ListingOrdinary(Under(p, c.name), c.node);
      ListingAllOrdinary(p, c.rest);
      assert AllOrdinary(here + there) <==> AllOrdinary(here) && AllOrdinary(there);
    }
  }

  lemma {:induction false} ByEntry(s: seq<Entry>, limit: nat)
    ensures Shallow(s, limit) <==> forall i :: 0 <= i < |s| ==> Parts(s[i].path) <= limit
    ensures AllOrdinary(s) <==> NothingSpecial(s)
  {
    if forall i :: 0 <= i < |s| ==> Parts(s[i].path) <= limit {
      assert Shallow(s, limit);
    }
    if NothingSpecial(s) {
      forall e | e in s
        ensures !e.kind.IsOther?
      {
        var i :| 0 <= i < |s| && s[i] == e;
      }
    }
  }

  /** A tree is archived exactly when it is a directory of ordinary entries, not too many, too big or too deep. */
  lemma ArchivedExactly(t: Tree)
    ensures CanArchive(t) <==>
            t.Dir? && Size(t) <= 65536 && Bytes(t) <= 8589934592 && Height(t) <= 64 && Ordinary(t)
  {
    var p := Top(ROOT);
    var s := Listing(p, t);
    ListingCount(p, t);
    ListingBytes(p, t);
    ListingDepth(p, t, 64);
    ListingOrdinary(p, t);
    ByEntry(s, 64);
  }

  // ----- which member names are safe -----

  function Names(p: Path): seq<string> {
    match p
    case Top(n) => [n]
    case Under(q, n) => Names(q) + [n]
  }

  /** The path as the archive spells it. */
  function Written(p: Path): string {
    match p
    case Top(n) => n
    case Under(q, n) => Written(q) + ("/" + n)
  }

  function SplitSlash(s: string): (parts: seq<string>)
    ensures |parts| >= 1
  {
    if s == [] then [[]]
    else
      var more := SplitSlash(s[1..]);
      if s[0] == '/' then [[]] + more else [[s[0]] + more[0]] + more[1..]
  }

  /** Where a file system goes for one part of a path. */
  function Move(at: seq<string>, name: string): seq<string> {
    if name == "" || name == "." then at
    else if name == ".." then if at == [] then [] else at[..|at| - 1]
    else at + [name]
  }

  function Walk(names: seq<string>): (at: seq<string>)
    ensures |at| <= |names|
  {
    if names == [] then [] else Move(Walk(names[..|names| - 1]), names[|names| - 1])
  }

  lemma {:induction false} SplitJoin(a: string, b: string)
    ensures SplitSlash(a + ("/" + b)) == SplitSlash(a) + SplitSlash(b)
  {
    var s := a + ("/" + b);
    if a == [] {
      assert s[0] == '/' && s[1..] == b;
    } else {
      assert s[1..] == a[1..] + ("/" + b);
      SplitJoin(a[1..], b);
    }
  }

  lemma {:induction false} SplitName(n: string)
    ensures '/' !in n ==> SplitSlash(n) == [n]
    ensures '/' in n ==> |SplitSlash(n)| >= 2
  {
    if n != [] {
      assert n == [n[0]] + n[1..];
      SplitName(n[1..]);
    }
  }

  lemma {:induction false} SplitWritten(p: Path)
    ensures |SplitSlash(Written(p))| >= |Names(p)|
    ensures SplitSlash(Written(p)) == Names(p) <==>
            '/' !in p.name && (p.Under? ==> SplitSlash(Written(p.parent)) == Names(p.parent))
  {
    SplitName(p.name);
    if p.Under? {
      SplitWritten(p.parent);
      SplitJoin(Written(p.parent), p.name);
      SameFront(SplitSlash(Written(p.parent)), Names(p.parent), p.name);
    }
  }

  lemma {:induction false} SameFront(a: seq<string>, b: seq<string>, n: string)
    ensures a + [n] == b + [n] <==> a == b
  {
    assert (a + [n])[..|a + [n]| - 1] == a && (b + [n])[..|b + [n]| - 1] == b;
  }

  lemma {:induction false} WalkNames(p: Path)
    ensures Walk(Names(p)) == Names(p) <==>
            p.name != "" && p.name != "." && p.name != ".." && (p.Under? ==> Walk(Names(p.parent)) == Names(p.parent))
  {
    var names := Names(p);
    if p.Under? {
      assert names[..|names| - 1] == Names(p.parent);
    } else {
      assert names[..0] == [] && Walk([]) == [];
    }
  }

  /**
   The check lets a name through exactly when the file system reads the same parts in it and goes
   through all of them downwards.
   */
  lemma {:induction false} PlainExactly(p: Path)
    ensures PlainPath(p) <==> SplitSlash(Written(p)) == Names(p) == Walk(Names(p))
    ensures Parts(p) == |Names(p)| && First(p) == Names(p)[0]
  {
    SplitWritten(p);
    WalkNames(p);
    if p.Under? {
      PlainExactly(p.parent);
    }
  }

  // ----- which members are acceptable -----

  /** An entry below the root of the checkpoints that a backup would write. */
  ghost predicate Writable(e: Entry) {
    && !e.kind.IsOther? && PlainPath(e.path) && First(e.path) == "codex-checkpoints" && Parts(e.path) <= 64
    && (Parts(e.path) == 1 ==> e.kind.IsDir?)
  }

  /** An acceptable member is one a backup could have written, but for the size it claims. */
  lemma SafeExactly(m: Member)
    ensures SafeMember(m) <==>
            m.size >= 0 && exists e: Entry :: Writable(e) && MemberOf(e) == m.(size := SizeOf(m.kind))
  {
    if SafeMember(m) {
      var e := Entry(m.path, Meta(m.mode, Owner(m.uid, m.gid)), m.kind);
      assert Writable(e) && MemberOf(e) == m.(size := SizeOf(m.kind));
    }
    if e: Entry :| m.size >= 0 && Writable(e) && MemberOf(e) == m.(size := SizeOf(m.kind)) {
      assert m.path == e.path && m.kind == e.kind && m.mode == e.meta.mode % 512;
    }
  }

  /** A directory may be entered exactly while it and everything above it are open. */
  lemma {:induction false} EnterableExactly(nodes: map<Path, Node>, p: Path)
    ensures Enterable(nodes, p) <==> forall q :: Below(q, p) ==> q in nodes && nodes[q] == Open
  {
    assert Below(p, p);
    if p.Under? {
      EnterableExactly(nodes, p.parent);
      assert forall q :: Below(q, p) <==> q == p || Below(q, p.parent);
    }
  }

  // ----- when a snapshot is refused -----

  /** Permission bits for the owner and nobody else. */
  lemma PrivateExactly(m: Meta)
    ensures S.Private(m) <==> exists k: nat :: k < 8 && m.mode == 64 * k
  {
    if S.Private(m) {
      assert m.mode == 64 * (m.mode / 64);
    }
  }

  const KIB := 1024
  const MIB := 1048576

  /** The most bytes of each state file. */
  function LimitOf(n: nat): nat {
    if n == 2 || n >= 11 then 64 * KIB
    else if n <= 3 then MIB
    else if n == 4 || n == 7 then 2 * MIB
    else if n == 8 || n == 9 then 16 * MIB
    else 4 * MIB
  }

  ghost predicate BadDatabase(sqlite: S.Sqlite, d: S.Disk, e: S.Engine) {
    match S.Lookup(d, S.Database(e))
    case None => false
    case Some(Irregular) => true
    case Some(Regular(_, data)) => sqlite(data, S.Lookup(d, S.Wal(e))).None?
  }

  ghost predicate BadStore(d: S.Disk, n: nat) {
    match S.Lookup(d, S.Store(n))
    case None => false
    case Some(Irregular) => true
    case Some(Regular(meta, data)) => |data| > LimitOf(n) || forall k: nat :: k < 8 ==> meta.mode != 64 * k
  }

  ghost predicate BadCheckpoints(d: S.Disk) {
    match d.checkpoints
    case NoTree => false
    case Blocked => true
    case Live(t) => !CanArchive(t)
  }

  lemma LimitsAre()
    ensures |S.STORE_LIMITS| == 15 && forall n: nat :: n < 15 ==> S.STORE_LIMITS[n] == LimitOf(n)
  {
  }

  lemma BadStoreExactly(d: S.Disk, n: nat)
    requires n < 15 && S.Store(n) in d.files
    ensures BadStore(d, n) <==>
            !(var i := d.files[S.Store(n)]; i.Regular? && S.Private(i.meta) && |i.data| <= S.STORE_LIMITS[n])
  {
    LimitsAre();
    var i := d.files[S.Store(n)];
    if i.Regular? {
      PrivateExactly(i.meta);
    }
  }

  /** Nothing else keeps a snapshot from being taken; files that do not exist do not. */
  lemma RefusedExactly(sqlite: S.Sqlite, d: S.Disk)
    ensures !S.Capturable(sqlite, d) <==>
            (exists e :: BadDatabase(sqlite, d, e)) || (exists n: nat :: n < 15 && BadStore(d, n)) || BadCheckpoints(d)
  {
    forall n: nat | n < 15 && S.Store(n) in d.files
      ensures BadStore(d, n) <==>
              !(var i := d.files[S.Store(n)]; i.Regular? && S.Private(i.meta) && |i.data| <= S.STORE_LIMITS[n])
    {
      BadStoreExactly(d, n);
    }
    forall e
      ensures BadDatabase(sqlite, d, e) <==>
              S.Database(e) in d.files &&
              !(d.files[S.Database(e)].Regular? &&
                sqlite(d.files[S.Database(e)].data, S.Lookup(d, S.Wal(e))).Some?)
    {
    }
    LimitsAre();
  }

  /** Restoring gives a file the owner it had exactly when the user may do that. */
  lemma OwnerExactly(user: S.User, m: Meta, data: seq<bv8>)
    ensures S.MayOwn(user, m) <==> S.Restored(user, S.Saved(m, data)) == S.Regular(m, data)
    ensures user.privileged ==> S.MayOwn(user, m)
    ensures !user.privileged ==> S.Restored(user, S.Saved(m, data)) == S.Regular(m.(owner := user.me), data)
  {
  }
}
