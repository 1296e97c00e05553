/**
 The checkpoint tree inside a release snapshot: a directory tree is written to an archive one entry
 at a time under three limits, an untrusting loop checks the members of an archive, and a restore
 rebuilds the tree in a private staging directory before it is moved into place.

 The main results tie the three together. A tree is archived exactly when it keeps the limits; every
 archive so written passes the member check; and the rebuilt tree has exactly the entries of the
 original, with the permission bits beyond 0777 dropped and, for an unprivileged restore, the owner
 replaced. It is identical exactly when no entry uses those.
 */
module CheckpointArchive {
  import opened Common

  type Bytes = seq<bv8>

  const ROOT := "codex-checkpoints"
  const MAX_ENTRIES := 65536
  const MAX_BYTES := 8 * 1024 * 1024 * 1024
  const MAX_PARTS := 64
  const MODE_BITS := 512

  /** A relative path as its parts, the last one outermost. */
  datatype Path = Top(name: string) | Under(parent: Path, name: string)

  datatype Owner = Owner(uid: nat, gid: nat)

  /** Permission bits and owner of one entry. */
  datatype Meta = Meta(mode: nat, owner: Owner)

  datatype Tree = File(meta: Meta, data: Bytes) | Dir(meta: Meta, children: Children) | Special(meta: Meta)

  /** The entries of a directory in the order of the sorted listing. */
  datatype Children = Empty | More(name: string, node: Tree, rest: Children)

  /** What an entry is, without the entries below it. */
  datatype Kind = IsDir | IsFile(data: Bytes) | IsOther

  datatype Entry = Entry(path: Path, meta: Meta, kind: Kind)

  datatype Error = ExceedsLimits | RefusesSpecial | RootNotDirectory | UnsafeMember

  function Parts(p: Path): (n: nat)
    ensures n >= 1
  {
    match p
    case Top(_) => 1
    case Under(q, _) => Parts(q) + 1
  }

  function First(p: Path): string {
    match p
    case Top(n) => n
    case Under(q, _) => First(q)
  }

  /** A part that is no empty string, no "." or "..", and holds no separator. */
  predicate PlainName(n: string) {
    n != "" && n != "." && n != ".." && '/' !in n
  }

  predicate PlainPath(p: Path) {
    PlainName(p.name) && (p.Under? ==> PlainPath(p.parent))
  }

  /** q is p or lies below it. */
  predicate Below(p: Path, q: Path)
    decreases q
  {
    p == q || (q.Under? && Below(p, q.parent))
  }

  // ----- a tree as a listing, and a tree as a lookup -----

  function KindOf(t: Tree): Kind {
    match t
    case File(_, d) => IsFile(d)
    case Dir(_, _) => IsDir
    case Special(_) => IsOther
  }

  /** The entries of a tree in the order in which the archive writer visits them. */
  function Listing(p: Path, t: Tree): (s: seq<Entry>)
    ensures |s| >= 1 && s[0] == Entry(p, t.meta, KindOf(t))
    decreases t, 1
  {
    [Entry(p, t.meta, KindOf(t))] + if t.Dir? then ListingAll(p, t.children) else []
  }

  function ListingAll(p: Path, c: Children): seq<Entry>
    decreases c, 0
  {
    match c
    case Empty => []
    case More(n, t, rest) => Listing(Under(p, n), t) + ListingAll(p, rest)
  }

  function Child(c: Children, n: string): Option<Tree> {
    match c
    case Empty => None
    case More(m, t, rest) => if m == n then Some(t) else Child(rest, n)
  }

  /** What a tree holds at a path. */
  function Find(root: Tree, p: Path): Option<Tree> {
    match p
    case Top(n) => if n == ROOT then Some(root) else None
    case Under(q, n) =>
      var above := Find(root, q);
      if above.Some? && above.value.Dir? then Child(above.value.children, n) else None
  }

  /** What a file system guarantees of a directory: its names are plain and no two are equal. */
  predicate ProperTree(t: Tree) {
    t.Dir? ==> ProperChildren(t.children)
  }

  predicate ProperChildren(c: Children) {
    match c
    case Empty => true
    case More(n, t, rest) => PlainName(n) && Child(rest, n).None? && ProperTree(t) && ProperChildren(rest)
  }

  /** The suffix order on the entries of one directory. */
  predicate Tail(c: Children, d: Children) {
    c == d || (d.More? && Tail(c, d.rest))
  }

  lemma {:induction false} ChildOfTail(c: Children, d: Children, n: string)
    requires ProperChildren(d) && Tail(c, d) && Child(c, n).Some?
    ensures Child(d, n) == Child(c, n)
  {
    if c != d {
      ChildOfTail(c, d.rest, n);
    }
  }

  lemma {:induction false} TailOfTail(c: Children, d: Children)
    requires Tail(c, d) && c.More?
    ensures Tail(c.rest, d)
  {
    if c == d {
      assert Tail(d.rest, d.rest);
    } else {
      TailOfTail(c, d.rest);
    }
  }

  lemma {:induction false} ChildProper(c: Children, n: string)
    requires ProperChildren(c) && Child(c, n).Some?
    ensures ProperTree(Child(c, n).value) && PlainName(n)
  {
    if c.name != n {
      ChildProper(c.rest, n);
    }
  }

  lemma {:induction false} FoundProper(root: Tree, p: Path)
    requires ProperTree(root) && Find(root, p).Some?
    ensures ProperTree(Find(root, p).value) && PlainPath(p) && First(p) == ROOT
  {
    match p
    case Top(_) =>
    case Under(q, n) =>
      FoundProper(root, q);
      ChildProper(Find(root, q).value.children, n);
  }

  ghost predicate Lists(root: Tree, e: Entry) {
    var at := Find(root, e.path);
    at.Some? && e.meta == at.value.meta && e.kind == KindOf(at.value)
  }

  lemma {:induction false} ListedIsFound(root: Tree, p: Path, t: Tree)
    requires ProperTree(root) && Find(root, p) == Some(t)
    ensures forall e :: e in Listing(p, t) ==> Lists(root, e)
    decreases t, 1
  {
    if t.Dir? {
      FoundProper(root, p);
      assert Tail(t.children, t.children);
      ListedAllAreFound(root, p, t, t.children);
    }
  }

  lemma {:induction false} ListedAllAreFound(root: Tree, p: Path, t: Tree, c: Children)
    requires ProperTree(root) && Find(root, p) == Some(t) && t.Dir?
    requires ProperChildren(t.children) && Tail(c, t.children)
    ensures forall e :: e in ListingAll(p, c) ==> Lists(root, e)
    decreases c, 0
  {
    match c
    case Empty =>
    case More(n, u, rest) =>
      ChildOfTail(c, t.children, n);
      ListedIsFound(root, Under(p, n), u);
      TailOfTail(c, t.children);
      ListedAllAreFound(root, p, t, rest);
  }

  lemma {:induction false} ChildListed(p: Path, c: Children, n: string)
    requires Child(c, n).Some?
    ensures forall e :: e in Listing(Under(p, n), Child(c, n).value) ==> e in ListingAll(p, c)
  {
    if c.name != n {
      ChildListed(p, c.rest, n);
    }
  }

  lemma {:induction false} SubtreeListed(root: Tree, p: Path)
    requires Find(root, p).Some?
    ensures forall e :: e in Listing(p, Find(root, p).value) ==> e in Listing(Top(ROOT), root)
  {
    match p
    case Top(_) =>
    case Under(q, n) =>
      SubtreeListed(root, q);
      ChildListed(q, Find(root, q).value.children, n);
  }

  /** The listing names exactly the entries that a lookup by path finds, with what it finds there. */
  lemma ListingIsLookup(root: Tree, e: Entry)
    requires ProperTree(root)
    ensures e in Listing(Top(ROOT), root) <==> Lists(root, e)
  {
    ListedIsFound(root, Top(ROOT), root);
    if Lists(root, e) {
      SubtreeListed(root, e.path);
    }
  }

  // ----- order and distinctness of the listing -----

  predicate Distinct(s: seq<Entry>) {
    forall i, j :: 0 <= i < j < |s| ==> s[i].path != s[j].path
  }

  /** Every entry other than base lies in a directory that is base or is listed before it. */
  ghost predicate ParentsFirst(s: seq<Entry>, base: Path) {
    forall i :: 0 <= i < |s| ==> s[i].path.Under? && (s[i].path.parent == base || DirBefore(s, i, s[i].path.parent))
  }

  ghost predicate DirBefore(s: seq<Entry>, i: nat, p: Path)
    requires i <= |s|
  {
    exists j :: 0 <= j < i && s[j].path == p && s[j].kind.IsDir?
  }

  lemma {:induction false} BelowParts(p: Path, q: Path)
    requires Below(p, q)
    ensures Parts(p) <= Parts(q) && (Parts(p) == Parts(q) ==> p == q)
  {
    if p != q {
      BelowParts(p, q.parent);
    }
  }

  lemma {:induction false} BelowSiblings(p: Path, a: string, b: string, q: Path)
    requires Below(Under(p, a), q) && Below(Under(p, b), q)
    ensures a == b
  {
    BelowParts(Under(p, a), q);
    BelowParts(Under(p, b), q);
    if q != Under(p, a) && q != Under(p, b) {
      BelowSiblings(p, a, b, q.parent);
    }
  }

  lemma {:induction false} BelowUp(p: Path, n: string, q: Path)
    requires Below(Under(p, n), q)
    ensures Below(p, q) && q != p
  {
    BelowParts(Under(p, n), q);
    if q == Under(p, n) {
      assert Below(p, p);
    } else {
      BelowUp(p, n, q.parent);
    }
  }

  /** Some child of the directory listed here has this entry at or below it. */
  ghost predicate InChild(p: Path, c: Children, q: Path) {
    exists n :: Child(c, n).Some? && Below(Under(p, n), q)
  }

  lemma {:induction false} ListedBelow(p: Path, t: Tree)
    ensures forall e :: e in Listing(p, t) ==> Below(p, e.path)
    decreases t, 1
  {
    if t.Dir? {
      ListedInChild(p, t.children);
      forall e | e in ListingAll(p, t.children)
        ensures Below(p, e.path)
      {
        var n :| Child(t.children, n).Some? && Below(Under(p, n), e.path);
        BelowUp(p, n, e.path);
      }
    }
  }

  lemma {:induction false} ListedInChild(p: Path, c: Children)
    ensures forall e :: e in ListingAll(p, c) ==> InChild(p, c, e.path)
    decreases c, 0
  {
    match c
    case Empty =>
    case More(n, t, rest) =>
      ListedBelow(Under(p, n), t);
      ListedInChild(p, rest);
      forall e | e in ListingAll(p, c)
        ensures InChild(p, c, e.path)
      {
        if e in Listing(Under(p, n), t) {
          assert Child(c, n).Some? && Below(Under(p, n), e.path);
        } else {
          var m :| Child(rest, m).Some? && Below(Under(p, m), e.path);
          assert Child(c, m).Some?;
        }
      }
  }

  lemma {:induction false} ListingDistinct(p: Path, t: Tree)
    requires ProperTree(t)
    ensures Distinct(Listing(p, t))
    decreases t, 1
  {
    if t.Dir? {
      ListingAllDistinct(p, t.children);
      ListedInChild(p, t.children);
      var below := ListingAll(p, t.children);
      forall e | e in below
        ensures e.path != p
      {
        var n :| Child(t.children, n).Some? && Below(Under(p, n), e.path);
        BelowUp(p, n, e.path);
      }
      assert forall j :: 0 <= j < |below| ==> below[j] in below;
    }
  }

  lemma {:induction false} ListingAllDistinct(p: Path, c: Children)
    requires ProperChildren(c)
    ensures Distinct(ListingAll(p, c))
    decreases c, 0
  {
    match c
    case Empty =>
    case More(n, t, rest) =>
      var here, there := Listing(Under(p, n), t), ListingAll(p, rest);
      ListingDistinct(Under(p, n), t);
      ListingAllDistinct(p, rest);
      ListedBelow(Under(p, n), t);
      ListedInChild(p, rest);
      forall i, j | 0 <= i < |here| && 0 <= j < |there|
        ensures here[i].path != there[j].path
      {
        assert here[i] in here && there[j] in there;
        var m :| Child(rest, m).Some? && Below(Under(p, m), there[j].path);
        if here[i].path == there[j].path {
          BelowSiblings(p, n, m, here[i].path);
        }
      }
  }

  lemma {:induction false} ListingParentsFirst(p: Path, t: Tree)
    requires ProperTree(t)
    ensures forall i :: 1 <= i < |Listing(p, t)| ==>
                          Listing(p, t)[i].path.Under? && DirBefore(Listing(p, t), i, Listing(p, t)[i].path.parent)
    decreases t, 1
  {
    if t.Dir? {
      ListingAllParentsFirst(p, t.children);
      var s, below := Listing(p, t), ListingAll(p, t.children);
      forall i | 1 <= i < |s|
        ensures s[i].path.Under? && DirBefore(s, i, s[i].path.parent)
      {
        assert s[i] == below[i - 1];
        if s[i].path.parent == p {
          assert s[0].path == p && s[0].kind.IsDir?;
        } else {
          var j :| 0 <= j < i - 1 && below[j].path == s[i].path.parent && below[j].kind.IsDir?;
          assert s[j + 1] == below[j];
        }
      }
    }
  }

  lemma {:induction false} ListingAllParentsFirst(p: Path, c: Children)
    requires ProperChildren(c)
    ensures ParentsFirst(ListingAll(p, c), p)
    decreases c, 0
  {
    match c
    case Empty =>
    case More(n, t, rest) =>
      var here, there := Listing(Under(p, n), t), ListingAll(p, rest);
      ListingParentsFirst(Under(p, n), t);
      ListingAllParentsFirst(p, rest);
      ParentsFirstJoin(here, there, p);
  }

  lemma {:induction false} ParentsFirstJoin(a: seq<Entry>, b: seq<Entry>, p: Path)
    requires |a| >= 1 && a[0].path.Under? && a[0].path.parent == p
    requires forall i :: 1 <= i < |a| ==> a[i].path.Under? && DirBefore(a, i, a[i].path.parent)
    requires ParentsFirst(b, p)
    ensures ParentsFirst(a + b, p)
  {
    var s := a + b;
    forall i | 0 <= i < |s|
      ensures s[i].path.Under? && (s[i].path.parent == p || DirBefore(s, i, s[i].path.parent))
    {
      if 1 <= i < |a| {
        var j :| 0 <= j < i && a[j].path == a[i].path.parent && a[j].kind.IsDir?;
        assert s[j] == a[j];
      } else if |a| <= i && b[i - |a|].path.parent != p {
        var k := i - |a|;
        assert DirBefore(b, k, b[k].path.parent);
        var j :| 0 <= j < k && b[j].path == b[k].path.parent && b[j].kind.IsDir?;
        assert s[|a| + j] == b[j];
      }
    }
  }

  // ----- writing the archive -----

  /** One archive member; a foreign archive may claim any numbers. */
  datatype Member = Member(path: Path, mode: int, uid: int, gid: int, size: int, kind: Kind)

  function SizeOf(k: Kind): nat {
    if k.IsFile? then |k.data| else 0
  }

  function MemberOf(e: Entry): Member {
    Member(e.path, e.meta.mode % MODE_BITS, e.meta.owner.uid, e.meta.owner.gid, SizeOf(e.kind), e.kind)
  }

  function Members(s: seq<Entry>): (ms: seq<Member>)
    ensures |ms| == |s| && forall i :: 0 <= i < |s| ==> ms[i] == MemberOf(s[i])
  {
    seq(|s|, i requires 0 <= i < |s| => MemberOf(s[i]))
  }

  function TotalBytes(s: seq<Entry>): nat {
    if s == [] then 0 else TotalBytes(s[..|s| - 1]) + SizeOf(s[|s| - 1].kind)
  }

  /** The limits alone. */
  predicate WithinLimits(s: seq<Entry>) {
    && |s| <= MAX_ENTRIES
    && TotalBytes(s) <= MAX_BYTES
    && forall i :: 0 <= i < |s| ==> Parts(s[i].path) <= MAX_PARTS
  }

  predicate NothingSpecial(s: seq<Entry>) {
    forall i :: 0 <= i < |s| ==> !s[i].kind.IsOther?
  }

  datatype Progress = Progress(count: nat, total: nat, members: seq<Member>, failed: Option<Error>)

  function Visit(s: Progress, e: Entry): Progress {
    if s.failed.Some? then s else
      var t := s.(count := s.count + 1, total := s.total + SizeOf(e.kind));
      if t.count > MAX_ENTRIES || t.total > MAX_BYTES || Parts(e.path) > MAX_PARTS
         then t.(failed := Some(ExceedsLimits))
      else if e.kind.IsOther? then t.(failed := Some(RefusesSpecial))
      else t.(members := s.members + [MemberOf(e)])
  }

  function VisitAll(s: Progress, es: seq<Entry>): Progress {
    if es == [] then s else Visit(VisitAll(s, es[..|es| - 1]), es[|es| - 1])
  }

  lemma {:induction false} VisitJoin(s: Progress, a: seq<Entry>, b: seq<Entry>)
    ensures VisitAll(s, a + b) == VisitAll(VisitAll(s, a), b)
    decreases |b|
  {
    if b == [] {
      assert a + b == a;
    } else {
      var c := a + b;
      assert c[..|c| - 1] == a + b[..|b| - 1];
      VisitJoin(s, a, b[..|b| - 1]);
    }
  }

  lemma {:induction false} FailedStays(s: Progress, es: seq<Entry>)
    requires s.failed.Some?
    ensures VisitAll(s, es) == s
    decreases |es|
  {
    if es != [] {
      FailedStays(s, es[..|es| - 1]);
    }
  }

  /** How far the writer gets: to the end within the limits, or to the first entry that breaks one or is special. */
  ghost predicate StopsAt(es: seq<Entry>, i: nat, why: Error) {
    && i < |es|
    && WithinLimits(es[..i]) && NothingSpecial(es[..i])
    && (if WithinLimits(es[..i + 1]) then es[i].kind.IsOther? && why == RefusesSpecial else why == ExceedsLimits)
  }

  const START := Progress(0, 0, [], None)

  lemma {:induction false} LimitsOfPrefix(es: seq<Entry>, i: nat)
    requires i <= |es| && WithinLimits(es)
    ensures WithinLimits(es[..i])
    decreases |es|
  {
    if i == |es| {
      assert es[..i] == es;
    } else {
      var front := es[..|es| - 1];
      assert front[..i] == es[..i];
      LimitsOfPrefix(front, i);
    }
  }

  lemma {:induction false} VisitExact(es: seq<Entry>)
    ensures var s := VisitAll(START, es);
            if WithinLimits(es) && NothingSpecial(es)
            then s == Progress(|es|, TotalBytes(es), Members(es), None)
            else s.failed.Some? && exists i: nat :: StopsAt(es, i, s.failed.value)
    decreases |es|
  {
    if es != [] {
      var front, last := es[..|es| - 1], es[|es| - 1];
      VisitExact(front);
      if WithinLimits(front) && NothingSpecial(front) {
        assert es[..|es|] == es;
        if WithinLimits(es) && NothingSpecial(es) {
          assert Members(es) == Members(front) + [MemberOf(last)];
        } else {
          VisitLast(es);
        }
      } else {
        var why := VisitAll(START, front).failed.value;
        var i: nat :| StopsAt(front, i, why);
        assert front[..i] == es[..i] && front[..i + 1] == es[..i + 1];
        assert StopsAt(es, i, why);
        if WithinLimits(es) {
          LimitsOfPrefix(es, |es| - 1);
        }
      }
    }
  }

  lemma {:induction false} VisitLast(es: seq<Entry>)
    requires es != []
    requires var front := es[..|es| - 1];
             WithinLimits(front) && NothingSpecial(front) &&
             VisitAll(START, front) == Progress(|front|, TotalBytes(front), Members(front), None)
    requires !(WithinLimits(es) && NothingSpecial(es))
    ensures var s := VisitAll(START, es);
            s.failed.Some? && StopsAt(es, |es| - 1, s.failed.value)
  {
    var last := es[|es| - 1];
    assert es[..|es|] == es;
    assert forall i :: 0 <= i < |es| - 1 ==> es[i] == es[..|es| - 1][i];
  }

  function Size(t: Tree): nat
    decreases t
  {
    1 + if t.Dir? then SizeAll(t.children) else 0
  }

  function SizeAll(c: Children): nat
    decreases c
  {
    if c.Empty? then 0 else Size(c.node) + SizeAll(c.rest)
  }

  /** The recursive writer with its two counters. */
  class Archiver {
    var count: nat
    var total: nat
    var members: seq<Member>

    constructor ()
      ensures Now(None) == START
    {
      count, total, members := 0, 0, [];
    }

    ghost function Now(failed: Option<Error>): Progress
      reads this
    {
      Progress(count, total, members, failed)
    }

    /** Adds one entry and, for a directory, everything below it. */
    method Add(p: Path, t: Tree) returns (failed: Option<Error>)
      modifies this
      ensures Now(failed) == VisitAll(old(Now(None)), Listing(p, t))
      decreases Size(t)
    {
      ghost var start := Now(None);
      ghost var entry := Entry(p, t.meta, KindOf(t));
      assert VisitAll(start, [entry]) == Visit(start, entry) by {
        assert [entry][..0] == [];
      }
      ghost var below := if t.Dir? then ListingAll(p, t.children) else [];
      VisitJoin(start, [entry], below);
      count := count + 1;
      total := total + SizeOf(KindOf(t));
      if count > MAX_ENTRIES || total > MAX_BYTES || Parts(p) > MAX_PARTS {
        FailedStays(Visit(start, entry), below);
        return Some(ExceedsLimits);
      }
      match t {
        case Special(_) =>
          return Some(RefusesSpecial);
        case File(m, d) =>
          members := members + [Member(p, m.mode % MODE_BITS, m.owner.uid, m.owner.gid, |d|, IsFile(d))];
          return None;
        case Dir(m, children) =>
          members := members + [Member(p, m.mode % MODE_BITS, m.owner.uid, m.owner.gid, 0, IsDir)];
          var c := children;
          while c.More?
            invariant VisitAll(Visit(start, entry), below) == VisitAll(Now(None), ListingAll(p, c))
            invariant SizeAll(c) < Size(t)
            decreases c
          {
            ghost var here, there := Listing(Under(p, c.name), c.node), ListingAll(p, c.rest);
            VisitJoin(Now(None), here, there);
            failed := Add(Under(p, c.name), c.node);
            if failed.Some? {
              FailedStays(Now(failed), there);
              return;
            }
            c := c.rest;
          }
          return None;
      }
    }
  }

  /** The backup of the checkpoint root: nothing there, an archive, or the reason why there is none. */
  method BackupCheckpoints(root: Option<Tree>) returns (r: Result<Option<seq<Member>>, Error>)
    ensures root.None? ==> r == Ok(None)
    ensures root.Some? && !root.value.Dir? ==> r == Err(RootNotDirectory)
    ensures root.Some? && root.value.Dir? ==>
              (r.Ok? <==> CanArchive(root.value)) &&
              (r.Ok? ==> r.value == Some(Members(Listing(Top(ROOT), root.value)))) &&
              (r.Err? ==> exists i: nat :: StopsAt(Listing(Top(ROOT), root.value), i, r.error))
  {
    match root {
      case None =>
        return Ok(None);
      case Some(t) =>
        if !t.Dir? {
          return Err(RootNotDirectory);
        }
        var archiver := new Archiver();
        var failed := archiver.Add(Top(ROOT), t);
        VisitExact(Listing(Top(ROOT), t));
        if failed.Some? {
          return Err(failed.value);
        }
        return Ok(Some(archiver.members));
    }
  }

  /** The trees a backup accepts: directories within the limits that hold nothing but files and directories. */
  predicate CanArchive(t: Tree) {
    t.Dir? && WithinLimits(Listing(Top(ROOT), t)) && NothingSpecial(Listing(Top(ROOT), t))
  }

  // ----- checking an archive -----

  function ClaimedBytes(ms: seq<Member>): int {
    if ms == [] then 0 else ClaimedBytes(ms[..|ms| - 1]) + ms[|ms| - 1].size
  }

  predicate SafeMember(m: Member) {
    && First(m.path) == ROOT && PlainPath(m.path) && Parts(m.path) <= MAX_PARTS
    && m.size >= 0 && !m.kind.IsOther?
    && 0 <= m.mode < MODE_BITS && m.uid >= 0 && m.gid >= 0
    && (m.path.Top? ==> m.kind.IsDir?)
  }

  ghost predicate MadeBefore(ms: seq<Member>, i: nat, p: Path)
    requires i <= |ms|
  {
    exists j :: 0 <= j < i && ms[j].path == p && ms[j].kind.IsDir?
  }

  /**
   The directory of this member came before it; a name of its own, so that its witness is asked for only on demand.
   */
  ghost predicate ParentMade(ms: seq<Member>, i: nat)
    requires i < |ms|
  {
    ms[i].path.Under? ==> MadeBefore(ms, i, ms[i].path.parent)
  }

  /** What an archive must be: safe members, none twice, each below a directory that came before it. */
  ghost predicate Accepted(ms: seq<Member>) {
    && 1 <= |ms| <= MAX_ENTRIES && ClaimedBytes(ms) <= MAX_BYTES
    && (forall i :: 0 <= i < |ms| ==> SafeMember(ms[i]))
    && (forall i, j :: 0 <= i < j < |ms| ==> ms[i].path != ms[j].path)
    && (forall i: nat :: i < |ms| ==> ParentMade(ms, i))
  }

  /** The check of one member against what the loop has collected so far. */
  predicate Admits(seen: set<Path>, directories: set<Path>, total: int, m: Member) {
    && SafeMember(m)
    && m.path !in seen && |seen| < MAX_ENTRIES
    && total <= MAX_BYTES
    && (m.path.Under? ==> m.path.parent in directories)
  }

  ghost predicate HasPaths(ms: seq<Member>, i: nat, seen: set<Path>)
    requires i <= |ms|
  {
    |seen| == i && forall p :: p in seen <==> exists j :: 0 <= j < i && ms[j].path == p
  }

  ghost predicate HasDirectories(ms: seq<Member>, i: nat, directories: set<Path>)
    requires i <= |ms|
  {
    forall p :: p in directories <==> MadeBefore(ms, i, p)
  }

  ghost predicate SafeEach(ms: seq<Member>, i: nat)
    requires i <= |ms|
  {
    && (forall k :: 0 <= k < i ==> SafeMember(ms[k]))
    && (forall k, l :: 0 <= k < l < i ==> ms[k].path != ms[l].path)
  }

  ghost predicate ParentsMade(ms: seq<Member>, i: nat)
    requires i <= |ms|
  {
    forall k: nat :: k < i ==> ParentMade(ms, k)
  }

  /** What the loop has collected after the first i members. */
  ghost predicate Collected(ms: seq<Member>, i: nat, seen: set<Path>, directories: set<Path>, total: int)
    requires i <= |ms|
  {
    && i <= MAX_ENTRIES && total == ClaimedBytes(ms[..i]) && (i == 0 || total <= MAX_BYTES)
    && HasPaths(ms, i, seen) && HasDirectories(ms, i, directories)
    && SafeEach(ms, i) && ParentsMade(ms, i)
  }

  lemma {:induction false} ClaimedPrefix(ms: seq<Member>, i: nat)
    requires i <= |ms| && forall k :: 0 <= k < |ms| ==> ms[k].size >= 0
    ensures ClaimedBytes(ms[..i]) <= ClaimedBytes(ms)
    decreases |ms|
  {
    if i == |ms| {
      assert ms[..i] == ms;
    } else {
      var front := ms[..|ms| - 1];
      assert front[..i] == ms[..i];
      ClaimedPrefix(front, i);
    }
  }

  lemma ClaimedNext(ms: seq<Member>, i: nat)
    requires i < |ms|
    ensures ClaimedBytes(ms[..i + 1]) == ClaimedBytes(ms[..i]) + ms[i].size
  {
    assert ms[..i + 1][..i] == ms[..i];
  }

  lemma CollectPaths(ms: seq<Member>, i: nat, seen: set<Path>)
    requires i < |ms| && HasPaths(ms, i, seen) && ms[i].path !in seen
    ensures HasPaths(ms, i + 1, seen + {ms[i].path})
  {
    forall p
      ensures p in seen + {ms[i].path} <==> exists j :: 0 <= j < i + 1 && ms[j].path == p
    {
      if p == ms[i].path {
      } else if p in seen {
        var j :| 0 <= j < i && ms[j].path == p;
      }
    }
  }

  function WithDirectory(directories: set<Path>, m: Member): set<Path> {
    if m.kind.IsDir? then directories + {m.path} else directories
  }

  lemma CollectDirectories(ms: seq<Member>, i: nat, directories: set<Path>)
    requires i < |ms| && HasDirectories(ms, i, directories)
    ensures HasDirectories(ms, i + 1, WithDirectory(directories, ms[i]))
  {
    forall p
      ensures p in WithDirectory(directories, ms[i]) <==> MadeBefore(ms, i + 1, p)
    {
      if p in directories {
        assert MadeBefore(ms, i, p);
        var j :| 0 <= j < i && ms[j].path == p && ms[j].kind.IsDir?;
        assert MadeBefore(ms, i + 1, p);
      } else if MadeBefore(ms, i + 1, p) {
        var j :| 0 <= j < i + 1 && ms[j].path == p && ms[j].kind.IsDir?;
        assert !MadeBefore(ms, i, p);
      }
    }
  }

  lemma SafeNext(ms: seq<Member>, i: nat, seen: set<Path>, directories: set<Path>)
    requires i < |ms| && HasPaths(ms, i, seen) && HasDirectories(ms, i, directories)
    requires SafeEach(ms, i) && ParentsMade(ms, i)
    requires SafeMember(ms[i]) && ms[i].path !in seen && (ms[i].path.Under? ==> ms[i].path.parent in directories)
    ensures SafeEach(ms, i + 1) && ParentsMade(ms, i + 1)
  {
    assert ParentMade(ms, i);
  }

  lemma CollectNext(ms: seq<Member>, i: nat, seen: set<Path>, directories: set<Path>, total: int)
    requires i < |ms| && Collected(ms, i, seen, directories, total)
    requires Admits(seen, directories, total + ms[i].size, ms[i])
    ensures Collected(ms, i + 1, seen + {ms[i].path}, WithDirectory(directories, ms[i]), total + ms[i].size)
  {
    ClaimedNext(ms, i);
    CollectPaths(ms, i, seen);
    CollectDirectories(ms, i, directories);
    SafeNext(ms, i, seen, directories);
  }

  lemma AcceptedAdmits(ms: seq<Member>, i: nat, seen: set<Path>, directories: set<Path>, total: int)
    requires i < |ms| && Collected(ms, i, seen, directories, total) && Accepted(ms)
    ensures Admits(seen, directories, total + ms[i].size, ms[i])
  {
    ClaimedNext(ms, i);
    ClaimedPrefix(ms, i + 1);
    assert ParentMade(ms, i);
  }

  /** A member the loop refuses is in no acceptable archive. */
  lemma RefusedIsUnsafe(ms: seq<Member>, i: nat, seen: set<Path>, directories: set<Path>, total: int)
    requires i < |ms| && Collected(ms, i, seen, directories, total)
    requires !Admits(seen, directories, total + ms[i].size, ms[i])
    ensures !Accepted(ms)
  {
    if Accepted(ms) {
      AcceptedAdmits(ms, i, seen, directories, total);
    }
  }

  lemma CollectedAll(ms: seq<Member>, seen: set<Path>, directories: set<Path>, total: int)
    requires Collected(ms, |ms|, seen, directories, total)
    ensures Accepted(ms) <==> Top(ROOT) in directories
  {
    assert ms[..|ms|] == ms;
    if Accepted(ms) {
      FirstIsRoot(ms);
      assert MadeBefore(ms, |ms|, Top(ROOT));
    }
  }

  lemma FirstIsRoot(ms: seq<Member>)
    requires Accepted(ms)
    ensures ms[0].path == Top(ROOT) && ms[0].kind.IsDir?
  {
    assert SafeMember(ms[0]) && ParentMade(ms, 0);
  }

  /** The validation pass accepts exactly the acceptable archives. */
  method CheckMembers(ms: seq<Member>) returns (ok: bool)
    ensures ok <==> Accepted(ms)
  {
    var seen: set<Path>, directories: set<Path>, total := {}, {}, 0;
    for i := 0 to |ms|
      invariant Collected(ms, i, seen, directories, total)
    {
      if !Admits(seen, directories, total + ms[i].size, ms[i]) {
        RefusedIsUnsafe(ms, i, seen, directories, total);
        return false;
      }
      CollectNext(ms, i, seen, directories, total);
      seen, total := seen + {ms[i].path}, total + ms[i].size;
      if ms[i].kind.IsDir? {
        directories := directories + {ms[i].path};
      }
    }
    CollectedAll(ms, seen, directories, total);
    return Top(ROOT) in directories;
  }

  // ----- what is written is accepted -----

  lemma {:induction false} ClaimedIsTotal(s: seq<Entry>)
    ensures ClaimedBytes(Members(s)) == TotalBytes(s)
    decreases |s|
  {
    if s != [] {
      var front := s[..|s| - 1];
      assert Members(s)[..|s| - 1] == Members(front);
      ClaimedIsTotal(front);
    }
  }

  /** Every archive the backup writes passes the member check. */
  lemma WrittenIsAccepted(root: Tree)
    requires ProperTree(root) && CanArchive(root)
    ensures Accepted(Members(Listing(Top(ROOT), root)))
  {
    var s := Listing(Top(ROOT), root);
    var ms := Members(s);
    ClaimedIsTotal(s);
    ListingDistinct(Top(ROOT), root);
    ListingParentsFirst(Top(ROOT), root);
    forall i | 0 <= i < |ms|
      ensures SafeMember(ms[i])
    {
      assert s[i] in s;
      ListingIsLookup(root, s[i]);
      FoundProper(root, s[i].path);
    }
    forall i: nat | i < |ms|
      ensures ParentMade(ms, i)
    {
      if ms[i].path.Under? {
        assert DirBefore(s, i, s[i].path.parent);
        var j :| 0 <= j < i && s[j].path == s[i].path.parent && s[j].kind.IsDir?;
        assert ms[j].path == ms[i].path.parent;
      }
    }
  }

  // ----- rebuilding the tree -----

  /** An entry of the staging area: a directory still private to the restore, or one with its final attributes. */
  datatype Node = Open | Sealed(meta: Meta) | Stored(meta: Meta, data: Bytes)

  /** The owner a restored entry gets: only a privileged restore may give files away. */
  function OwnerFor(privileged: bool, me: Owner, recorded: Owner): Owner {
    if privileged then recorded else me
  }

  function Final(privileged: bool, me: Owner, m: Member): Node
    requires SafeMember(m)
  {
    var meta := Meta(m.mode, OwnerFor(privileged, me, Owner(m.uid, m.gid)));
    if m.kind.IsDir? then Sealed(meta) else Stored(meta, m.kind.data)
  }

  /** p and everything above it are directories the restore may still enter and fill. */
  predicate Enterable(nodes: map<Path, Node>, p: Path) {
    p in nodes && nodes[p].Open? && (p.Under? ==> Enterable(nodes, p.parent))
  }

  predicate Reachable(nodes: map<Path, Node>, p: Path) {
    p.Under? ==> Enterable(nodes, p.parent)
  }

  ghost function PathsUpTo(ms: seq<Member>, n: nat): set<Path>
    requires n <= |ms|
  {
    set j | 0 <= j < n :: ms[j].path
  }

  /** The node of a member while its directory is still open, or once it is finished. */
  function NodeOf(privileged: bool, me: Owner, m: Member, open: bool): Node
    requires SafeMember(m)
  {
    if open && m.kind.IsDir? then Open else Final(privileged, me, m)
  }

  /** The staging area holds the first n members; of their directories the first k are still open. */
  ghost predicate Shows(privileged: bool, me: Owner, nodes: map<Path, Node>, ms: seq<Member>, n: nat, k: nat)
    requires n <= |ms| && SafeEach(ms, n)
  {
    && nodes.Keys == PathsUpTo(ms, n)
    && (forall j :: 0 <= j < n ==> ms[j].path in nodes && nodes[ms[j].path] == NodeOf(privileged, me, ms[j], j < k))
  }

  /** Exactly the members, each with its final attributes. */
  ghost predicate Rebuilt(privileged: bool, me: Owner, nodes: map<Path, Node>, ms: seq<Member>)
    requires SafeEach(ms, |ms|)
  {
    Shows(privileged, me, nodes, ms, |ms|, 0)
  }

  lemma {:induction false} ShownEnterable(privileged: bool, me: Owner, nodes: map<Path, Node>,
                                          ms: seq<Member>, n: nat, k: nat, p: Path)
    requires k <= n <= |ms| && SafeEach(ms, n) && ParentsMade(ms, n)
    requires Shows(privileged, me, nodes, ms, n, k) && MadeBefore(ms, k, p)
    ensures Enterable(nodes, p)
  {
    var j :| 0 <= j < k && ms[j].path == p && ms[j].kind.IsDir?;
    if p.Under? {
      assert ParentMade(ms, j);
      ShownEnterable(privileged, me, nodes, ms, n, k, p.parent);
    }
  }

  lemma NothingYet(privileged: bool, me: Owner, nodes: map<Path, Node>, ms: seq<Member>)
    requires nodes == map[]
    ensures Collected(ms, 0, {}, {}, 0) && Shows(privileged, me, nodes, ms, 0, 0)
  {
    assert PathsUpTo(ms, 0) == {};
  }

  lemma ShowNext(privileged: bool, me: Owner, nodes: map<Path, Node>, ms: seq<Member>, i: nat)
    requires i < |ms| && SafeEach(ms, i + 1) && SafeEach(ms, i) && Shows(privileged, me, nodes, ms, i, i)
    ensures ms[i].path !in nodes
    ensures Shows(privileged, me, nodes[ms[i].path := NodeOf(privileged, me, ms[i], true)], ms, i + 1, i + 1)
  {
    assert PathsUpTo(ms, i + 1) == PathsUpTo(ms, i) + {ms[i].path};
  }

  lemma SealNext(privileged: bool, me: Owner, nodes: map<Path, Node>, ms: seq<Member>, k: nat)
    requires k < |ms| && SafeEach(ms, |ms|) && ParentsMade(ms, |ms|) && Shows(privileged, me, nodes, ms, |ms|, k + 1)
    ensures Shows(privileged, me, nodes[ms[k].path := Final(privileged, me, ms[k])], ms, |ms|, k)
    ensures !ms[k].kind.IsDir? ==> Shows(privileged, me, nodes, ms, |ms|, k)
    ensures ms[k].kind.IsDir? ==> Enterable(nodes, ms[k].path)
  {
    assert ms[k].path in PathsUpTo(ms, |ms|);
    if ms[k].kind.IsDir? {
      assert MadeBefore(ms, k + 1, ms[k].path);
      ShownEnterable(privileged, me, nodes, ms, |ms|, k + 1, ms[k].path);
    }
    var nodes' := nodes[ms[k].path := Final(privileged, me, ms[k])];
    assert nodes'.Keys == nodes.Keys;
  }

  /** The fresh directory a restore extracts into; nobody else can reach it. */
  class Staging {
    const privileged: bool
    const me: Owner
    var nodes: map<Path, Node>

    constructor (privileged: bool, me: Owner)
      ensures this.privileged == privileged && this.me == me && nodes == map[]
    {
      this.privileged, this.me, nodes := privileged, me, map[];
    }

    method MakeDirectory(p: Path)
      requires p !in nodes && Reachable(nodes, p)
      modifies this
      ensures nodes == old(nodes)[p := Open]
    {
      nodes := nodes[p := Open];
    }

    method Store(m: Member)
      requires SafeMember(m) && m.kind.IsFile? && m.path !in nodes && Reachable(nodes, m.path)
      modifies this
      ensures nodes == old(nodes)[m.path := Final(privileged, me, m)]
    {
      var owner := OwnerFor(privileged, me, Owner(m.uid, m.gid));
      nodes := nodes[m.path := Stored(Meta(m.mode, owner), m.kind.data)];
    }

    method Seal(m: Member)
      requires SafeMember(m) && m.kind.IsDir? && Enterable(nodes, m.path)
      modifies this
      ensures nodes == old(nodes)[m.path := Final(privileged, me, m)]
    {
      var owner := OwnerFor(privileged, me, Owner(m.uid, m.gid));
      nodes := nodes[m.path := Sealed(Meta(m.mode, owner))];
    }

    /** Creates the next member below a directory that is still open. */
    method Place(ms: seq<Member>, i: nat)
      requires i < |ms| && SafeEach(ms, i) && SafeEach(ms, i + 1) && ParentsMade(ms, i + 1)
      requires Shows(privileged, me, nodes, ms, i, i)
      modifies this
      ensures Shows(privileged, me, nodes, ms, i + 1, i + 1)
    {
      var m := ms[i];
      ShowNext(privileged, me, nodes, ms, i);
      if m.path.Under? {
        assert ParentMade(ms, i);
        ShownEnterable(privileged, me, nodes, ms, i, i, m.path.parent);
      }
      if m.kind.IsDir? {
        MakeDirectory(m.path);
      } else {
        Store(m);
      }
    }

    /** Sets the final attributes of the directories, the last one made first. */
    method SealAll(ms: seq<Member>)
      requires SafeEach(ms, |ms|) && ParentsMade(ms, |ms|) && Shows(privileged, me, nodes, ms, |ms|, |ms|)
      modifies this
      ensures Rebuilt(privileged, me, nodes, ms)
    {
      var k := |ms|;
      while k > 0
        invariant 0 <= k <= |ms| && Shows(privileged, me, nodes, ms, |ms|, k)
      {
        k := k - 1;
        SealNext(privileged, me, nodes, ms, k);
        if ms[k].kind.IsDir? {
          Seal(ms[k]);
        }
      }
    }

    /** One round of the extraction loop: a member is created only after the check has let it through. */
    method Next(ms: seq<Member>, i: nat, seen: set<Path>, directories: set<Path>, total: int)
      returns (ok: bool, seen': set<Path>, directories': set<Path>, total': int)
      requires i < |ms| && Collected(ms, i, seen, directories, total) && Shows(privileged, me, nodes, ms, i, i)
      modifies this
      ensures ok ==> Collected(ms, i + 1, seen', directories', total')
      ensures ok ==> Shows(privileged, me, nodes, ms, i + 1, i + 1)
      ensures !ok ==> !Accepted(ms)
    {
      var m := ms[i];
      seen', directories', total' := seen + {m.path}, WithDirectory(directories, m), total + m.size;
      ok := Admits(seen, directories, total', m);
      if ok {
        CollectNext(ms, i, seen, directories, total);
        Place(ms, i);
      } else {
        RefusedIsUnsafe(ms, i, seen, directories, total);
      }
    }

    /** The extraction loop, which checks every member again before it creates anything for it. */
    method Fill(ms: seq<Member>) returns (ok: bool)
      requires nodes == map[]
      modifies this
      ensures ok <==> Accepted(ms)
      ensures ok ==> Shows(privileged, me, nodes, ms, |ms|, |ms|)
    {
      var seen: set<Path>, directories: set<Path>, total := {}, {}, 0;
      NothingYet(privileged, me, nodes, ms);
      for i := 0 to |ms|
        invariant Collected(ms, i, seen, directories, total)
        invariant Shows(privileged, me, nodes, ms, i, i)
      {
        ok, seen, directories, total := Next(ms, i, seen, directories, total);
        if !ok {
          return false;
        }
      }
      CollectedAll(ms, seen, directories, total);
      return Top(ROOT) in directories;
    }

    /** A refused archive leaves nothing behind. */
    method Extract(ms: seq<Member>) returns (ok: bool)
      requires nodes == map[]
      modifies this
      ensures ok <==> Accepted(ms)
      ensures ok ==> Rebuilt(privileged, me, nodes, ms)
      ensures !ok ==> nodes == map[]
    {
      ok := Fill(ms);
      if ok {
        SealAll(ms);
      } else {
        nodes := map[];
      }
    }
  }

  // ----- the round trip -----

  /** An entry as a restore rebuilds it: nine permission bits, and the owner the restore may give it. */
  function Restored(privileged: bool, me: Owner, t: Tree): Node {
    var meta := Meta(t.meta.mode % MODE_BITS, OwnerFor(privileged, me, t.meta.owner));
    match t
    case File(_, d) => Stored(meta, d)
    case _ => Sealed(meta)
  }

  /** The entry unchanged. */
  function Unchanged(t: Tree): Node {
    match t
    case File(m, d) => Stored(m, d)
    case _ => Sealed(t.meta)
  }

  /** A staging area that holds a tree: the same paths, and at each path the restored entry. */
  ghost predicate HoldsTree(privileged: bool, me: Owner, nodes: map<Path, Node>, root: Tree) {
    && (forall p :: p in nodes <==> Find(root, p).Some?)
    && (forall p :: p in nodes ==> nodes[p] == Restored(privileged, me, Find(root, p).value))
  }

  lemma MemberIsEntry(privileged: bool, me: Owner, root: Tree, i: nat)
    requires ProperTree(root) && CanArchive(root) && i < |Listing(Top(ROOT), root)|
    requires SafeMember(Members(Listing(Top(ROOT), root))[i])
    ensures var e := Listing(Top(ROOT), root)[i];
            Find(root, e.path).Some? &&
            Final(privileged, me, MemberOf(e)) == Restored(privileged, me, Find(root, e.path).value)
  {
    var e := Listing(Top(ROOT), root)[i];
    assert e in Listing(Top(ROOT), root);
    ListingIsLookup(root, e);
  }

  /** Every tree within the limits is archived, passes the check, and is rebuilt entry by entry. */
  lemma ArchiveRoundTrip(privileged: bool, me: Owner, root: Tree, nodes: map<Path, Node>)
    requires ProperTree(root) && CanArchive(root)
    ensures var ms := Members(Listing(Top(ROOT), root));
            Accepted(ms) && (Rebuilt(privileged, me, nodes, ms) <==> HoldsTree(privileged, me, nodes, root))
  {
    var s := Listing(Top(ROOT), root);
    var ms := Members(s);
    WrittenIsAccepted(root);
    forall i | 0 <= i < |ms|
      ensures Find(root, ms[i].path).Some?
      ensures Final(privileged, me, ms[i]) == Restored(privileged, me, Find(root, ms[i].path).value)
    {
      MemberIsEntry(privileged, me, root, i);
    }
    forall p | Find(root, p).Some?
      ensures exists i :: 0 <= i < |ms| && ms[i].path == p
    {
      var t := Find(root, p).value;
      var e := Entry(p, t.meta, KindOf(t));
      ListingIsLookup(root, e);
      var i :| 0 <= i < |s| && s[i] == e;
      assert ms[i].path == p;
    }
  }

  /** No entry uses bits beyond 0777, and the restore may give every entry its owner. */
  ghost predicate Portable(privileged: bool, me: Owner, root: Tree) {
    forall p :: Find(root, p).Some? ==>
                  var m := Find(root, p).value.meta;
                  m.mode < MODE_BITS && (privileged || m.owner == me)
  }

  /** The rebuilt tree equals the original exactly when the original is portable. */
  lemma IdenticalExactly(privileged: bool, me: Owner, root: Tree, nodes: map<Path, Node>)
    requires HoldsTree(privileged, me, nodes, root)
    ensures (forall p :: p in nodes ==> nodes[p] == Unchanged(Find(root, p).value)) <==> Portable(privileged, me, root)
  {
    forall p | p in nodes
      ensures nodes[p] == Unchanged(Find(root, p).value) <==>
              var m := Find(root, p).value.meta;
              m.mode < MODE_BITS && (privileged || m.owner == me)
    {
      var m := Find(root, p).value.meta;
      assert nodes[p].meta == Meta(m.mode % MODE_BITS, OwnerFor(privileged, me, m.owner));
    }
  }

  // ----- the rebuilt tree as a tree -----

  /** A tree after one trip through an archive. */
  function Kept(privileged: bool, me: Owner, t: Tree): Tree
    decreases t
  {
    var meta := Meta(t.meta.mode % MODE_BITS, OwnerFor(privileged, me, t.meta.owner));
    match t
    case File(_, d) => File(meta, d)
    case Dir(_, c) => Dir(meta, KeptAll(privileged, me, c))
    case Special(_) => Special(meta)
  }

  function KeptAll(privileged: bool, me: Owner, c: Children): Children
    decreases c
  {
    match c
    case Empty => Empty
    case More(n, t, rest) => More(n, Kept(privileged, me, t), KeptAll(privileged, me, rest))
  }

  lemma {:induction false} KeptChild(privileged: bool, me: Owner, c: Children, n: string)
    ensures var found := Child(c, n);
            Child(KeptAll(privileged, me, c), n) ==
            if found.Some? then Some(Kept(privileged, me, found.value)) else None
  {
    if c.More? && c.name != n {
      KeptChild(privileged, me, c.rest, n);
    }
  }

  lemma {:induction false} KeptFind(privileged: bool, me: Owner, root: Tree, p: Path)
    ensures var found := Find(root, p);
            Find(Kept(privileged, me, root), p) ==
            if found.Some? then Some(Kept(privileged, me, found.value)) else None
  {
    if p.Under? {
      KeptFind(privileged, me, root, p.parent);
      var above := Find(root, p.parent);
      if above.Some? && above.value.Dir? {
        KeptChild(privileged, me, above.value.children, p.name);
      }
    }
  }

  /** The staging area holds a tree exactly when its entries are those of the kept tree, unchanged. */
  lemma RebuiltIsKept(privileged: bool, me: Owner, root: Tree, nodes: map<Path, Node>)
    ensures HoldsTree(privileged, me, nodes, root) <==>
            (forall p :: p in nodes <==> Find(Kept(privileged, me, root), p).Some?) &&
            (forall p :: p in nodes && Find(Kept(privileged, me, root), p).Some? ==>
                           nodes[p] == Unchanged(Find(Kept(privileged, me, root), p).value))
  {
    forall p
      ensures Find(root, p).Some? <==> Find(Kept(privileged, me, root), p).Some?
      ensures Find(root, p).Some? ==>
                Restored(privileged, me, Find(root, p).value) == Unchanged(Find(Kept(privileged, me, root), p).value)
    {
      KeptFind(privileged, me, root, p);
    }
  }
}
