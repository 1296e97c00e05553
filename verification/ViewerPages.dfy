/**
 Session/page associations, the second store that a topology change rewrites. Scopes are kept in
 insertion order, rows of one scope by page id, and one revision per engine guards the rewrite.
 */
module ViewerPages {
  import opened Common
  import opened TopologyStore

  const MAX_PAGES := 32
  const MAX_SCOPES := 512
  const KEPT := 16

  datatype Space = Code | Work

  datatype Scope = Scope(engine: Engine, space: Space, sid: string)

  /** The hash of machine, site and entry is taken to be injective. */
  datatype PageId = PageId(machine: string, site: string, entry: string)

  datatype Page = Page(id: PageId, page: string, references: seq<string>, turnIds: seq<string>, removed: bool)

  type Rows = seq<Page>

  type Scopes = seq<(Scope, Rows)>

  datatype PageError = InvalidMigration | InvalidScope | ListFull | MetadataFull | StoreFull | Untranslatable

  /** Sizes of the JSON encodings. */
  datatype Sizes = Sizes(rowsFit: Rows -> bool, storeFits: (Scopes, map<Engine, nat>) -> bool)

  type Transform = string -> Option<string>

  // ---- Merging rows ----

  function Dedup(xs: seq<string>): seq<string> {
    if xs == [] then []
    else
      var rest := Dedup(xs[..|xs| - 1]);
      if xs[|xs| - 1] in rest then rest else rest + [xs[|xs| - 1]]
  }

  function LastKept(xs: seq<string>): seq<string> {
    if |xs| <= KEPT then xs else xs[|xs| - KEPT..]
  }

  function Combine(previous: Page, page: Page): Page {
    page.(references := LastKept(Dedup(previous.references + page.references)),
          turnIds := LastKept(Dedup(previous.turnIds + page.turnIds)),
          removed := previous.removed || page.removed)
  }

  function IndexOf(rows: Rows, id: PageId): (i: nat)
    ensures i <= |rows| && (i < |rows| ==> rows[i].id == id) && forall k :: 0 <= k < i ==> rows[k].id != id
  {
    if rows == [] || rows[0].id == id then 0 else 1 + IndexOf(rows[1..], id)
  }

  /** `merged[page.id] = page`, combined with the row that is there. */
  function MergeOne(merged: Rows, page: Page): Rows {
    var i := IndexOf(merged, page.id);
    if i < |merged| then merged[i := Combine(merged[i], page)] else merged + [page]
  }

  function Merge(merged: Rows, rows: Rows): Rows
    decreases |rows|
  {
    if rows == [] then merged else Merge(MergeOne(merged, rows[0]), rows[1..])
  }

  function MergeRows(sizes: Sizes, rows: Rows): Result<Rows, PageError> {
    var merged := Merge([], rows);
    if |merged| > MAX_PAGES then Err(ListFull)
    else if !sizes.rowsFit(merged) then Err(MetadataFull)
    else Ok(merged)
  }

  predicate HasPage(rows: Rows, id: PageId) {
    exists k :: 0 <= k < |rows| && rows[k].id == id
  }

  predicate HasRemoved(rows: Rows, id: PageId) {
    exists k :: 0 <= k < |rows| && rows[k].id == id && rows[k].removed
  }

  predicate DistinctIds(rows: Rows) {
    forall i, j :: 0 <= i < j < |rows| ==> rows[i].id != rows[j].id
  }

  lemma MergeOneKeeps(merged: Rows, page: Page, id: PageId)
    requires DistinctIds(merged)
    ensures DistinctIds(MergeOne(merged, page))
    ensures HasPage(MergeOne(merged, page), id) <==> HasPage(merged, id) || page.id == id
    ensures HasRemoved(MergeOne(merged, page), id) <==> HasRemoved(merged, id) || (page.id == id && page.removed)
  {
    var i, after := IndexOf(merged, page.id), MergeOne(merged, page);
    forall k | 0 <= k < |merged| ensures after[k].id == merged[k].id && (k != i ==> after[k] == merged[k]) {}
    if HasPage(merged, id) {
      var k :| 0 <= k < |merged| && merged[k].id == id;
      assert after[k].id == id;
    }
    if HasRemoved(merged, id) {
      var k :| 0 <= k < |merged| && merged[k].id == id && merged[k].removed;
      assert after[k].id == id && after[k].removed;
    }
    assert after[i].id == page.id && (page.removed ==> after[i].removed);
  }

  /** Merging loses no page and no removal, and leaves one row for each page. */
  lemma {:induction false} MergeKeeps(merged: Rows, rows: Rows, id: PageId)
    requires DistinctIds(merged)
    ensures DistinctIds(Merge(merged, rows))
    ensures HasPage(Merge(merged, rows), id) <==> HasPage(merged, id) || HasPage(rows, id)
    ensures HasRemoved(Merge(merged, rows), id) <==> HasRemoved(merged, id) || HasRemoved(rows, id)
    decreases |rows|
  {
    if rows != [] {
      MergeOneKeeps(merged, rows[0], id);
      MergeKeeps(MergeOne(merged, rows[0]), rows[1..], id);
      HasFirst(rows, id);
    }
  }

  lemma HasFirst(rows: Rows, id: PageId)
    requires rows != []
    ensures HasPage(rows, id) <==> rows[0].id == id || HasPage(rows[1..], id)
    ensures HasRemoved(rows, id) <==> (rows[0].id == id && rows[0].removed) || HasRemoved(rows[1..], id)
  {
    assert rows == [rows[0]] + rows[1..];
    if HasPage(rows[1..], id) {
      var k :| 0 <= k < |rows[1..]| && rows[1..][k].id == id;
      assert rows[k + 1].id == id;
    }
    if HasRemoved(rows[1..], id) {
      var k :| 0 <= k < |rows[1..]| && rows[1..][k].id == id && rows[1..][k].removed;
      assert rows[k + 1].id == id && rows[k + 1].removed;
    }
    if HasPage(rows, id) && rows[0].id != id {
      var k :| 0 <= k < |rows| && rows[k].id == id;
      assert rows[1..][k - 1].id == id;
    }
    if HasRemoved(rows, id) && !(rows[0].id == id && rows[0].removed) {
      var k :| 0 <= k < |rows| && rows[k].id == id && rows[k].removed;
      assert rows[1..][k - 1] == rows[k];
    }
  }

  lemma HasConcat(a: Rows, b: Rows, id: PageId)
    ensures HasPage(a + b, id) <==> HasPage(a, id) || HasPage(b, id)
    ensures HasRemoved(a + b, id) <==> HasRemoved(a, id) || HasRemoved(b, id)
  {
    forall k | 0 <= k < |a| ensures (a + b)[k] == a[k] {}
    forall k | 0 <= k < |b| ensures (a + b)[|a| + k] == b[k] {}
    if HasPage(b, id) {
      var k :| 0 <= k < |b| && b[k].id == id;
      assert (a + b)[|a| + k].id == id;
    }
    if HasRemoved(b, id) {
      var k :| 0 <= k < |b| && b[k].id == id && b[k].removed;
      assert (a + b)[|a| + k] == b[k];
    }
    if HasPage(a + b, id) && !HasPage(a, id) {
      var k :| 0 <= k < |a + b| && (a + b)[k].id == id;
      assert b[k - |a|].id == id;
    }
    if HasRemoved(a + b, id) && !HasRemoved(a, id) {
      var k :| 0 <= k < |a + b| && (a + b)[k].id == id && (a + b)[k].removed;
      assert b[k - |a|] == (a + b)[k];
    }
  }

  /** Rows with different pages are kept as they are, in order. */
  lemma {:induction false} MergeDistinct(merged: Rows, rows: Rows)
    requires DistinctIds(merged + rows)
    ensures Merge(merged, rows) == merged + rows
    decreases |rows|
  {
    if rows == [] {
      assert merged + rows == merged;
    } else {
      forall k | 0 <= k < |merged| ensures merged[k].id != rows[0].id {
        assert (merged + rows)[k].id != (merged + rows)[|merged|].id;
      }
      assert merged + [rows[0]] + rows[1..] == merged + rows;
      MergeDistinct(merged + [rows[0]], rows[1..]);
    }
  }

  // ---- Scopes ----

  function Find(scopes: Scopes, key: Scope): (i: nat)
    ensures i <= |scopes| && (i < |scopes| ==> scopes[i].0 == key) && forall k :: 0 <= k < i ==> scopes[k].0 != key
  {
    if scopes == [] || scopes[0].0 == key then 0 else 1 + Find(scopes[1..], key)
  }

  function Lookup(scopes: Scopes, key: Scope): Rows {
    var i := Find(scopes, key);
    if i < |scopes| then scopes[i].1 else []
  }

  function Put(scopes: Scopes, key: Scope, rows: Rows): Scopes {
    var i := Find(scopes, key);
    if i < |scopes| then scopes[i := (key, rows)] else scopes + [(key, rows)]
  }

  function Pop(scopes: Scopes, key: Scope): Scopes {
    var i := Find(scopes, key);
    if i < |scopes| then scopes[..i] + scopes[i + 1..] else scopes
  }

  predicate DistinctKeys(scopes: Scopes) {
    forall i, j :: 0 <= i < j < |scopes| ==> scopes[i].0 != scopes[j].0
  }

  lemma FindUnique(scopes: Scopes, k: nat)
    requires DistinctKeys(scopes) && k < |scopes|
    ensures Find(scopes, scopes[k].0) == k && Lookup(scopes, scopes[k].0) == scopes[k].1
  {
  }

  lemma PutLookup(scopes: Scopes, key: Scope, rows: Rows, other: Scope)
    requires DistinctKeys(scopes)
    ensures DistinctKeys(Put(scopes, key, rows))
    ensures Lookup(Put(scopes, key, rows), other) == if other == key then rows else Lookup(scopes, other)
  {
    var after, i, j := Put(scopes, key, rows), Find(scopes, key), Find(scopes, other);
    forall k | 0 <= k < |scopes| ensures after[k].0 == scopes[k].0 && (k != i ==> after[k] == scopes[k]) {}
    if j < |scopes| {
      FindUnique(after, j);
    } else if other == key {
      FindUnique(after, |scopes|);
    }
  }

  /** Python rejects an empty id, one over 256 characters, and control characters. */
  predicate ValidSid(sid: string) {
    1 <= |sid| <= 256 && forall i :: 0 <= i < |sid| ==> ' ' <= sid[i]
  }

  // ---- The rewrite ----

  /** One turn of the loop over the stored scopes. */
  function MoveScope(sizes: Sizes, engine: Engine, f: Transform, updated: Scopes,
                     entry: (Scope, Rows)): Result<Scopes, PageError> {
    if entry.0.engine != engine then Ok(Put(updated, entry.0, entry.1))
    else
      match f(entry.0.sid)
      case None => Err(Untranslatable)
      case Some(sid) =>
        if !ValidSid(sid) then Err(InvalidScope)
        else
          var key := Scope(engine, entry.0.space, sid);
          var rows :- MergeRows(sizes, Lookup(updated, key) + entry.1);
          Ok(Put(updated, key, rows))
  }

  function MoveScopes(sizes: Sizes, engine: Engine, f: Transform, updated: Scopes,
                      scopes: Scopes): Result<Scopes, PageError>
    decreases |scopes|
  {
    if scopes == [] then Ok(updated)
    else
      var next :- MoveScope(sizes, engine, f, updated, scopes[0]);
      MoveScopes(sizes, engine, f, next, scopes[1..])
  }

  /** Some scope of the list moves to `key` and has the page. */
  predicate Arrives(engine: Engine, f: Transform, scopes: Scopes, key: Scope, id: PageId) {
    exists k :: 0 <= k < |scopes| && MovesTo(engine, f, scopes[k].0, key) && HasPage(scopes[k].1, id)
  }

  predicate ArrivesRemoved(engine: Engine, f: Transform, scopes: Scopes, key: Scope, id: PageId) {
    exists k :: 0 <= k < |scopes| && MovesTo(engine, f, scopes[k].0, key) && HasRemoved(scopes[k].1, id)
  }

  predicate MovesTo(engine: Engine, f: Transform, from: Scope, key: Scope) {
    from.engine == engine == key.engine && from.space == key.space && f(from.sid) == Some(key.sid)
  }

  lemma MoveScopeKeeps(sizes: Sizes, engine: Engine, f: Transform, updated: Scopes, entry: (Scope, Rows), key: Scope,
                       id: PageId)
    requires DistinctKeys(updated) && MoveScope(sizes, engine, f, updated, entry).Ok?
    ensures var next := MoveScope(sizes, engine, f, updated, entry).value;
            && DistinctKeys(next)
            && (key.engine == engine ==>
                  (HasPage(Lookup(next, key), id) <==>
                   HasPage(Lookup(updated, key), id) || (MovesTo(engine, f, entry.0, key) && HasPage(entry.1, id))))
            && (key.engine == engine ==>
                  (HasRemoved(Lookup(next, key), id) <==>
                   HasRemoved(Lookup(updated, key), id) ||
                   (MovesTo(engine, f, entry.0, key) && HasRemoved(entry.1, id))))
            && (key.engine != engine ==> Lookup(next, key) == if entry.0 == key then entry.1 else Lookup(updated, key))
  {
    if entry.0.engine != engine {
      PutLookup(updated, entry.0, entry.1, key);
    } else {
      var to := Scope(engine, entry.0.space, f(entry.0.sid).value);
      var rows := Lookup(updated, to) + entry.1;
      PutLookup(updated, to, Merge([], rows), key);
      MergeKeeps([], rows, id);
      HasConcat(Lookup(updated, to), entry.1, id);
    }
  }

  lemma {:induction false} MoveScopesKeeps(sizes: Sizes, engine: Engine, f: Transform, updated: Scopes,
                                           scopes: Scopes, key: Scope, id: PageId)
    requires DistinctKeys(updated) && DistinctKeys(scopes) && MoveScopes(sizes, engine, f, updated, scopes).Ok?
    requires key.engine == engine
    ensures var out := MoveScopes(sizes, engine, f, updated, scopes).value;
            && DistinctKeys(out)
            && (HasPage(Lookup(out, key), id) <==>
                HasPage(Lookup(updated, key), id) || Arrives(engine, f, scopes, key, id))
            && (HasRemoved(Lookup(out, key), id) <==>
                HasRemoved(Lookup(updated, key), id) || ArrivesRemoved(engine, f, scopes, key, id))
    decreases |scopes|
  {
    if scopes != [] {
      var next := MoveScope(sizes, engine, f, updated, scopes[0]).value;
      MoveScopeKeeps(sizes, engine, f, updated, scopes[0], key, id);
      MoveScopesKeeps(sizes, engine, f, next, scopes[1..], key, id);
      ArrivesFirst(engine, f, scopes, key, id);
    }
  }

  lemma ArrivesFirst(engine: Engine, f: Transform, scopes: Scopes, key: Scope, id: PageId)
    requires scopes != []
    ensures Arrives(engine, f, scopes, key, id) <==>
            (MovesTo(engine, f, scopes[0].0, key) && HasPage(scopes[0].1, id)) ||
            Arrives(engine, f, scopes[1..], key, id)
    ensures ArrivesRemoved(engine, f, scopes, key, id) <==>
            (MovesTo(engine, f, scopes[0].0, key) && HasRemoved(scopes[0].1, id)) ||
            ArrivesRemoved(engine, f, scopes[1..], key, id)
  {
    forall k | 0 <= k < |scopes[1..]| ensures scopes[1..][k] == scopes[k + 1] {}
    if Arrives(engine, f, scopes[1..], key, id) {
      var k :| 0 <= k < |scopes[1..]| && MovesTo(engine, f, scopes[1..][k].0, key) && HasPage(scopes[1..][k].1, id);
      assert scopes[k + 1] == scopes[1..][k];
    }
    if ArrivesRemoved(engine, f, scopes[1..], key, id) {
      var k :| 0 <= k < |scopes[1..]| && MovesTo(engine, f, scopes[1..][k].0, key) && HasRemoved(scopes[1..][k].1, id);
      assert scopes[k + 1] == scopes[1..][k];
    }
    if Arrives(engine, f, scopes, key, id) && !(MovesTo(engine, f, scopes[0].0, key) && HasPage(scopes[0].1, id)) {
      var k :| 0 <= k < |scopes| && MovesTo(engine, f, scopes[k].0, key) && HasPage(scopes[k].1, id);
      assert scopes[1..][k - 1] == scopes[k];
    }
    if ArrivesRemoved(engine, f, scopes, key, id) &&
       !(MovesTo(engine, f, scopes[0].0, key) && HasRemoved(scopes[0].1, id)) {
      var k :| 0 <= k < |scopes| && MovesTo(engine, f, scopes[k].0, key) && HasRemoved(scopes[k].1, id);
      assert scopes[1..][k - 1] == scopes[k];
    }
  }

  /**
   A page is listed under a new session id exactly when some session moved there had it, and is removed exactly when
   some had removed it.
   */
  lemma MigrationMovesPages(sizes: Sizes, engine: Engine, f: Transform, scopes: Scopes, key: Scope, id: PageId)
    requires DistinctKeys(scopes) && MoveScopes(sizes, engine, f, [], scopes).Ok? && key.engine == engine
    ensures var out := MoveScopes(sizes, engine, f, [], scopes).value;
            && (HasPage(Lookup(out, key), id) <==> Arrives(engine, f, scopes, key, id))
            && (HasRemoved(Lookup(out, key), id) <==> ArrivesRemoved(engine, f, scopes, key, id))
  {
    MoveScopesKeeps(sizes, engine, f, [], scopes, key, id);
  }

  lemma {:induction false} OthersStay(sizes: Sizes, engine: Engine, f: Transform, updated: Scopes, scopes: Scopes,
                                      key: Scope)
    requires DistinctKeys(updated) && DistinctKeys(scopes) && MoveScopes(sizes, engine, f, updated, scopes).Ok?
    requires key.engine != engine
    ensures var out := MoveScopes(sizes, engine, f, updated, scopes).value;
            && DistinctKeys(out)
            && Lookup(out, key) == if Find(scopes, key) < |scopes| then Lookup(scopes, key) else Lookup(updated, key)
    decreases |scopes|
  {
    if scopes != [] {
      var next := MoveScope(sizes, engine, f, updated, scopes[0]).value;
      MoveScopeKeeps(sizes, engine, f, updated, scopes[0], key, PageId("", "", ""));
      OthersStay(sizes, engine, f, next, scopes[1..], key);
      if scopes[0].0 == key {
        forall k | 0 <= k < |scopes[1..]| ensures scopes[1..][k].0 != key {
          assert scopes[1..][k] == scopes[k + 1];
        }
      }
    }
  }

  /** Sessions of the other engine keep their rows. */
  lemma OtherEngineUntouched(sizes: Sizes, engine: Engine, f: Transform, scopes: Scopes, key: Scope)
    requires DistinctKeys(scopes) && MoveScopes(sizes, engine, f, [], scopes).Ok? && key.engine != engine
    ensures Lookup(MoveScopes(sizes, engine, f, [], scopes).value, key) == Lookup(scopes, key)
  {
    OthersStay(sizes, engine, f, [], scopes, key);
  }

  lemma MoveScopeElsewhere(sizes: Sizes, engine: Engine, f: Transform, updated: Scopes, entry: (Scope, Rows),
                           key: Scope)
    requires DistinctKeys(updated) && MoveScope(sizes, engine, f, updated, entry).Ok?
    requires key.engine == engine && !MovesTo(engine, f, entry.0, key)
    ensures DistinctKeys(MoveScope(sizes, engine, f, updated, entry).value)
    ensures Lookup(MoveScope(sizes, engine, f, updated, entry).value, key) == Lookup(updated, key)
  {
    if entry.0.engine != engine {
      PutLookup(updated, entry.0, entry.1, key);
    } else {
      var to := Scope(engine, entry.0.space, f(entry.0.sid).value);
      PutLookup(updated, to, Merge([], Lookup(updated, to) + entry.1), key);
    }
  }

  lemma {:induction false} NobodyMoves(sizes: Sizes, engine: Engine, f: Transform, updated: Scopes, scopes: Scopes,
                                       key: Scope)
    requires DistinctKeys(updated) && MoveScopes(sizes, engine, f, updated, scopes).Ok? && key.engine == engine
    requires forall i :: 0 <= i < |scopes| ==> !MovesTo(engine, f, scopes[i].0, key)
    ensures Lookup(MoveScopes(sizes, engine, f, updated, scopes).value, key) == Lookup(updated, key)
    decreases |scopes|
  {
    if scopes != [] {
      MoveScopeElsewhere(sizes, engine, f, updated, scopes[0], key);
      forall i | 0 <= i < |scopes[1..]| ensures !MovesTo(engine, f, scopes[1..][i].0, key) {
        assert scopes[1..][i] == scopes[i + 1];
      }
      NobodyMoves(sizes, engine, f, MoveScope(sizes, engine, f, updated, scopes[0]).value, scopes[1..], key);
    }
  }

  /** A session that is alone under its new id keeps its rows as they are, in order. */
  lemma {:induction false} SoleSourceKeepsRows(sizes: Sizes, engine: Engine, f: Transform, updated: Scopes,
                                               scopes: Scopes, k: nat, key: Scope)
    requires DistinctKeys(updated) && MoveScopes(sizes, engine, f, updated, scopes).Ok? && Lookup(updated, key) == []
    requires k < |scopes| && MovesTo(engine, f, scopes[k].0, key) && DistinctIds(scopes[k].1)
    requires forall i :: 0 <= i < |scopes| && i != k ==> !MovesTo(engine, f, scopes[i].0, key)
    ensures Lookup(MoveScopes(sizes, engine, f, updated, scopes).value, key) == scopes[k].1
    decreases |scopes|
  {
    var next := MoveScope(sizes, engine, f, updated, scopes[0]).value;
    forall i | 0 <= i < |scopes[1..]| ensures scopes[1..][i] == scopes[i + 1] {}
    if k == 0 {
      assert Lookup(updated, key) + scopes[0].1 == scopes[0].1;
      assert [] + scopes[0].1 == scopes[0].1;
      MergeDistinct([], scopes[0].1);
      PutLookup(updated, key, scopes[0].1, key);
      NobodyMoves(sizes, engine, f, next, scopes[1..], key);
    } else {
      MoveScopeElsewhere(sizes, engine, f, updated, scopes[0], key);
      SoleSourceKeepsRows(sizes, engine, f, next, scopes[1..], k - 1, key);
    }
  }

  // ---- Rekeying one session ----

  function Rekeyed(sizes: Sizes, scopes: Scopes, old_: Scope, new_: Scope): Result<Scopes, PageError> {
    var rows := Lookup(scopes, old_);
    var rest := Pop(scopes, old_);
    if old_ == new_ then Ok(scopes)
    else if rows == [] then Ok(rest)
    else
      var merged :- MergeRows(sizes, rows + Lookup(rest, new_));
      Ok(Put(rest, new_, merged))
  }

  lemma PopLookup(scopes: Scopes, key: Scope, other: Scope)
    requires DistinctKeys(scopes)
    ensures DistinctKeys(Pop(scopes, key))
    ensures Lookup(Pop(scopes, key), other) == if other == key then [] else Lookup(scopes, other)
  {
    var i, j, after := Find(scopes, key), Find(scopes, other), Pop(scopes, key);
    if i < |scopes| {
      forall k | 0 <= k < |after| ensures after[k] == scopes[if k < i then k else k + 1] {}
      if other != key && j < |scopes| {
        var at := if j < i then j else j - 1;
        assert after[at] == scopes[j];
        FindUnique(after, at);
      }
    }
  }

  /** The new id lists the pages of both, the old id lists none, and every other session is as before. */
  lemma RekeyJoins(sizes: Sizes, scopes: Scopes, old_: Scope, new_: Scope, key: Scope, id: PageId)
    requires DistinctKeys(scopes) && old_ != new_ && Rekeyed(sizes, scopes, old_, new_).Ok?
    ensures var rows := Lookup(Rekeyed(sizes, scopes, old_, new_).value, key);
            if key == new_ then
              && (HasPage(rows, id) <==> HasPage(Lookup(scopes, old_), id) || HasPage(Lookup(scopes, new_), id))
              && (HasRemoved(rows, id) <==>
                  HasRemoved(Lookup(scopes, old_), id) || HasRemoved(Lookup(scopes, new_), id))
            else rows == if key == old_ then [] else Lookup(scopes, key)
  {
    var rows, rest := Lookup(scopes, old_), Pop(scopes, old_);
    PopLookup(scopes, old_, key);
    PopLookup(scopes, old_, new_);
    if rows != [] {
      var all := rows + Lookup(rest, new_);
      PutLookup(rest, new_, Merge([], all), key);
      MergeKeeps([], all, id);
      HasConcat(rows, Lookup(rest, new_), id);
    }
  }

  // ---- The store ----

  class PageStore {
    var scopes: Scopes
    var revisions: map<Engine, nat>

    ghost predicate Valid()
      reads this
    {
      DistinctKeys(scopes) && |scopes| <= MAX_SCOPES
    }

    constructor ()
      ensures Valid() && scopes == [] && revisions == map[]
    {
      scopes, revisions := [], map[];
    }

    /** The loop of `_merge_rows`. */
    method MergeAll(sizes: Sizes, rows: Rows) returns (res: Result<Rows, PageError>)
      ensures res == MergeRows(sizes, rows)
    {
      var merged: Rows := [];
      assert rows[0..] == rows;
      for i := 0 to |rows|
        invariant Merge(merged, rows[i..]) == Merge([], rows)
      {
        assert rows[i..][0] == rows[i] && rows[i..][1..] == rows[i + 1..];
        var page := rows[i];
        var at := IndexOf(merged, page.id);
        if at < |merged| {
          merged := merged[at := Combine(merged[at], page)];
        } else {
          merged := merged + [page];
        }
      }
      if |merged| > MAX_PAGES {
        return Err(ListFull);
      }
      if !sizes.rowsFit(merged) {
        return Err(MetadataFull);
      }
      return Ok(merged);
    }

    /** Rewrites one engine's scopes once per revision; any error leaves the store as it was. */
    method MigrateProfileSessions(sizes: Sizes, engine: Engine, f: Transform, revision: nat)
      returns (res: Result<(), PageError>)
      requires Valid()
      modifies this
      ensures Valid()
      ensures revision == 0 ==> res == Err(InvalidMigration)
      ensures res.Err? || Get(old(revisions), engine, 0) >= revision ==>
              scopes == old(scopes) && revisions == old(revisions)
      ensures revision > 0 && Get(old(revisions), engine, 0) >= revision ==> res.Ok?
      ensures res.Ok? && Get(old(revisions), engine, 0) < revision ==>
                MoveScopes(sizes, engine, f, [], old(scopes)) == Ok(scopes) &&
                revisions == old(revisions)[engine := revision]
      ensures revision > 0 && Get(old(revisions), engine, 0) < revision ==>
                var moved := MoveScopes(sizes, engine, f, [], old(scopes));
                res == if moved.Err? then Err(moved.error)
                       else if |moved.value| > 512 || !sizes.storeFits(moved.value, old(revisions)[engine := revision])
                       then Err(StoreFull) else Ok(())
    {
      if revision == 0 {
        return Err(InvalidMigration);
      }
      if Get(revisions, engine, 0) >= revision {
        return Ok(());
      }
      var updated: Scopes := [];
      assert scopes[0..] == scopes;
      for i := 0 to |scopes|
        invariant unchanged(this) && DistinctKeys(updated)
        invariant MoveScopes(sizes, engine, f, updated, scopes[i..]) == MoveScopes(sizes, engine, f, [], scopes)
      {
        assert scopes[i..][0] == scopes[i] && scopes[i..][1..] == scopes[i + 1..];
        var (key, rows) := scopes[i];
        if key.engine != engine {
          PutLookup(updated, key, rows, key);
          updated := Put(updated, key, rows);
          continue;
        }
        var sid := f(key.sid);
        if sid.None? {
          return Err(Untranslatable);
        }
        if !ValidSid(sid.value) {
          return Err(InvalidScope);
        }
        var moved := Scope(engine, key.space, sid.value);
        var merged := MergeAll(sizes, Lookup(updated, moved) + rows);
        if merged.Err? {
          return Err(merged.error);
        }
        PutLookup(updated, moved, merged.value, moved);
        updated := Put(updated, moved, merged.value);
      }
      var stamped := revisions[engine := revision];
      if |updated| > MAX_SCOPES || !sizes.storeFits(updated, stamped) {
        return Err(StoreFull);
      }
      scopes, revisions := updated, stamped;
      return Ok(());
    }

    method Rekey(sizes: Sizes, old_: Scope, new_: Scope) returns (res: Result<(), PageError>)
      requires Valid()
      modifies this`scopes
      ensures Valid()
      ensures res.Err? ==> scopes == old(scopes)
      ensures res.Ok? ==> Rekeyed(sizes, old(scopes), old_, new_) == Ok(scopes)
      ensures var moved := Rekeyed(sizes, old(scopes), old_, new_);
              res == if moved.Err? then Err(moved.error)
                     else if old_ != new_ && (|moved.value| > 512 || !sizes.storeFits(moved.value, revisions))
                     then Err(StoreFull) else Ok(())
    {
      if old_ == new_ {
        return Ok(());
      }
      var rows, rest := Lookup(scopes, old_), Pop(scopes, old_);
      PopLookup(scopes, old_, new_);
      if rows != [] {
        var merged := MergeAll(sizes, rows + Lookup(rest, new_));
        if merged.Err? {
          return Err(merged.error);
        }
        PutLookup(rest, new_, merged.value, new_);
        rest := Put(rest, new_, merged.value);
      }
      if |rest| > MAX_SCOPES || !sizes.storeFits(rest, revisions) {
        return Err(StoreFull);
      }
      scopes := rest;
      return Ok(());
    }
  }
}
