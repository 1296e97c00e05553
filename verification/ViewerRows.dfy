/**
 What merged viewer rows hold: one row for each page in order of first appearance, with the fields of the page's
 last row and the references of all of them, and exactly when a merge or a move is refused.
 */
module ViewerRows {
  import opened Common
  import opened TopologyStore
  import opened ViewerPages

  // ---- Lists of references ----

  /** Every element once, in the order in which they first appear. */
  ghost predicate FirstsOf(firsts: seq<string>, xs: seq<string>) {
    && (forall x :: x in firsts <==> x in xs)
    && (forall i, j :: 0 <= i < j < |firsts| ==> firsts[i] != firsts[j] && Earlier(xs, firsts[i], firsts[j]))
  }

  /** Some `x` stands before every `y`. */
  ghost predicate Earlier(xs: seq<string>, x: string, y: string) {
    exists p :: 0 <= p < |xs| && xs[p] == x && forall q :: 0 <= q <= p ==> xs[q] != y
  }

  lemma EarlierLonger(xs: seq<string>, z: string, x: string, y: string)
    requires Earlier(xs, x, y)
    ensures Earlier(xs + [z], x, y)
  {
    var p :| 0 <= p < |xs| && xs[p] == x && forall q :: 0 <= q <= p ==> xs[q] != y;
    assert (xs + [z])[p] == x;
  }

  lemma {:induction false} DedupIs(xs: seq<string>)
    ensures FirstsOf(Dedup(xs), xs)
  {
    if xs != [] {
      var front, z := xs[..|xs| - 1], xs[|xs| - 1];
      var rest := Dedup(front);
      DedupIs(front);
      assert xs == front + [z];
      forall i, j | 0 <= i < j < |Dedup(xs)|
        ensures Dedup(xs)[i] != Dedup(xs)[j] && Earlier(xs, Dedup(xs)[i], Dedup(xs)[j])
      {
        if j < |rest| {
          EarlierLonger(front, z, rest[i], rest[j]);
        } else {
          NewIsLater(front, z, rest[i]);
        }
      }
    }
  }

  lemma NewIsLater(xs: seq<string>, z: string, x: string)
    requires x in xs && z !in xs
    ensures Earlier(xs + [z], x, z)
  {
    var p :| 0 <= p < |xs| && xs[p] == x;
    assert (xs + [z])[p] == x;
  }

  /** The last 16 of the distinct elements of both lists. */
  ghost predicate JoinedLast(joined: seq<string>, a: seq<string>, b: seq<string>) {
    exists all, cut :: FirstsOf(all, a + b) && 0 <= cut <= |all| && joined == all[cut..] && (cut == 0 ==> |all| <= 16)
      && (cut > 0 ==> |joined| == 16)
  }

  /** Two rows of one page: the later one's fields, both lists of references joined, and removed if either was. */
  lemma CombineIs(previous: Page, page: Page)
    ensures var r := Combine(previous, page);
            && r.id == page.id && r.page == page.page && (r.removed <==> previous.removed || page.removed)
            && JoinedLast(r.references, previous.references, page.references)
            && JoinedLast(r.turnIds, previous.turnIds, page.turnIds)
  {
    JoinIs(previous.references, page.references);
    JoinIs(previous.turnIds, page.turnIds);
  }

  lemma JoinIs(a: seq<string>, b: seq<string>)
    ensures JoinedLast(LastKept(Dedup(a + b)), a, b)
  {
    DedupIs(a + b);
    var all := Dedup(a + b);
    var cut := if |all| <= 16 then 0 else |all| - 16;
    assert LastKept(all) == all[cut..];
  }

  // ---- Rows ----

  function IdsOf(rows: Rows): set<PageId> {
    set k | 0 <= k < |rows| :: rows[k].id
  }

  lemma {:induction false} DistinctCount(rows: Rows)
    requires DistinctIds(rows)
    ensures |IdsOf(rows)| == |rows|
  {
    if rows == [] {
      assert IdsOf(rows) == {};
    } else {
      var front, last := rows[..|rows| - 1], rows[|rows| - 1];
      DistinctCount(front);
      assert IdsOf(rows) == IdsOf(front) + {last.id} by {
        assert forall k :: 0 <= k < |front| ==> rows[k] == front[k];
      }
      assert last.id !in IdsOf(front);
    }
  }

  lemma MergedCount(rows: Rows)
    ensures |Merge([], rows)| == |IdsOf(rows)|
  {
    var merged := Merge([], rows);
    forall id ensures HasPage(merged, id) <==> HasPage(rows, id) {
      MergeKeeps([], rows, id);
    }
    MergeKeeps([], rows, PageId("", "", ""));
    DistinctCount(merged);
    forall id ensures id in IdsOf(merged) <==> id in IdsOf(rows) {
      assert HasPage(merged, id) <==> HasPage(rows, id);
    }
    assert IdsOf(merged) == IdsOf(rows);
  }

  /** A merge is refused exactly when it has more than 32 pages, or its encoding does not fit. */
  lemma MergeRefusedExactly(sizes: Sizes, rows: Rows)
    ensures MergeRows(sizes, rows) == Err(ListFull) <==> |IdsOf(rows)| > 32
    ensures MergeRows(sizes, rows) == Err(MetadataFull) <==> |IdsOf(rows)| <= 32 && !sizes.rowsFit(Merge([], rows))
    ensures MergeRows(sizes, rows).Ok? <==> |IdsOf(rows)| <= 32 && sizes.rowsFit(Merge([], rows))
  {
    MergedCount(rows);
  }

  /** The row of a page in a list. */
  function RowOf(rows: Rows, id: PageId): (r: Page)
    requires HasPage(rows, id)
    ensures r in rows && r.id == id
  {
    rows[IndexOf(rows, id)]
  }

  lemma RowOfDistinct(rows: Rows, k: nat)
    requires DistinctIds(rows) && k < |rows|
    ensures HasPage(rows, rows[k].id) && RowOf(rows, rows[k].id) == rows[k]
  {
    var i := IndexOf(rows, rows[k].id);
    assert i < |rows|;
  }

  /** What one more row does: its page's row is joined with it, or it is added; all others stay, in their order. */
  lemma MergeOneIs(merged: Rows, page: Page)
    requires DistinctIds(merged)
    ensures var after := MergeOne(merged, page);
            && DistinctIds(after) && HasPage(after, page.id)
            && RowOf(after, page.id) ==
               (if HasPage(merged, page.id) then Combine(RowOf(merged, page.id), page) else page)
            && (forall id :: HasPage(merged, id) && id != page.id ==>
                HasPage(after, id) && RowOf(after, id) == RowOf(merged, id))
            && (if HasPage(merged, page.id) then |after| == |merged| else after == merged + [page])
            && (forall k :: 0 <= k < |merged| ==> after[k].id == merged[k].id)
  {
    var i, after := IndexOf(merged, page.id), MergeOne(merged, page);
    MergeOneKeeps(merged, page, page.id);
    forall k | 0 <= k < |merged| ensures after[k].id == merged[k].id && (k != i ==> after[k] == merged[k]) {}
    RowOfDistinct(after, i);
    forall id | HasPage(merged, id) && id != page.id
      ensures HasPage(after, id) && RowOf(after, id) == RowOf(merged, id)
    {
      var j := IndexOf(merged, id);
      assert after[j] == merged[j];
      RowOfDistinct(after, j);
      RowOfDistinct(merged, j);
    }
  }

  /** The references of all rows of the page, one after the other. */
  function References(rows: Rows, id: PageId): seq<string> {
    if rows == [] then []
    else References(rows[..|rows| - 1], id) + if rows[|rows| - 1].id == id then rows[|rows| - 1].references else []
  }

  function Turns(rows: Rows, id: PageId): seq<string> {
    if rows == [] then []
    else Turns(rows[..|rows| - 1], id) + if rows[|rows| - 1].id == id then rows[|rows| - 1].turnIds else []
  }

  /** The last row of the page. */
  function LastRow(rows: Rows, id: PageId): (r: Page)
    requires HasPage(rows, id)
    ensures r in rows && r.id == id
    decreases |rows|
  {
    var n := |rows| - 1;
    if rows[n].id == id then rows[n]
    else
      LastHas(rows, id);
      assert rows == rows[..n] + [rows[n]];
      LastRow(rows[..n], id)
  }

  lemma LastHas(rows: Rows, id: PageId)
    requires rows != [] && rows[|rows| - 1].id != id
    ensures HasPage(rows[..|rows| - 1], id) <==> HasPage(rows, id)
  {
    var front := rows[..|rows| - 1];
    if HasPage(rows, id) {
      var k :| 0 <= k < |rows| && rows[k].id == id;
      assert front[k].id == id;
    }
    if HasPage(front, id) {
      var k :| 0 <= k < |front| && front[k].id == id;
      assert rows[k].id == id;
    }
  }

  lemma {:induction false} MergeSnoc(merged: Rows, rows: Rows, r: Page)
    ensures Merge(merged, rows + [r]) == MergeOne(Merge(merged, rows), r)
    decreases |rows|
  {
    if rows == [] {
      assert rows + [r] == [r] && [r][1..] == [];
      assert Merge(MergeOne(merged, r), []) == MergeOne(merged, r);
    } else {
      assert (rows + [r])[1..] == rows[1..] + [r];
      MergeSnoc(MergeOne(merged, rows[0]), rows[1..], r);
    }
  }

  /** Distinct elements of a list that starts with distinct elements of another. */
  lemma {:induction false} DedupTwice(a: seq<string>, b: seq<string>)
    ensures Dedup(Dedup(a) + b) == Dedup(a + b)
    decreases |b|
  {
    if b == [] {
      assert Dedup(a) + b == Dedup(a) && a + b == a;
      DedupIs(a);
      DedupDistinct(Dedup(a));
    } else {
      DedupTwice(a, b[..|b| - 1]);
      DedupNext(Dedup(a), b);
      DedupNext(a, b);
    }
  }

  lemma DedupNext(a: seq<string>, b: seq<string>)
    requires b != []
    ensures var before, z := Dedup(a + b[..|b| - 1]), b[|b| - 1];
            Dedup(a + b) == if z in before then before else before + [z]
  {
    assert a + b == a + b[..|b| - 1] + [b[|b| - 1]];
    DedupSnoc(a + b[..|b| - 1], b[|b| - 1]);
  }

  lemma DedupSnoc(xs: seq<string>, z: string)
    ensures Dedup(xs + [z]) == if z in Dedup(xs) then Dedup(xs) else Dedup(xs) + [z]
  {
    assert (xs + [z])[..|xs|] == xs;
  }

  lemma {:induction false} DedupDistinct(xs: seq<string>)
    requires forall i, j :: 0 <= i < j < |xs| ==> xs[i] != xs[j]
    ensures Dedup(xs) == xs
  {
    if xs != [] {
      DedupDistinct(xs[..|xs| - 1]);
      assert xs == xs[..|xs| - 1] + [xs[|xs| - 1]];
    }
  }

  lemma {:induction false} DedupGrows(a: seq<string>, b: seq<string>)
    ensures |Dedup(a)| <= |Dedup(a + b)|
    decreases |b|
  {
    if b == [] {
      assert a + b == a;
    } else {
      DedupGrows(a, b[..|b| - 1]);
      DedupNext(a, b);
    }
  }

  /** `kept` are the distinct elements of `all`, as long as these are no more than 16. */
  predicate Keeps(kept: seq<string>, all: seq<string>) {
    |Dedup(all)| <= 16 ==> Dedup(kept) == Dedup(all)
  }

  lemma KeepsJoined(kept: seq<string>, all: seq<string>, b: seq<string>)
    requires Keeps(kept, all)
    ensures Keeps(LastKept(Dedup(kept + b)), all + b)
  {
    DedupGrows(all, b);
    if |Dedup(all + b)| <= 16 {
      DedupTwice(kept, b);
      DedupTwice(all, b);
      assert Dedup(kept + b) == Dedup(all + b);
      DedupIs(all + b);
      DedupDistinct(Dedup(all + b));
    }
  }

  ghost predicate RowOk(r: Page, rows: Rows, id: PageId)
    requires HasPage(rows, id)
  {
    r.page == LastRow(rows, id).page && Keeps(r.references, References(rows, id)) && Keeps(r.turnIds, Turns(rows, id))
  }

  lemma NoRowNoReferences(rows: Rows, id: PageId)
    requires !HasPage(rows, id)
    ensures References(rows, id) == [] && Turns(rows, id) == []
  {
    if rows != [] {
      assert rows[|rows| - 1].id != id;
      LastHas(rows, id);
      NoRowNoReferences(rows[..|rows| - 1], id);
    }
  }

  /** The row of `id` after one more row of its page. */
  lemma RowOkNext(merged: Rows, rows: Rows, r: Page)
    requires DistinctIds(merged) && (HasPage(merged, r.id) <==> HasPage(rows, r.id))
    requires HasPage(rows, r.id) ==> RowOk(RowOf(merged, r.id), rows, r.id)
    ensures HasPage(rows + [r], r.id) && HasPage(MergeOne(merged, r), r.id)
    ensures RowOk(RowOf(MergeOne(merged, r), r.id), rows + [r], r.id)
  {
    MergeOneIs(merged, r);
    var all := rows + [r];
    assert all[|rows|] == r && all[..|rows|] == rows;
    if HasPage(rows, r.id) {
      var was := RowOf(merged, r.id);
      KeepsJoined(was.references, References(rows, r.id), r.references);
      KeepsJoined(was.turnIds, Turns(rows, r.id), r.turnIds);
    } else {
      NoRowNoReferences(rows, r.id);
      assert [] + r.references == r.references && [] + r.turnIds == r.turnIds;
    }
  }

  lemma RowOkElse(rows: Rows, r: Page, row: Page, id: PageId)
    requires HasPage(rows, id) && r.id != id && RowOk(row, rows, id)
    ensures HasPage(rows + [r], id) && RowOk(row, rows + [r], id)
  {
    var all := rows + [r];
    assert all[|rows|] == r && all[..|rows|] == rows;
    LastHas(all, id);
    assert References(rows, id) + [] == References(rows, id) && Turns(rows, id) + [] == Turns(rows, id);
  }

  lemma {:induction false} MergedRows(rows: Rows, id: PageId)
    requires HasPage(rows, id)
    ensures DistinctIds(Merge([], rows)) && HasPage(Merge([], rows), id)
    ensures RowOk(RowOf(Merge([], rows), id), rows, id)
    decreases |rows|
  {
    MergeKeeps([], rows, id);
    var front, r := rows[..|rows| - 1], rows[|rows| - 1];
    assert rows == front + [r];
    MergeSnoc([], front, r);
    MergeKeeps([], front, r.id);
    var merged := Merge([], front);
    if r.id == id {
      if HasPage(front, id) { MergedRows(front, id); }
      RowOkNext(merged, front, r);
    } else {
      LastHas(rows, id);
      MergedRows(front, id);
      MergeOneIs(merged, r);
      RowOkElse(front, r, RowOf(merged, id), id);
    }
  }

  /** `kept` names exactly what `all` names, in the same order of first appearance, if that is no more than 16. */
  ghost predicate SameFirsts(kept: seq<string>, all: seq<string>) {
    exists firsts :: FirstsOf(firsts, all) && (|firsts| <= 16 ==> FirstsOf(firsts, kept))
  }

  /**
   The merged row of a page has the fields of its last row, and the references and turns of all its rows, each once
   and in order, as long as there are no more than 16; it is removed if any of them was.
   */
  lemma MergedRow(rows: Rows, id: PageId)
    requires HasPage(rows, id)
    ensures HasPage(Merge([], rows), id)
    ensures var r := RowOf(Merge([], rows), id);
            && r.page == LastRow(rows, id).page
            && SameFirsts(r.references, References(rows, id)) && SameFirsts(r.turnIds, Turns(rows, id))
            && (r.removed <==> HasRemoved(rows, id))
  {
    MergedRows(rows, id);
    MergeKeeps([], rows, id);
    var merged := Merge([], rows);
    var r := RowOf(merged, id);
    DedupIs(References(rows, id));
    DedupIs(r.references);
    DedupIs(Turns(rows, id));
    DedupIs(r.turnIds);
    if HasRemoved(merged, id) {
      var k :| 0 <= k < |merged| && merged[k].id == id && merged[k].removed;
      RowOfDistinct(merged, k);
    }
  }

  /** The pages of the merged rows stand in the order in which the rows first name them. */
  lemma {:induction false} MergedOrder(rows: Rows, i: nat, j: nat)
    requires i < j < |Merge([], rows)|
    ensures IndexOf(rows, Merge([], rows)[i].id) < IndexOf(rows, Merge([], rows)[j].id) < |rows|
    decreases |rows|
  {
    var front, r := rows[..|rows| - 1], rows[|rows| - 1];
    assert rows == front + [r];
    MergeSnoc([], front, r);
    MergeKeeps([], front, r.id);
    var before, after := Merge([], front), Merge([], rows);
    MergeOneIs(before, r);
    FirstStays(front, r, after[i].id);
    FirstStays(front, r, after[j].id);
    if j < |before| {
      MergedOrder(front, i, j);
    } else {
      assert before[i] in before && HasPage(before, before[i].id);
      MergeKeeps([], front, before[i].id);
    }
  }

  lemma FirstStays(rows: Rows, r: Page, id: PageId)
    ensures HasPage(rows, id) <==> IndexOf(rows, id) < |rows|
    ensures HasPage(rows, id) ==> IndexOf(rows + [r], id) == IndexOf(rows, id)
    ensures !HasPage(rows, id) && r.id == id ==> IndexOf(rows + [r], id) == |rows|
  {
    var all := rows + [r];
    var i := IndexOf(rows, id);
    assert forall k :: 0 <= k < |rows| ==> all[k] == rows[k];
    assert all[|rows|] == r;
  }

  // ---- Moving ----

  /** A session id that the store takes: 1 to 256 characters, none of them a control character. */
  predicate Storable(sid: string) {
    0 < |sid| < 257 && forall c :: c in sid ==> c as int >= 32
  }

  lemma StorableIs(sid: string)
    ensures ValidSid(sid) <==> Storable(sid)
  {
    assert ' ' as int == 32;
    if Storable(sid) {
      forall i | 0 <= i < |sid| ensures ' ' <= sid[i] {
        assert sid[i] in sid;
      }
    }
  }

  /** One scope is moved exactly if its id can be translated, the new id can be stored, and the joined rows fit. */
  lemma MoveRefusedExactly(sizes: Sizes, engine: Engine, f: Transform, updated: Scopes, entry: (Scope, Rows))
    requires entry.0.engine == engine
    ensures var moved, to := MoveScope(sizes, engine, f, updated, entry), f(entry.0.sid);
            && (moved == Err(Untranslatable) <==> to.None?)
            && (moved == Err(InvalidScope) <==> to.Some? && !Storable(to.value))
            && (to.Some? && Storable(to.value) ==>
                  var rows := Lookup(updated, Scope(engine, entry.0.space, to.value)) + entry.1;
                  moved.Ok? <==> |IdsOf(rows)| <= 32 && sizes.rowsFit(Merge([], rows)))
  {
    var to := f(entry.0.sid);
    if to.Some? {
      MergeRefusedExactly(sizes, Lookup(updated, Scope(engine, entry.0.space, to.value)) + entry.1);
      StorableIs(to.value);
    }
  }
}
