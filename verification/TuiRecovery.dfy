/**
 The recovery of the terminal client, said of the fields of the pending commands: which sessions are switched to,
 in which order, and which commands follow which switch.
 */
module TuiRecovery {
  import opened Common
  import opened TuiOutbox

  /** A command for session `sid`: it says so, or it is the switch to this session. */
  predicate For(raw: Raw, sid: string) {
    raw.sid == Some(sid) || (raw.sid.None? && raw.kind == "switch_session" && raw.sessionId == Some(sid))
  }

  /** A session that can be made resident: it has a name, and is no side conversation. */
  predicate Lasting(sid: string) {
    |sid| >= 1 && !(|sid| >= 4 && sid[0] == 'b' && sid[1] == 't' && sid[2] == 'w' && sid[3] == '-')
  }

  lemma DurableIsLasting(sid: string)
    ensures Durable(sid) <==> Lasting(sid)
  {
    var prefix := "btw-";
    if prefix <= sid {
      assert sid[0] == prefix[0] && sid[1] == prefix[1] && sid[2] == prefix[2] && sid[3] == prefix[3];
    }
    if !Lasting(sid) && |sid| >= 4 {
      assert sid[..4] == prefix;
      assert sid == sid[..4] + sid[4..];
    }
  }

  lemma TargetIs(e: Entry, sid: string)
    ensures TargetOf(e) == Some(sid) <==> For(e.raw, sid) && Lasting(sid)
  {
    DurableIsLasting(sid);
  }

  // ---- Which commands follow which switch ----

  /** `sent[i]` comes right behind the switch to `sid`, with only commands of this session between them. */
  ghost predicate Follows(sent: seq<Sent>, i: nat, sid: string) {
    exists j :: 0 <= j < i < |sent| && sent[j] == Switch(sid)
      && forall k :: j < k < i ==> sent[k].Command? && For(sent[k].entry.raw, sid)
  }

  /** A command for a lasting session follows the switch to it; one for none comes behind every switch and all those. */
  lemma CommandsArePlaced(entries: Entries, attached: Option<string>, i: nat)
    requires i < |Plan(entries, attached)| && Plan(entries, attached)[i].Command?
    ensures var plan := Plan(entries, attached);
            && (forall sid :: For(plan[i].entry.raw, sid) && Lasting(sid) ==> Follows(plan, i, sid))
            && ((forall sid :: For(plan[i].entry.raw, sid) ==> !Lasting(sid)) ==>
                forall k, sid :: i < k < |plan| ==> plan[k].Command? && (For(plan[k].entry.raw, sid) ==> !Lasting(sid)))
  {
    var plan := Plan(entries, attached);
    var e := plan[i].entry;
    RecoveryPlacesCommands(entries, attached, i);
    if TargetOf(e).Some? {
      var sid := TargetOf(e).value;
      TargetIs(e, sid);
      var j :| 0 <= j < i < |plan| && plan[j] == Switch(sid) && forall k :: j < k < i ==> IsFor(plan[k], sid);
      forall k | j < k < i ensures plan[k].Command? && For(plan[k].entry.raw, sid) {
        assert IsFor(plan[k], sid);
      }
    } else {
      forall k, sid | i < k < |plan| ensures plan[k].Command? && (For(plan[k].entry.raw, sid) ==> !Lasting(sid)) {
        TargetIs(plan[k].entry, sid);
      }
    }
    forall sid | For(e.raw, sid) && Lasting(sid) ensures Follows(plan, i, sid) {
      TargetIs(e, sid);
    }
  }

  // ---- Which sessions are switched to ----

  lemma {:induction false} TargetsOnly(entries: Entries, x: string)
    ensures x in Targets(entries) <==> exists k :: 0 <= k < |entries| && For(entries[k].raw, x) && Lasting(x)
  {
    if entries != [] {
      TargetsOnly(entries[1..], x);
      TargetIs(entries[0], x);
      if k :| 0 <= k < |entries[1..]| && For(entries[1..][k].raw, x) && Lasting(x) {
        assert entries[k + 1] == entries[1..][k];
      }
      if k :| 0 <= k < |entries| && For(entries[k].raw, x) && Lasting(x) {
        if k > 0 { assert entries[1..][k - 1] == entries[k]; }
      }
    }
  }

  ghost predicate HasSwitch(sent: seq<Sent>, x: string) {
    exists i :: 0 <= i < |sent| && sent[i] == Switch(x)
  }

  lemma {:induction false} SwitchInGroups(order: seq<string>, entries: Entries, x: string)
    ensures x in order <==> HasSwitch(Groups(order, entries), x)
    decreases |order|
  {
    if order != [] {
      var all, rest := Groups(order, entries), Groups(order[1..], entries);
      var n := |Group(order[0], entries)|;
      SwitchInGroups(order[1..], entries, x);
      assert order == [order[0]] + order[1..] && all[0] == Switch(order[0]);
      if i :| 0 <= i < |rest| && rest[i] == Switch(x) { assert all[n + i] == rest[i]; }
      if i :| 0 <= i < |all| && all[i] == Switch(x) {
        if i >= n { assert rest[i - n] == all[i]; }
      }
    }
  }

  /**
   The recovery says hello first and then switches exactly to the lasting sessions that have a command or are
   attached.
   */
  lemma SwitchesExactly(entries: Entries, attached: Option<string>, x: string)
    ensures Plan(entries, attached) != [] && Plan(entries, attached)[0] == Hello
    ensures HasSwitch(Plan(entries, attached), x) <==>
            Lasting(x) && (attached == Some(x) || exists k :: 0 <= k < |entries| && For(entries[k].raw, x))
  {
    var order, plan := Order(entries, attached), Plan(entries, attached);
    var groups := Groups(order, entries);
    OrderHas(entries, attached, x);
    SwitchInGroups(order, entries, x);
    if i :| 0 <= i < |groups| && groups[i] == Switch(x) { assert plan[1 + i] == Switch(x); }
    if i :| 0 <= i < |plan| && plan[i] == Switch(x) {
      assert 1 <= i < 1 + |groups|;
      assert groups[i - 1] == Switch(x);
      assert HasSwitch(groups, x);
    }
  }

  lemma OrderHas(entries: Entries, attached: Option<string>, x: string)
    ensures x in Order(entries, attached) <==>
            Lasting(x) && (attached == Some(x) || exists k :: 0 <= k < |entries| && For(entries[k].raw, x))
  {
    TargetsOnly(entries, x);
    DurableIsLasting(x);
    if attached.Some? && Durable(attached.value) {
      RemoveIs(Targets(entries), attached.value);
      FirstOccurrencesIs(Remove(Targets(entries), attached.value) + [attached.value]);
    } else {
      FirstOccurrencesIs(Targets(entries));
    }
  }

  // ---- In which order ----

  /** Something equal to `x` comes before everything equal to `y`. */
  ghost predicate Before(xs: seq<string>, x: string, y: string) {
    exists p :: 0 <= p < |xs| && xs[p] == x && forall q :: 0 <= q <= p ==> xs[q] != y
  }

  lemma {:induction false} RemoveKeepsOrder(xs: seq<string>, z: string, i: nat, j: nat)
    requires i < j < |Remove(xs, z)|
    ensures exists k, l :: 0 <= k < l < |xs| && xs[k] == Remove(xs, z)[i] && xs[l] == Remove(xs, z)[j]
  {
    if xs[0] == z {
      RemoveKeepsOrder(xs[1..], z, i, j);
      var k, l :| 0 <= k < l < |xs[1..]| && xs[1..][k] == Remove(xs, z)[i] && xs[1..][l] == Remove(xs, z)[j];
      assert xs[k + 1] == xs[1..][k] && xs[l + 1] == xs[1..][l];
    } else if i == 0 {
      RemoveIs(xs[1..], z);
      var y := Remove(xs[1..], z)[j - 1];
      assert y in Remove(xs[1..], z);
      var l :| 0 <= l < |xs[1..]| && xs[1..][l] == y;
      assert xs[l + 1] == y;
    } else {
      RemoveKeepsOrder(xs[1..], z, i - 1, j - 1);
      var k, l :| 0 <= k < l < |xs[1..]| && xs[1..][k] == Remove(xs, z)[i] && xs[1..][l] == Remove(xs, z)[j];
      assert xs[k + 1] == xs[1..][k] && xs[l + 1] == xs[1..][l];
    }
  }

  lemma {:induction false} FirstsInOrder(xs: seq<string>, i: nat, j: nat)
    requires i < j < |FirstOccurrences(xs)|
    ensures Before(xs, FirstOccurrences(xs)[i], FirstOccurrences(xs)[j])
    decreases |xs|
  {
    var firsts, later := FirstOccurrences(xs), FirstOccurrences(xs[1..]);
    FirstOccurrencesIs(xs);
    var x, y := firsts[i], firsts[j];
    if i == 0 {
      assert xs[0] == x;
    } else {
      RemoveKeepsOrder(later, xs[0], i - 1, j - 1);
      var k, l :| 0 <= k < l < |later| && later[k] == x && later[l] == y;
      FirstsInOrder(xs[1..], k, l);
      var p :| 0 <= p < |xs[1..]| && xs[1..][p] == x && forall q :: 0 <= q <= p ==> xs[1..][q] != y;
      assert xs[p + 1] == x && firsts[0] == xs[0] != y;
      forall q | 0 <= q <= p + 1 ensures xs[q] != y {
        if q > 0 { assert xs[1..][q - 1] == xs[q]; }
      }
    }
  }

  /** A command for `x` was queued before every command for `y`. */
  ghost predicate QueuedBefore(entries: Entries, x: string, y: string) {
    exists p :: 0 <= p < |entries| && For(entries[p].raw, x) && forall q :: 0 <= q <= p ==> !For(entries[q].raw, y)
  }

  lemma BeforeRest(xs: seq<string>, skip: nat, x: string, y: string)
    requires skip <= |xs| && Before(xs, x, y) && forall q :: 0 <= q < skip ==> xs[q] != x
    ensures Before(xs[skip..], x, y)
  {
    var p :| 0 <= p < |xs| && xs[p] == x && forall q :: 0 <= q <= p ==> xs[q] != y;
    assert xs[skip..][p - skip] == x;
  }

  lemma FirstIsNot(xs: seq<string>, x: string, y: string)
    requires Before(xs, x, y)
    ensures xs != [] && xs[0] != y && x != y
  {
  }

  lemma QueuedBeforeRest(entries: Entries, x: string, y: string)
    requires entries != [] && QueuedBefore(entries[1..], x, y) && !For(entries[0].raw, y)
    ensures QueuedBefore(entries, x, y)
  {
    var rest := entries[1..];
    var k :| 0 <= k < |rest| && For(rest[k].raw, x) && forall q :: 0 <= q <= k ==> !For(rest[q].raw, y);
    assert For(entries[k + 1].raw, x);
    forall q | 0 <= q <= k + 1 ensures !For(entries[q].raw, y) {
      if q > 0 { assert rest[q - 1] == entries[q]; }
    }
  }

  lemma {:induction false} TargetsInOrder(entries: Entries, x: string, y: string)
    requires Before(Targets(entries), x, y) && Lasting(x) && Lasting(y)
    ensures QueuedBefore(entries, x, y)
  {
    TargetIs(entries[0], x);
    TargetIs(entries[0], y);
    var target, all := TargetOf(entries[0]), Targets(entries);
    FirstIsNot(all, x, y);
    if target == Some(x) {
      assert For(entries[0].raw, x);
    } else {
      var skip := if target.Some? then 1 else 0;
      assert all[skip..] == Targets(entries[1..]);
      BeforeRest(all, skip, x, y);
      TargetsInOrder(entries[1..], x, y);
      QueuedBeforeRest(entries, x, y);
    }
  }

  lemma RemoveBefore(xs: seq<string>, z: string, x: string, y: string)
    requires Before(Remove(xs, z) + [z], x, y) && x != z && y != z
    ensures Before(xs, x, y)
  {
    var removed := Remove(xs, z) + [z];
    var p :| 0 <= p < |removed| && removed[p] == x && forall q :: 0 <= q <= p ==> removed[q] != y;
    RemovedBefore(xs, z, x, y, p);
  }

  lemma {:induction false} RemovedBefore(xs: seq<string>, z: string, x: string, y: string, p: nat)
    requires p < |Remove(xs, z)| && Remove(xs, z)[p] == x && y != z
    requires forall q :: 0 <= q <= p ==> (Remove(xs, z) + [z])[q] != y
    ensures Before(xs, x, y)
  {
    var removed, rest := Remove(xs, z), Remove(xs[1..], z);
    assert forall q :: 0 <= q <= p ==> removed[q] == (removed + [z])[q] != y;
    if xs[0] != z && p == 0 {
      assert xs[0] == x;
    } else {
      var skip := if xs[0] == z then 0 else 1;
      forall q | 0 <= q <= p - skip ensures (rest + [z])[q] != y {
        assert rest[q] == removed[q + skip];
      }
      RemovedBefore(xs[1..], z, x, y, p - skip);
      var k :| 0 <= k < |xs[1..]| && xs[1..][k] == x && forall q :: 0 <= q <= k ==> xs[1..][q] != y;
      assert xs[k + 1] == x;
      forall q | 0 <= q <= k + 1 ensures xs[q] != y {
        if q > 0 { assert xs[1..][q - 1] == xs[q]; }
        else if xs[0] != z { assert removed[0] == xs[0]; }
      }
    }
  }

  lemma OrderFollowsQueue(entries: Entries, attached: Option<string>, i: nat, j: nat)
    requires var order := Order(entries, attached);
             i < j < |order| && attached != Some(order[i]) && attached != Some(order[j])
    ensures QueuedBefore(entries, Order(entries, attached)[i], Order(entries, attached)[j])
  {
    var order := Order(entries, attached);
    var x, y := order[i], order[j];
    OrderCovers(entries, attached);
    assert x in order && y in order;
    DurableIsLasting(x);
    DurableIsLasting(y);
    if attached.Some? && Durable(attached.value) {
      FirstsInOrder(Remove(Targets(entries), attached.value) + [attached.value], i, j);
      RemoveBefore(Targets(entries), attached.value, x, y);
    } else {
      FirstsInOrder(Targets(entries), i, j);
    }
    TargetsInOrder(entries, x, y);
  }

  /** In the plan the switch to `order[i]` comes before the one to `order[j]`. */
  lemma {:induction false} GroupsInOrder(order: seq<string>, entries: Entries, a: nat, b: nat, x: string, y: string)
    requires forall i, j :: 0 <= i < j < |order| ==> order[i] != order[j]
    requires a < b < |Groups(order, entries)| && Groups(order, entries)[a] == Switch(x) &&
             Groups(order, entries)[b] == Switch(y)
    ensures exists i, j :: 0 <= i < j < |order| && order[i] == x && order[j] == y
    decreases |order|
  {
    var all, rest := Groups(order, entries), Groups(order[1..], entries);
    var n := |Group(order[0], entries)|;
    assert all[0] == Switch(order[0]);
    forall k | 0 < k < n ensures all[k].Command? {
      assert all[k] == Group(order[0], entries)[k];
    }
    assert b >= n && rest[b - n] == Switch(y);
    assert HasSwitch(rest, y);
    if a == 0 {
      SwitchInGroups(order[1..], entries, y);
      assert y in order[1..];
      var j :| 0 <= j < |order[1..]| && order[1..][j] == y;
      assert order[j + 1] == y;
    } else {
      assert a >= n && rest[a - n] == all[a];
      GroupsInOrder(order[1..], entries, a - n, b - n, x, y);
      var i, j :| 0 <= i < j < |order[1..]| && order[1..][i] == x && order[1..][j] == y;
      assert order[i + 1] == x && order[j + 1] == y;
    }
  }

  /** Sessions other than the attached one are switched to in the order in which their first commands were queued. */
  lemma SwitchesFollowQueue(entries: Entries, attached: Option<string>, a: nat, b: nat, x: string, y: string)
    requires var plan := Plan(entries, attached); a < b < |plan| && plan[a] == Switch(x) && plan[b] == Switch(y)
    requires attached != Some(x) && attached != Some(y)
    ensures QueuedBefore(entries, x, y)
  {
    var order, plan := Order(entries, attached), Plan(entries, attached);
    var groups := Groups(order, entries);
    assert 1 <= a < 1 + |groups| && 1 <= b < 1 + |groups|;
    assert groups[a - 1] == plan[a] && groups[b - 1] == plan[b];
    OrderCovers(entries, attached);
    GroupsInOrder(order, entries, a - 1, b - 1, x, y);
    var i, j :| 0 <= i < j < |order| && order[i] == x && order[j] == y;
    OrderFollowsQueue(entries, attached, i, j);
  }
}
