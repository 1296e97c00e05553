/**
 Changing the permission mode of a terminal program that only knows "next mode": Shift+Tab is sent until the
 wanted mode comes up, a mode comes up twice, or the program does not answer.
 */
module PermissionCycle {
  import opened Common

  type Mode = string

  /** The modes the broker knows, in its own order. */
  function Cycle(bypassAllowed: bool): (cycle: seq<Mode>)
    ensures forall i, j :: 0 <= i < j < |cycle| ==> cycle[i] != cycle[j]
  {
    if bypassAllowed then ["default", "acceptEdits", "plan", "bypassPermissions", "auto"]
    else ["default", "acceptEdits", "plan", "auto"]
  }

  function Normal(value: Mode): Mode {
    if value == "manual" then "default" else value
  }

  datatype Error = NotAvailable | AbsentFromCycle | NoAnswer | DidNotConverge

  /** The program's answer to the n-th Shift+Tab: a mode of the broker's cycle, or nothing before the deadline. */
  type Replies = nat -> Option<Mode>

  predicate InCycle(cycle: seq<Mode>, replies: Replies, n: nat) {
    replies(n).Some? ==> replies(n).value in cycle
  }

  datatype Answer = Answer(result: Result<(), Error>, mode: Mode, steps: nat)

  /** The loop from step `n` on, at most until `bound` steps have been made. */
  function StepFrom(target: Mode, replies: Replies, seen: set<Mode>, mode: Mode, n: nat, bound: nat): Answer
    requires n <= bound
    decreases bound - n
  {
    if n == bound then Answer(Err(DidNotConverge), mode, n)
    else if replies(n).None? then Answer(Err(NoAnswer), mode, n + 1)
    else
      var applied := replies(n).value;
      if applied == target then Answer(Ok(()), applied, n + 1)
      else if applied in seen then Answer(Err(AbsentFromCycle), applied, n + 1)
      else StepFrom(target, replies, seen + {applied}, applied, n + 1, bound)
  }

  function SetMode(bypassAllowed: bool, current: Mode, value: Mode, replies: Replies): Answer {
    var cycle := Cycle(bypassAllowed);
    var target := Normal(value);
    if target !in cycle then Answer(Err(NotAvailable), current, 0)
    else if target == current then Answer(Ok(()), current, 0)
    else StepFrom(target, replies, {current}, current, 0, |cycle| + 1)
  }

  // ---- Convergence ----

  function Elements(cycle: seq<Mode>): set<Mode> {
    set m | m in cycle
  }

  lemma {:induction false} DistinctSize(cycle: seq<Mode>)
    requires forall i, j :: 0 <= i < j < |cycle| ==> cycle[i] != cycle[j]
    ensures |Elements(cycle)| == |cycle|
  {
    if cycle == [] {
      assert Elements(cycle) == {};
    } else {
      var rest := cycle[1..];
      DistinctSize(rest);
      assert cycle == [cycle[0]] + rest && cycle[0] !in rest;
      assert Elements(cycle) == Elements(rest) + {cycle[0]};
    }
  }

  /** Every step takes a new mode of the cycle, and the target is not one of them: the steps run out first. */
  lemma {:induction false} StepsRunOut(cycle: seq<Mode>, target: Mode, replies: Replies, seen: set<Mode>, mode: Mode,
                                       n: nat, bound: nat)
    requires n <= bound && target in cycle && target !in seen
    requires forall k: nat :: InCycle(cycle, replies, k)
    requires n + |Elements(cycle) - seen| <= bound
    ensures var a := StepFrom(target, replies, seen, mode, n, bound);
            a.result != Err(DidNotConverge) && a.steps <= n + |Elements(cycle) - seen|
    decreases bound - n
  {
    var left := Elements(cycle) - seen;
    assert target in left;
    if n < bound && replies(n).Some? {
      var applied := replies(n).value;
      assert InCycle(cycle, replies, n);
      if applied != target && applied !in seen {
        assert applied in left;
        assert Elements(cycle) - (seen + {applied}) == left - {applied};
        StepsRunOut(cycle, target, replies, seen + {applied}, applied, n + 1, bound);
      }
    }
  }

  /** Whatever the program answers, the loop ends within the length of the cycle, so its last error never happens. */
  lemma AlwaysConverges(bypassAllowed: bool, current: Mode, value: Mode, replies: Replies)
    requires forall k: nat :: InCycle(Cycle(bypassAllowed), replies, k)
    ensures var a := SetMode(bypassAllowed, current, value, replies);
            a.result != Err(DidNotConverge) && a.steps <= |Cycle(bypassAllowed)|
  {
    var cycle, target := Cycle(bypassAllowed), Normal(value);
    if target in cycle && target != current {
      DistinctSize(cycle);
      SubsetCardinality(Elements(cycle) - {current}, Elements(cycle));
      StepsRunOut(cycle, target, replies, {current}, current, 0, |cycle| + 1);
    }
  }

  // ---- A program with a fixed ring of modes ----

  predicate IsRing(ring: seq<Mode>) {
    ring != [] && forall i, j :: 0 <= i < j < |ring| ==> ring[i] != ring[j]
  }

  /** `n` places further round a ring of `size` places. */
  function Place(size: nat, at: nat, n: nat): (p: nat)
    requires at < size
    ensures p < size
  {
    if n == 0 then at
    else
      var p := Place(size, at, n - 1);
      if p + 1 == size then 0 else p + 1
  }

  lemma {:induction false} PlaceIs(size: nat, at: nat, n: nat)
    requires at < size && n < size
    ensures Place(size, at, n) == if at + n < size then at + n else at + n - size
  {
    if n > 0 { PlaceIs(size, at, n - 1); }
  }

  /** Each Shift+Tab goes one place further. */
  ghost predicate Follows(ring: seq<Mode>, at: nat, replies: Replies)
    requires at < |ring|
  {
    forall k: nat :: replies(k) == Some(ring[Place(|ring|, at, k + 1)])
  }

  /** Everything in `seen` is on one of the first `n` places. */
  ghost predicate SeenWithin(ring: seq<Mode>, at: nat, n: nat, seen: set<Mode>)
    requires at < |ring|
  {
    forall m :: m in seen ==> exists k: nat :: k <= n && ring[Place(|ring|, at, k)] == m
  }

  lemma PlacesDiffer(ring: seq<Mode>, at: nat, i: nat, j: nat)
    requires IsRing(ring) && at < |ring| && i < j < |ring|
    ensures ring[Place(|ring|, at, i)] != ring[Place(|ring|, at, j)]
  {
    PlaceIs(|ring|, at, i);
    PlaceIs(|ring|, at, j);
  }

  /** On the way to the target, `d` places ahead, nothing comes up twice. */
  lemma {:induction false} RingReaches(ring: seq<Mode>, at: nat, d: nat, replies: Replies, seen: set<Mode>,
                                       mode: Mode, n: nat, bound: nat)
    requires IsRing(ring) && at < |ring| && Follows(ring, at, replies) && n < d < |ring| && n <= bound
    requires SeenWithin(ring, at, n, seen)
    ensures StepFrom(ring[Place(|ring|, at, d)], replies, seen, mode, n, bound).result in {Ok(()), Err(DidNotConverge)}
    decreases d - n
  {
    if n < bound {
      assert replies(n) == Some(ring[Place(|ring|, at, n + 1)]);
      var applied := replies(n).value;
      if n + 1 < d {
        PlacesDiffer(ring, at, n + 1, d);
        forall m | m in seen ensures m != applied {
          var k: nat :| k <= n && ring[Place(|ring|, at, k)] == m;
          PlacesDiffer(ring, at, k, n + 1);
        }
        RingReaches(ring, at, d, replies, seen + {applied}, applied, n + 1, bound);
      }
    }
  }

  lemma {:induction false} SuccessIsReply(target: Mode, replies: Replies, seen: set<Mode>, mode: Mode, n: nat,
                                          bound: nat)
    requires n <= bound && StepFrom(target, replies, seen, mode, n, bound).result.Ok?
    ensures StepFrom(target, replies, seen, mode, n, bound).mode == target
    ensures exists k: nat :: replies(k) == Some(target)
    decreases bound - n
  {
    if replies(n) != Some(target) {
      SuccessIsReply(target, replies, seen + {replies(n).value}, replies(n).value, n + 1, bound);
    }
  }

  /**
   A program that goes round a ring of the broker's modes is brought to the wanted mode exactly when its ring has it.
   */
  lemma RingExact(bypassAllowed: bool, ring: seq<Mode>, at: nat, value: Mode, replies: Replies)
    requires IsRing(ring) && at < |ring| && Follows(ring, at, replies)
    requires forall m :: m in ring ==> m in Cycle(bypassAllowed)
    ensures SetMode(bypassAllowed, ring[at], value, replies).result.Ok? <==> Normal(value) in ring
    ensures Normal(value) in ring ==> SetMode(bypassAllowed, ring[at], value, replies).mode == Normal(value)
  {
    var cycle, target := Cycle(bypassAllowed), Normal(value);
    var a := SetMode(bypassAllowed, ring[at], value, replies);
    forall k: nat ensures InCycle(cycle, replies, k) {
      assert replies(k) == Some(ring[Place(|ring|, at, k + 1)]);
    }
    AlwaysConverges(bypassAllowed, ring[at], value, replies);
    if target in ring && target != ring[at] {
      var t :| 0 <= t < |ring| && ring[t] == target;
      var d := if t > at then t - at else t + |ring| - at;
      PlaceIs(|ring|, at, d);
      assert ring[Place(|ring|, at, 0)] == ring[at];
      RingReaches(ring, at, d, replies, {ring[at]}, ring[at], 0, |cycle| + 1);
    }
    if a.result.Ok? && target != ring[at] {
      SuccessIsReply(target, replies, {ring[at]}, ring[at], 0, |cycle| + 1);
      var k: nat :| replies(k) == Some(target);
      assert replies(k) == Some(ring[Place(|ring|, at, k + 1)]);
    }
  }

  // ---- Any program ----

  /** The `k`-th answer was the mode at the start, or an earlier answer. */
  ghost predicate Repeats(start: Mode, replies: Replies, k: nat) {
    replies(k) == Some(start) || exists i: nat :: i < k && replies(i) == replies(k)
  }

  /** The loop goes on after the `k`-th answer. */
  ghost predicate GoesOn(start: Mode, target: Mode, replies: Replies, k: nat) {
    replies(k).Some? && replies(k) != Some(target) && !Repeats(start, replies, k)
  }

  /** The mode after `k` answers. */
  function ModeAfter(start: Mode, replies: Replies, k: nat): Mode {
    if k == 0 then start else replies(k - 1).GetOr(start)
  }

  /** It stopped with answer `k`: none came, or the wanted mode, or one seen before. */
  ghost predicate StopsAt(start: Mode, target: Mode, replies: Replies, k: nat, a: Answer) {
    && !GoesOn(start, target, replies, k) && (forall j: nat :: j < k ==> GoesOn(start, target, replies, j))
    && a.steps == k + 1
    && a.result == (if replies(k).None? then Err(NoAnswer) else if replies(k) == Some(target) then Ok(())
                    else Err(AbsentFromCycle))
    && a.mode == if replies(k).None? then ModeAfter(start, replies, k) else replies(k).value
  }

  lemma {:induction false} StepsStop(start: Mode, target: Mode, replies: Replies, seen: set<Mode>, n: nat, bound: nat)
    requires n <= bound && forall j: nat :: j < n ==> GoesOn(start, target, replies, j)
    requires forall m :: m in seen <==> m == start || exists i: nat :: i < n && replies(i) == Some(m)
    ensures var a := StepFrom(target, replies, seen, ModeAfter(start, replies, n), n, bound);
            a.result == Err(DidNotConverge) || exists k: nat :: StopsAt(start, target, replies, k, a)
    decreases bound - n
  {
    if n < bound {
      var a := StepFrom(target, replies, seen, ModeAfter(start, replies, n), n, bound);
      if replies(n).Some? {
        var applied := replies(n).value;
        assert applied in seen <==> Repeats(start, replies, n);
        if applied != target && applied !in seen {
          assert GoesOn(start, target, replies, n);
          StepsStop(start, target, replies, seen + {applied}, n + 1, bound);
        } else {
          assert StopsAt(start, target, replies, n, a);
        }
      } else {
        assert StopsAt(start, target, replies, n, a);
      }
    }
  }

  /** The names the broker takes for a mode: "manual" is the default mode, and bypassing needs to be allowed. */
  predicate Accepts(bypassAllowed: bool, value: Mode) {
    value in {"manual", "default", "acceptEdits", "plan", "auto"} || (value == "bypassPermissions" && bypassAllowed)
  }

  /**
   Whatever the program answers with modes of the cycle: a mode that is not accepted is refused, the present one is
   there at once, and otherwise the first answer that is missing, wanted or repeated decides.
   */
  lemma SetModeExactly(bypassAllowed: bool, current: Mode, value: Mode, replies: Replies)
    requires forall k: nat :: InCycle(Cycle(bypassAllowed), replies, k)
    ensures var a, target := SetMode(bypassAllowed, current, value, replies), if value == "manual" then "default"
            else value;
            if !Accepts(bypassAllowed, value) then a == Answer(Err(NotAvailable), current, 0)
            else if target == current then a == Answer(Ok(()), current, 0)
            else exists k: nat :: StopsAt(current, target, replies, k, a)
  {
    var target := Normal(value);
    if Accepts(bypassAllowed, value) && target != current {
      AlwaysConverges(bypassAllowed, current, value, replies);
      StepsStop(current, target, replies, {current}, 0, |Cycle(bypassAllowed)| + 1);
    }
  }

  // ---- The control ----

  class Controls {
    const bypassAllowed: bool
    var permissionMode: Mode

    constructor (bypassAllowed: bool, mode: Mode)
      ensures this.bypassAllowed == bypassAllowed && permissionMode == mode
    {
      this.bypassAllowed := bypassAllowed;
      permissionMode := mode;
    }

    method SetPermissionMode(value: Mode, replies: Replies) returns (result: Result<(), Error>, ghost steps: nat)
      modifies this`permissionMode
      ensures Answer(result, permissionMode, steps) == SetMode(bypassAllowed, old(permissionMode), value, replies)
    {
      var mode := value;
      if mode == "manual" {
        mode := "default";
      }
      var cycle := Cycle(bypassAllowed);
      if mode !in cycle {
        return Err(NotAvailable), 0;
      }
      if mode == permissionMode {
        return Ok(()), 0;
      }
      var seen := {permissionMode};
      for n := 0 to |cycle| + 1
        invariant StepFrom(mode, replies, seen, permissionMode, n, |cycle| + 1) ==
                  SetMode(bypassAllowed, old(permissionMode), value, replies)
      {
        var reply := replies(n);
        if reply.None? {
          return Err(NoAnswer), n + 1;
        }
        permissionMode := reply.value;
        if permissionMode == mode {
          return Ok(()), n + 1;
        }
        if permissionMode in seen {
          return Err(AbsentFromCycle), n + 1;
        }
        seen := seen + {permissionMode};
      }
      return Err(DidNotConverge), |cycle| + 1;
    }
  }
}
