/**
 The order run (scripts/ortho-populate.ts): the enqueue loop that lowers the
 target for every row that could not be created, and the watchdog that always
 stops the run.
 */
module OrderRun {
  import opened Basics
  import opened EvenSpread

  const STAGES := 8
  const SIDE_ROWS := 2

  /** Which orders carry shoes. */
  function Plan(orders: nat, percent: int): seq<bool> {
    seq(orders, i requires 0 <= i < orders => Chosen(i, percent))
  }

  function ShoeCount(plan: seq<bool>): nat {
    if plan == [] then 0 else ShoeCount(plan[..|plan| - 1]) + if plan[|plan| - 1] then 1 else 0
  }

  /** The target a run starts from. */
  function InitialTarget(plan: seq<bool>): nat {
    |plan| * STAGES + ShoeCount(plan) * SIDE_ROWS
  }

  lemma {:induction false} PlanShoes(orders: nat, percent: int)
    ensures ShoeCount(Plan(orders, percent)) == CountChosen(0, orders, percent)
  {
    if orders > 0 {
      PlanShoes(orders - 1, percent);
      assert Plan(orders, percent)[..orders - 1] == Plan(orders - 1, percent);
    }
  }

  /** Eight stages an order, and two more for each of the evenly spread shoe orders. */
  lemma InitialTargetOfPlan(orders: nat, percent: int)
    requires 0 <= percent <= 100
    ensures InitialTarget(Plan(orders, percent)) == 8 * orders + 2 * ((orders * percent) / 100)
  {
    PlanShoes(orders, percent);
    WindowCount(0, orders, percent);
    assert 0 * percent == 0;
  }

  // ── Enqueue ────────────────────────────────────────────────────────────────

  /** How one order fared: not tried yet, enqueued in full, its workflow refused, or only its side row refused. */
  datatype Fate = Untried | Enqueued | Refused | SideRefused

  /** The resolutions still to be expected of one order. */
  function Owed(shoes: bool, fate: Fate): nat {
    (if fate.Refused? then 0 else STAGES) + (if shoes && fate != Refused && fate != SideRefused then SIDE_ROWS else 0)
  }

  function TotalOwed(plan: seq<bool>, fates: seq<Fate>): nat
    requires |plan| == |fates|
  {
    if plan == [] then 0
    else TotalOwed(plan[..|plan| - 1], fates[..|plan| - 1]) + Owed(plan[|plan| - 1], fates[|plan| - 1])
  }

  lemma {:induction false} UntriedOwed(plan: seq<bool>, fates: seq<Fate>)
    requires |plan| == |fates| && forall k :: 0 <= k < |fates| ==> fates[k] == Untried
    ensures TotalOwed(plan, fates) == InitialTarget(plan)
  {
    if plan != [] {
      UntriedOwed(plan[..|plan| - 1], fates[..|plan| - 1]);
    }
  }

  /** One order's fate moves the total by what that order owed and owes. */
  lemma {:induction false} FateMovesTotal(plan: seq<bool>, fates: seq<Fate>, i: nat, fate: Fate)
    requires |plan| == |fates| && i < |plan|
    ensures TotalOwed(plan, fates[i := fate]) == TotalOwed(plan, fates) - Owed(plan[i], fates[i]) + Owed(plan[i], fate)
  {
    var n := |plan| - 1;
    var fates' := fates[i := fate];
    if i == n {
      assert fates'[..n] == fates[..n];
    } else {
      FateMovesTotal(plan[..n], fates[..n], i, fate);
      assert fates'[..n] == fates[..n][i := fate];
    }
  }

  /** The orders whose workflow was started, in order. */
  function Started(fates: seq<Fate>): seq<nat> {
    if fates == [] then []
    else
      var n := |fates| - 1;
      Started(fates[..n]) + if fates[n].Enqueued? || fates[n].SideRefused? then [n] else []
  }

  class Target {
    var value: int

    constructor (value: int)
      ensures this.value == value
    {
      this.value := value;
    }
  }

  /**
   The enqueue loop, up to the moment the watchdog raises its flag: `invoke`
   and `side` say which requests succeed, `doneBefore` how many orders are
   tried first. At that moment, wherever it falls, the target is what the
   orders still owe: eight for each not refused, two for each shoe order
   neither of whose rows was refused.
   */
  method Enqueue(plan: seq<bool>, target: Target, invoke: nat -> bool, side: nat -> bool, doneBefore: nat)
    returns (workflowIds: seq<nat>, ghost fates: seq<Fate>)
    requires target.value == InitialTarget(plan)
    modifies target
    ensures |fates| == |plan| && target.value == TotalOwed(plan, fates)
    ensures forall i :: 0 <= i < |plan| ==>
              fates[i] == if i >= doneBefore then Untried
                          else if !invoke(i) then Refused
                          else if plan[i] && !side(i) then SideRefused
                          else Enqueued
    ensures workflowIds == Started(fates)
    ensures 0 <= target.value <= old(target.value)
  {
    workflowIds := [];
    fates := seq(|plan|, i => Untried);
    UntriedOwed(plan, fates);
    var i := 0;
    NothingStarted(fates);
    while i < |plan|
      invariant 0 <= i <= |plan| && (doneBefore < i ==> i == 0)
      invariant |fates| == |plan| && target.value == TotalOwed(plan, fates) <= old(target.value)
      invariant forall k :: 0 <= k < |plan| ==>
                  fates[k] == if k >= i then Untried
                              else if !invoke(k) then Refused
                              else if plan[k] && !side(k) then SideRefused
                              else Enqueued
      invariant workflowIds == Started(fates)
      decreases |plan| - i
    {
      if i >= doneBefore {
        break;
      }
      ghost var before := fates;
      if invoke(i) {
        workflowIds := workflowIds + [i];
        fates := fates[i := Enqueued];
        FateMovesTotal(plan, before, i, Enqueued);
        StartedOne(before, i, Enqueued);
        if plan[i] && !side(i) {
          target.value := target.value - SIDE_ROWS;
          FateMovesTotal(plan, before, i, SideRefused);
          StartedOne(before, i, SideRefused);
          fates := before[i := SideRefused];
        }
      } else {
        target.value := target.value - (STAGES + if plan[i] then SIDE_ROWS else 0);
        FateMovesTotal(plan, before, i, Refused);
        StartedOne(before, i, Refused);
        fates := fates[i := Refused];
      }
      i := i + 1;
    }
  }

  lemma {:induction false} NothingStarted(fates: seq<Fate>)
    requires forall k :: 0 <= k < |fates| ==> fates[k] == Untried
    ensures Started(fates) == []
  {
    if fates != [] {
      NothingStarted(fates[..|fates| - 1]);
    }
  }

  lemma {:induction false} StartedOne(fates: seq<Fate>, i: nat, fate: Fate)
    requires i < |fates| && forall k :: i <= k < |fates| ==> fates[k] == Untried
    ensures Started(fates[i := fate]) == Started(fates) + if fate.Enqueued? || fate.SideRefused? then [i] else []
  {
    var n := |fates| - 1;
    var fates' := fates[i := fate];
    if i == n {
      assert fates'[..n] == fates[..n];
    } else {
      StartedOne(fates[..n], i, fate);
      assert fates'[..n] == fates[..n][i := fate];
      assert fates'[n] == Untried;
    }
  }

  // ── Watchdog ───────────────────────────────────────────────────────────────

  /** The least whole number of seconds not under `s`. */
  function Ceiling(s: real): int {
    if (s.Floor as real) == s then s.Floor else s.Floor + 1
  }

  /** What the watchdog sees at each tick: resolutions only grow, the target only shrinks. */
  ghost predicate Observed(resolved: nat -> nat, target: nat -> int) {
    forall i, j :: i <= j ==> resolved(i) <= resolved(j) && target(j) <= target(i)
  }

  /**
   The watchdog loop; `stall` is the quiet window in seconds, at least thirty.
   Every tick brings a new resolution or a quieter second, so it stops whatever
   the run does, within a bound set by the initial target; and it stops for a
   reason: the target is met, or nothing was resolved for a whole quiet window.
   */
  method Watchdog(resolved: nat -> nat, target: nat -> int, stall: real) returns (ticks: nat, stalled: bool)
    requires Observed(resolved, target) && target(0) >= 0 && stall >= 30.0
    ensures ticks <= (target(0) + 1) * (Ceiling(stall) + 1)
    ensures !stalled ==> ticks > 0 && resolved(ticks) >= target(ticks)
    ensures stalled ==> ticks >= Ceiling(stall) && resolved(ticks) == resolved(ticks - Ceiling(stall)) < target(ticks)
    ensures forall t :: 0 < t < ticks ==> resolved(t) < target(t)
  {
    var c := Ceiling(stall);
    ghost var goal := target(0);
    var lastResolved, stalledFor := resolved(0), 0;
    ticks := 0;
    while true
      invariant 0 <= stalledFor < c && stalledFor <= ticks
      invariant lastResolved == resolved(ticks) == resolved(ticks - stalledFor)
      invariant ticks > 0 ==> lastResolved < goal
      invariant ticks + Budget(goal - lastResolved, c - stalledFor, c) <= (goal + 1) * (c + 1)
      invariant forall t :: 0 < t <= ticks ==> resolved(t) < target(t)
      decreases goal - lastResolved, c - stalledFor
    {
      var before := ticks;
      ticks := ticks + 1;
      assert target(ticks) <= target(0);
      if resolved(ticks) >= target(ticks) {
        BudgetPositive(goal - lastResolved, c - stalledFor, c);
        return ticks, false;
      }
      if resolved(ticks) > lastResolved {
        BudgetFalls(goal - lastResolved, goal - resolved(ticks), c - stalledFor, c);
        stalledFor := 0;
        lastResolved := resolved(ticks);
      } else {
        assert resolved(before) <= resolved(ticks);
        stalledFor := stalledFor + 1;
        if stalledFor as real >= stall {
          CeilingIs(stall, stalledFor);
          BudgetPositive(goal - lastResolved, c - stalledFor + 1, c);
          return ticks, true;
        }
        CeilingIs(stall, stalledFor);
      }
    }
  }

  lemma CeilingIs(s: real, n: int)
    ensures n as real >= s <==> n >= Ceiling(s)
  {
  }

  /** Ticks that can still come: `left` resolutions to go, each after at most `c` quiet ticks. */
  function Budget(left: int, quiet: int, c: int): int {
    Max(left, 0) * (c + 1) + quiet
  }

  lemma BudgetPositive(left: int, quiet: int, c: int)
    requires quiet >= 1 && c >= 0
    ensures Budget(left, quiet, c) >= 1
  {
    assert Max(left, 0) * (c + 1) >= 0;
  }

  lemma BudgetFalls(left: int, left': int, quiet: int, c: int)
    requires 0 < left' < left && 1 <= quiet && c >= 0
    ensures Budget(left', c, c) + 1 <= Budget(left, quiet, c)
  {
    assert left * (c + 1) >= (left' + 1) * (c + 1) == left' * (c + 1) + c + 1;
  }
}
