/**
 A printer's day, walked forward from six hours ago (examples/seed-fleet-sim.ts,
 planIntervals). Times are milliseconds; the clock stands still during a walk.
 */
module FleetHistory {
  import opened Basics

  datatype State = Idle | Printing | Harvest | Service

  /** A stay in one state; the live one has no end. */
  datatype Interval = Interval(state: State, start: int, end: Option<int>)

  const MINUTE := 60_000
  const HISTORY_HOURS := 6

  /** The nearest integer to base * (0.7 + 0.06 k), either one when two are as near. */
  predicate IsVaried(base: nat, i: nat, c: nat, salt: nat, v: int) {
    var k := (i * 7 + c * 13 + salt * 29) % 10;
    -50 <= 100 * v - base * (70 + 6 * k) <= 50
  }

  /** The host's rounding of the per-printer variation. */
  ghost predicate Varies(vary: (nat, nat, nat, nat) -> int) {
    forall base, i, c, salt :: IsVaried(base, i, c, salt, vary(base, i, c, salt))
  }

  function Base(state: State): nat {
    match state
    case Idle => 25
    case Printing => 65
    case Harvest => 10
    case Service => 35
  }

  function Salt(state: State): nat {
    match state
    case Idle => 1
    case Printing => 2
    case Harvest => 3
    case Service => 4
  }

  /** A place in the walk: a cycle, and a state of that cycle. */
  datatype Position = Position(cycle: nat, state: State)

  predicate WithService(i: nat, cycle: nat) {
    (i + cycle) % 3 == 2
  }

  /** Idle, printing, harvest, service on some cycles, then idle again. */
  function Next(i: nat, p: Position): Position {
    match p.state
    case Idle => p.(state := Printing)
    case Printing => p.(state := Harvest)
    case Harvest => if WithService(i, p.cycle) then p.(state := Service) else Position(p.cycle + 1, Idle)
    case Service => Position(p.cycle + 1, Idle)
  }

  function PositionAt(i: nat, k: nat): Position {
    if k == 0 then Position(0, Idle) else Next(i, PositionAt(i, k - 1))
  }

  /** The planned end of a stay. */
  function PlannedEnd(vary: (nat, nat, nat, nat) -> int, i: nat, p: Position, start: int): int {
    start + vary(Base(p.state), i, p.cycle, Salt(p.state)) * MINUTE
  }

  /** A closed stay: the state its place calls for, as long as planned, over before now. */
  ghost predicate Closed(vary: (nat, nat, nat, nat) -> int, i: nat, now: int, out: seq<Interval>, k: nat)
    requires k < |out|
  {
    var p := PositionAt(i, k);
    && out[k].state == p.state
    && out[k].end == Some(PlannedEnd(vary, i, p, out[k].start))
    && out[k].start < out[k].end.value < now
  }

  /** The gap after a closed stay: two to four minutes. */
  ghost predicate Settles(out: seq<Interval>, k: nat, start: int)
    requires k < |out|
  {
    out[k].end.Some? && 2 * MINUTE <= start - out[k].end.value <= 4 * MINUTE
  }

  ghost predicate Followed(out: seq<Interval>, k: nat)
    requires k + 1 < |out|
  {
    Settles(out, k, out[k + 1].start)
  }

  /** The closed stays walked so far, one after the other, leading up to `t`. */
  ghost predicate Walked(vary: (nat, nat, nat, nat) -> int, i: nat, now: int, out: seq<Interval>, t: int) {
    && (forall k :: 0 <= k < |out| ==> Closed(vary, i, now, out, k))
    && (forall k :: 0 <= k < |out| - 1 ==> Followed(out, k))
    && (if out == [] then t == now - HISTORY_HOURS * 60 * MINUTE
        else out[0].start == now - HISTORY_HOURS * 60 * MINUTE && Settles(out, |out| - 1, t))
  }

  /**
   A whole day: closed stays up to the live one, which is planned past now, or
   is an idle parked within ten minutes of it.
   */
  ghost predicate Day(vary: (nat, nat, nat, nat) -> int, i: nat, now: int, out: seq<Interval>) {
    && out != []
    && var last := out[|out| - 1];
    && var p := PositionAt(i, |out| - 1);
    && Walked(vary, i, now, out[..|out| - 1], last.start)
    && last.state == p.state && last.end.None? && last.start < now + 4 * MINUTE
    && (PlannedEnd(vary, i, p, last.start) >= now || (last.state == Idle && last.start >= now - 10 * MINUTE))
  }

  lemma Durations(vary: (nat, nat, nat, nat) -> int, i: nat, cycle: nat, state: State)
    requires Varies(vary)
    ensures vary(Base(state), i, cycle, Salt(state)) >= 7
    ensures 2 <= vary(3, i, cycle, 5) <= 4
  {
    assert IsVaried(Base(state), i, cycle, Salt(state), vary(Base(state), i, cycle, Salt(state)));
    assert IsVaried(3, i, cycle, 5, vary(3, i, cycle, 5));
  }

  lemma WalkOn(vary: (nat, nat, nat, nat) -> int, i: nat, now: int, out: seq<Interval>, t: int, stay: Interval, t': int)
    requires Walked(vary, i, now, out, t) && stay.start == t
    requires Closed(vary, i, now, out + [stay], |out|) && Settles(out + [stay], |out|, t')
    ensures Walked(vary, i, now, out + [stay], t')
  {
    var out' := out + [stay];
    forall k | 0 <= k < |out'| ensures Closed(vary, i, now, out', k) {
      assert k < |out| ==> Closed(vary, i, now, out, k);
    }
    forall k | 0 <= k < |out'| - 1 ensures Followed(out', k) {
      assert k < |out| - 1 ==> Followed(out, k);
    }
  }

  /** A day is open past its last closed stay only by the settling gap. */
  lemma NotFarAhead(vary: (nat, nat, nat, nat) -> int, i: nat, now: int, out: seq<Interval>, t: int)
    requires Walked(vary, i, now, out, t)
    ensures t < now + 4 * MINUTE
  {
    if out != [] {
      assert Closed(vary, i, now, out, |out| - 1);
    }
  }

  method PlanIntervals(vary: (nat, nat, nat, nat) -> int, i: nat, now: int) returns (out: seq<Interval>)
    requires Varies(vary)
    ensures Day(vary, i, now, out)
  {
    out := [];
    var t := now - HISTORY_HOURS * 60 * MINUTE;
    var c := 0;
    while t < now - 10 * MINUTE
      invariant Walked(vary, i, now, out, t)
      invariant PositionAt(i, |out|) == Position(c, Idle)
      decreases now - t
    {
      var states := [Idle, Printing, Harvest] + if WithService(i, c) then [Service] else [];
      var j := 0;
      ghost var t0 := t;
      while j < |states|
        invariant 0 <= j <= |states|
        invariant Walked(vary, i, now, out, t)
        invariant PositionAt(i, |out|) == if j < |states| then Position(c, states[j]) else Position(c + 1, Idle)
        invariant j == 0 ==> t == t0
        invariant j > 0 ==> t > t0
      {
        Durations(vary, i, c, states[j]);
        var end := t + vary(Base(states[j]), i, c, Salt(states[j])) * MINUTE;
        if end >= now {
          NotFarAhead(vary, i, now, out, t);
          out := out + [Interval(states[j], t, None)];
          assert out[..|out| - 1] + [out[|out| - 1]] == out;
          return;
        }
        var stay := Interval(states[j], t, Some(end));
        var t' := end + vary(3, i, c, 5) * MINUTE;
        WalkOn(vary, i, now, out, t, stay, t');
        out, t, j := out + [stay], t', j + 1;
      }
      c := c + 1;
    }
    NotFarAhead(vary, i, now, out, t);
    out := out + [Interval(Idle, t, None)];
    assert out[..|out| - 1] + [out[|out| - 1]] == out;
  }

  // ── What a day shows ───────────────────────────────────────────────────────

  /** Milliseconds spent in the closed stays of a day. */
  function TimeClosed(out: seq<Interval>): int {
    if out == [] then 0
    else (if out[0].end.Some? then out[0].end.value - out[0].start else 0) + TimeClosed(out[1..])
  }

  /** Milliseconds between the stays of a day. */
  function TimeBetween(out: seq<Interval>): int {
    if |out| < 2 then 0
    else (if out[0].end.Some? then out[1].start - out[0].end.value else 0) + TimeBetween(out[1..])
  }

  lemma {:induction false} TimeAddsUp(out: seq<Interval>)
    requires out != [] && out[|out| - 1].end.None? && forall k :: 0 <= k < |out| - 1 ==> out[k].end.Some?
    ensures TimeClosed(out) + TimeBetween(out) == out[|out| - 1].start - out[0].start
  {
    if |out| > 1 {
      TimeAddsUp(out[1..]);
    } else {
      assert out[1..] == [];
    }
  }

  /** Intervals in order and apart, gaps of two to four minutes, only the last open, six hours in all, nothing lost. */
  lemma DayInOrder(vary: (nat, nat, nat, nat) -> int, i: nat, now: int, out: seq<Interval>)
    requires Day(vary, i, now, out)
    ensures out[0].start == now - 21_600_000
    ensures forall k :: 0 <= k < |out| - 1 ==> out[k].end.Some? && out[k].start < out[k].end.value < now
    ensures forall k :: 0 <= k < |out| - 1 ==> 120_000 <= out[k + 1].start - out[k].end.value <= 240_000
    ensures out[|out| - 1].end.None? && out[|out| - 1].start < now + 240_000
    ensures forall k, m :: 0 <= k < m < |out| ==> out[k].end.Some? && out[k].end.value < out[m].start
    ensures TimeClosed(out) + TimeBetween(out) == out[|out| - 1].start - out[0].start
  {
    forall k | 0 <= k < |out| - 1
      ensures out[k].end.Some? && out[k].start < out[k].end.value < now
      ensures 2 * MINUTE <= out[k + 1].start - out[k].end.value <= 4 * MINUTE
    {
      StayInOrder(vary, i, now, out, k);
    }
    forall k, m | 0 <= k < m < |out| ensures out[k].end.Some? && out[k].end.value < out[m].start {
      Apart(out, k, m);
    }
    TimeAddsUp(out);
  }

  lemma StayInOrder(vary: (nat, nat, nat, nat) -> int, i: nat, now: int, out: seq<Interval>, k: nat)
    requires Day(vary, i, now, out) && k < |out| - 1
    ensures out[k].end.Some? && out[k].start < out[k].end.value < now
    ensures 2 * MINUTE <= out[k + 1].start - out[k].end.value <= 4 * MINUTE
  {
    var walked := out[..|out| - 1];
    assert Closed(vary, i, now, walked, k);
    assert walked[k] == out[k] && (k < |walked| - 1 ==> walked[k + 1] == out[k + 1]);
    assert k < |walked| - 1 ==> Followed(walked, k);
    assert Settles(walked, k, out[k + 1].start);
  }

  lemma {:induction false} Apart(out: seq<Interval>, k: nat, m: nat)
    requires k < m < |out|
    requires forall n :: 0 <= n < |out| - 1 ==> out[n].end.Some? && out[n].start < out[n].end.value < out[n + 1].start
    ensures out[k].end.Some? && out[k].end.value < out[m].start
    decreases m
  {
    if k < m - 1 {
      Apart(out, k, m - 1);
      assert out[m - 1].start < out[m - 1].end.value < out[m].start;
    }
  }

  /**
   How long a closed stay is: the nearest whole minutes to 25 idle, 65 printing,
   10 harvesting or 35 in service, times 0.7 and up to nine steps of 0.06.
   */
  lemma StayLength(vary: (nat, nat, nat, nat) -> int, i: nat, now: int, out: seq<Interval>, k: nat)
    returns (minutes: int)
    requires Varies(vary) && Day(vary, i, now, out) && k + 1 < |out|
    ensures out[k].end == Some(out[k].start + minutes * 60_000)
    ensures var c := PositionAt(i, k).cycle;
      match out[k].state
      case Idle => -50 <= 100 * minutes - 25 * (70 + 6 * ((7 * i + 13 * c + 29) % 10)) <= 50
      case Printing => -50 <= 100 * minutes - 65 * (70 + 6 * ((7 * i + 13 * c + 58) % 10)) <= 50
      case Harvest => -50 <= 100 * minutes - 10 * (70 + 6 * ((7 * i + 13 * c + 87) % 10)) <= 50
      case Service => -50 <= 100 * minutes - 35 * (70 + 6 * ((7 * i + 13 * c + 116) % 10)) <= 50
  {
    assert Closed(vary, i, now, out[..|out| - 1], k);
    var p := PositionAt(i, k);
    minutes := vary(Base(p.state), i, p.cycle, Salt(p.state));
    assert IsVaried(Base(p.state), i, p.cycle, Salt(p.state), minutes);
  }

  /** The states of a day follow the cycle, service exactly on every third one, starting idle. */
  lemma DayFollowsCycle(vary: (nat, nat, nat, nat) -> int, i: nat, now: int, out: seq<Interval>, k: nat)
    requires Day(vary, i, now, out) && k + 1 < |out|
    ensures out[0].state == Idle
    ensures match out[k].state
      case Idle => out[k + 1].state == Printing
      case Printing => out[k + 1].state == Harvest
      case Harvest => out[k + 1].state == if (i + PositionAt(i, k).cycle) % 3 == 2 then Service else Idle
      case Service => out[k + 1].state == Idle && (i + PositionAt(i, k).cycle) % 3 == 2
    ensures PositionAt(i, k + 1).cycle == PositionAt(i, k).cycle + if out[k + 1].state == Idle then 1 else 0
    ensures PositionAt(i, 0).cycle == 0
  {
    var walked := out[..|out| - 1];
    assert Closed(vary, i, now, walked, 0) && Closed(vary, i, now, walked, k);
    assert out[k + 1].state == PositionAt(i, k + 1).state by {
      assert k + 1 < |walked| ==> Closed(vary, i, now, walked, k + 1);
    }
    ServiceCycles(i, k);
  }

  lemma {:induction false} ServiceCycles(i: nat, k: nat)
    ensures PositionAt(i, k).state == Service ==> WithService(i, PositionAt(i, k).cycle)
  {
    if k > 0 {
      ServiceCycles(i, k - 1);
    }
  }
}
