/**
 Spreading a percentage evenly over a sequence: the one formula behind which
 orders carry shoes (scripts/ortho-populate.ts), which carry a fault
 (scripts/twin-farm.ts) and which run automated
 (examples/workflows/machine-line/manifests.ts, clamped).
 */
module EvenSpread {
  import opened Basics

  /** Whether the i-th of a sequence is one of the chosen `percent`. */
  predicate Chosen(i: nat, percent: int) {
    ((i + 1) * percent) / 100 > (i * percent) / 100
  }

  function Clamp(percent: int): int {
    Max(0, Min(100, percent))
  }

  /** Which manifest the i-th order gets. */
  predicate AutomatedAt(i: nat, percent: int) {
    Chosen(i, Clamp(percent))
  }

  /** How many of the indices from `a` up to `b` are chosen. */
  function CountChosen(a: nat, b: nat, percent: int): nat
    requires a <= b
    decreases b - a
  {
    if a == b then 0 else CountChosen(a, b - 1, percent) + if Chosen(b - 1, percent) then 1 else 0
  }

  /** Between 0 and 100 percent the running share grows by at most one an index. */
  lemma ChosenIsStep(i: nat, percent: int)
    requires 0 <= percent <= 100
    ensures ((i + 1) * percent) / 100 == (i * percent) / 100 + if Chosen(i, percent) then 1 else 0
  {
    assert (i + 1) * percent == i * percent + percent;
  }

  /** Clamping changes nothing: out of range, all or none are chosen either way. */
  lemma ClampChangesNothing(i: nat, percent: int)
    ensures Chosen(i, percent) == AutomatedAt(i, percent)
  {
    assert (i + 1) * percent == i * percent + percent;
    assert (i + 1) * 100 == i * 100 + 100;
    assert (i + 1) * 0 == 0;
  }

  /** Any window holds the difference of the running shares, for every percentage once clamped. */
  lemma {:induction false} WindowCount(a: nat, b: nat, percent: int)
    requires a <= b
    ensures CountChosen(a, b, percent) == (b * Clamp(percent)) / 100 - (a * Clamp(percent)) / 100
    decreases b - a
  {
    if a < b {
      WindowCount(a, b - 1, percent);
      ClampChangesNothing(b - 1, percent);
      ChosenIsStep(b - 1, Clamp(percent));
    }
  }

  /** So within one of the exact share. */
  lemma WithinOneOfShare(a: nat, b: nat, percent: int)
    requires a <= b && 0 <= percent <= 100
    ensures -100 < 100 * CountChosen(a, b, percent) - (b - a) * percent < 100
  {
    WindowCount(a, b, percent);
    assert Clamp(percent) == percent;
    Difference(a, b, percent);
    FloorsWithinOne(b * percent, a * percent, (b - a) * percent);
  }

  lemma Difference(a: int, b: int, percent: int)
    ensures b * percent - a * percent == (b - a) * percent
  {
  }

  lemma FloorsWithinOne(x: int, y: int, d: int)
    requires x - y == d
    ensures -100 < 100 * (x / 100 - y / 100) - d < 100
  {
  }

  /** The unclamped formula for a prefix is right for every length exactly when the percentage is one. */
  lemma PrefixShareExact(percent: int)
    ensures (forall n: nat :: CountChosen(0, n, percent) == (n * percent) / 100) <==> 0 <= percent <= 100
  {
    if 0 <= percent <= 100 {
      forall n: nat ensures CountChosen(0, n, percent) == (n * percent) / 100 {
        WindowCount(0, n, percent);
        assert 0 * percent == 0;
      }
    } else if percent < 0 {
      WindowCount(0, 1, percent);
      assert (1 * percent) / 100 < 0;
    } else {
      WindowCount(0, 100, percent);
      assert (100 * percent) / 100 == percent;
    }
  }
}
