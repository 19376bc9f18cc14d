/**
 Batching units into routes (scripts/machine-line.ts, startRoutes).
 */
module RouteBatches {
  import opened Basics
  import opened Decimal
  import opened EvenSpread

  /** A started route: its unit ids, and whether it runs the automated manifest. */
  datatype Route = Route(unitIds: seq<string>, automated: bool)

  /** The id of the j-th unit of the i-th route. */
  function UnitId(run: string, i: nat, j: nat): string {
    run + "-R" + Dec(i + 1) + "-U" + Dec(j + 1)
  }

  /** How many units the i-th route takes. */
  function BatchSize(units: nat, batch: nat, i: nat): nat {
    Max(0, Min(batch, units - i * batch))
  }

  function RouteAt(run: string, units: nat, batch: nat, mix: int, i: nat): Route {
    var size: nat := BatchSize(units, batch, i);
    Route(seq(size, j requires 0 <= j < size => UnitId(run, i, j)), AutomatedAt(i, mix))
  }

  method StartRoutes(run: string, units: nat, batch: nat, mix: int) returns (routes: seq<Route>)
    requires batch >= 1
    ensures |routes| == (units + batch - 1) / batch
    ensures forall i :: 0 <= i < |routes| ==> routes[i] == RouteAt(run, units, batch, mix, i)
    ensures TotalUnits(routes) == units
  {
    routes := [];
    var i, n := 0, 0;
    ghost var full := 0;
    while n < units
      invariant |routes| == i && full == i * batch && n == Min(full, units) && (i > 0 ==> full - batch < units)
      invariant forall k :: 0 <= k < i ==> routes[k] == RouteAt(run, units, batch, mix, k)
      invariant TotalUnits(routes) == n
      decreases units - n
    {
      var ids := seq(Min(batch, units - n), j requires 0 <= j < Min(batch, units - n) => UnitId(run, i, j));
      var route := Route(ids, AutomatedAt(i, mix));
      RouteIs(run, units, batch, mix, i, n, route);
      TotalUnitsMore(routes, route);
      OneMoreBatch(i, batch);
      routes := routes + [route];
      n := n + |ids|;
      i := i + 1;
      full := full + batch;
    }
    DivisionIs(units + batch - 1, batch, i);
  }

  lemma OneMoreBatch(i: nat, batch: nat)
    ensures (i + 1) * batch == i * batch + batch
  {
  }

  lemma RouteIs(run: string, units: nat, batch: nat, mix: int, i: nat, n: nat, route: Route)
    requires n == i * batch < units
    requires |route.unitIds| == Min(batch, units - n)
    requires forall j :: 0 <= j < |route.unitIds| ==> route.unitIds[j] == UnitId(run, i, j)
    requires route.automated == AutomatedAt(i, mix)
    ensures route == RouteAt(run, units, batch, mix, i)
  {
  }

  lemma TotalUnitsMore(routes: seq<Route>, route: Route)
    ensures TotalUnits(routes + [route]) == TotalUnits(routes) + |route.unitIds|
  {
  }

  function TotalUnits(routes: seq<Route>): nat {
    if routes == [] then 0 else TotalUnits(routes[..|routes| - 1]) + |routes[|routes| - 1].unitIds|
  }

  /** Every started route takes between one unit and a full batch. */
  lemma BatchNonEmpty(units: nat, batch: nat, i: nat)
    requires batch >= 1 && i < (units + batch - 1) / batch
    ensures 1 <= BatchSize(units, batch, i) <= batch
  {
    var x := units + batch - 1;
    var q := x / batch;
    assert x == q * batch + x % batch;
    Multiples(i + 1, q, batch);
    assert (i + 1) * batch == i * batch + batch;
  }

  lemma NoDigits(a: string, b: string, c: string, d: string)
    requires forall x :: x in a ==> '0' <= x <= '9'
    requires forall x :: x in b ==> '0' <= x <= '9'
    requires a + "-U" + c == b + "-U" + d
    ensures a == b && c == d
  {
    var s := a + "-U" + c;
    assert s[|a|] == '-' && s[|b|] == '-';
    assert forall k :: 0 <= k < |a| ==> a[k] in a && s[k] == a[k];
    assert forall k :: 0 <= k < |b| ==> b[k] in b && s[k] == b[k];
    assert |a| == |b|;
    assert a == s[..|a|] && b == s[..|b|] && c == s[|a| + 2..] && d == s[|b| + 2..];
  }

  lemma UnitIdTail(run: string, i: nat, j: nat)
    ensures |run| + 2 <= |UnitId(run, i, j)| && UnitId(run, i, j)[..|run| + 2] == run + "-R"
    ensures UnitId(run, i, j)[|run| + 2..] == Dec(i + 1) + "-U" + Dec(j + 1)
  {
  }

  /** No two units of a run share an id. */
  lemma UnitIdsDistinct(run: string, i: nat, j: nat, k: nat, m: nat)
    requires UnitId(run, i, j) == UnitId(run, k, m)
    ensures i == k && j == m
  {
    UnitIdTail(run, i, j);
    UnitIdTail(run, k, m);
    NoDigits(Dec(i + 1), Dec(k + 1), Dec(j + 1), Dec(m + 1));
    DecInjective(i + 1, k + 1);
    DecInjective(j + 1, m + 1);
  }

  function AutomatedCount(routes: seq<Route>): nat {
    if routes == [] then 0
    else AutomatedCount(routes[..|routes| - 1]) + if routes[|routes| - 1].automated then 1 else 0
  }

  /** The automated share of the routes is the configured percentage, clamped, rounded down. */
  lemma {:induction false} AutomatedShare(run: string, units: nat, batch: nat, mix: int, routes: seq<Route>)
    requires forall i :: 0 <= i < |routes| ==> routes[i] == RouteAt(run, units, batch, mix, i)
    ensures AutomatedCount(routes) == (|routes| * Clamp(mix)) / 100
  {
    if routes != [] {
      AutomatedShare(run, units, batch, mix, routes[..|routes| - 1]);
      ChosenIsStep(|routes| - 1, Clamp(mix));
    }
  }
}
