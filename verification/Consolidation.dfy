/**
 The consolidation floor simulation (scripts/consolidation-sim.ts): bins opened
 per destination, orders walked from station to station, and the last placed
 order taken out again.
 */
module Consolidation {
  import opened Basics

  datatype Service = Standard | Express

  /** A bin takes one destination's orders; with a lane, only that service's. */
  datatype Bin = Bin(destination: string, lane: Option<Service>)

  datatype Order = Order(id: nat, destination: string, service: Service)

  ghost predicate Distinct<T>(s: seq<T>) {
    forall i, j :: 0 <= i < j < |s| ==> s[i] != s[j]
  }

  const DESTINATION_NAMES := ["north", "south", "east", "west", "central", "harbor"]

  /** The destinations of a run: as many as wanted, between one and six, marked with the run. */
  function Destinations(run: string, wanted: int): seq<string> {
    var n: nat := Max(1, Min(wanted, 6));
    seq(n, k requires 0 <= k < n => DESTINATION_NAMES[k] + ("-" + run))
  }

  lemma DestinationsDistinct(run: string, wanted: int)
    ensures Distinct(Destinations(run, wanted))
  {
    var all := Destinations(run, wanted);
    forall i, j | 0 <= i < j < |all| ensures all[i] != all[j] {
      if all[i] == all[j] {
        SuffixCancels(DESTINATION_NAMES[i], DESTINATION_NAMES[j], "-" + run);
      }
    }
  }

  lemma SuffixCancels(a: string, b: string, suffix: string)
    requires a + suffix == b + suffix
    ensures a == b
  {
    assert a == (a + suffix)[..|a|] && b == (b + suffix)[..|b|];
  }

  /** The bins of the k-th destination: the first has two lanes. */
  function BinsFor(destination: string, k: nat): seq<Bin> {
    if k == 0 then [Bin(destination, Some(Standard)), Bin(destination, Some(Express))] else [Bin(destination, None)]
  }

  function AllBins(destinations: seq<string>): seq<Bin> {
    if destinations == [] then []
    else
      var n := |destinations| - 1;
      AllBins(destinations[..n]) + BinsFor(destinations[n], n)
  }

  method OpenBins(destinations: seq<string>) returns (bins: seq<Bin>)
    ensures bins == AllBins(destinations)
  {
    bins := [];
    for i := 0 to |destinations|
      invariant bins == AllBins(destinations[..i])
    {
      assert destinations[..i + 1][..i] == destinations[..i];
      var lanes := if i == 0 then [Some(Standard), Some(Express)] else [None];
      for j := 0 to |lanes|
        invariant bins == AllBins(destinations[..i]) + BinsFor(destinations[i], i)[..j]
      {
        bins := bins + [Bin(destinations[i], lanes[j])];
      }
    }
    assert destinations[..|destinations|] == destinations;
  }

  predicate Takes(bin: Bin, order: Order) {
    bin.destination == order.destination && (bin.lane.None? || bin.lane.value == order.service)
  }

  lemma {:induction false} BinsDestinations(destinations: seq<string>, i: nat)
    requires i < |AllBins(destinations)|
    ensures AllBins(destinations)[i].destination in destinations
  {
    var n := |destinations| - 1;
    if i < |AllBins(destinations[..n])| {
      BinsDestinations(destinations[..n], i);
      assert AllBins(destinations[..n])[i].destination in destinations[..n];
    } else {
      assert destinations[n] in destinations;
    }
  }

  /** Exactly one open bin takes an order bound for an open destination. */
  lemma {:induction false} OneBinTakes(destinations: seq<string>, order: Order) returns (b: nat)
    requires Distinct(destinations) && order.destination in destinations
    ensures b < |AllBins(destinations)| && Takes(AllBins(destinations)[b], order)
    ensures forall i :: 0 <= i < |AllBins(destinations)| && Takes(AllBins(destinations)[i], order) ==> i == b
    ensures AllBins(destinations)[b]
         == Bin(order.destination, if order.destination == destinations[0] then Some(order.service) else None)
  {
    var n := |destinations| - 1;
    var before, bins := AllBins(destinations[..n]), AllBins(destinations);
    if destinations[n] == order.destination {
      b := |before| + if n == 0 && order.service.Express? then 1 else 0;
      forall i | 0 <= i < |before| ensures !Takes(bins[i], order) {
        BinsDestinations(destinations[..n], i);
        assert bins[i] == before[i];
      }
    } else {
      b := OneBinTakes(destinations[..n], order);
      forall i | 0 <= i < |bins| && Takes(bins[i], order) ensures i == b {
        assert i < |before|;
        assert bins[i] == before[i];
      }
    }
  }

  /** `b` is the first bin that takes the order. */
  ghost predicate FirstTaker(bins: seq<Bin>, order: Order, b: nat) {
    b < |bins| && Takes(bins[b], order) && forall i :: 0 <= i < b ==> !Takes(bins[i], order)
  }

  ghost predicate HasTaker(bins: seq<Bin>, order: Order) {
    exists b :: 0 <= b < |bins| && Takes(bins[b], order)
  }

  /** `bins.find(...)`. */
  method FindBin(bins: seq<Bin>, order: Order) returns (b: nat)
    requires HasTaker(bins, order)
    ensures FirstTaker(bins, order, b)
  {
    b := 0;
    while !Takes(bins[b], order)
      invariant b < |bins| && forall i :: 0 <= i < b ==> !Takes(bins[i], order)
      decreases |bins| - b
    {
      b := b + 1;
    }
  }

  // ── The walk ───────────────────────────────────────────────────────────────

  /** The last station an order has been through, or the bin it went into. */
  datatype Station = Prep | Check | Staged | Placed(bin: nat)

  /** The least number four of which are no fewer than `n`. */
  function Quarter(n: nat): (q: nat)
    ensures n <= 4 * q < n + 4
  {
    (n + 3) / 4
  }

  /** How many orders of a floor stand where `at` says. */
  function Count(floor: seq<Station>, at: Station -> bool): nat {
    if floor == [] then 0
    else Count(floor[..|floor| - 1], at) + if at(floor[|floor| - 1]) then 1 else 0
  }

  function At(station: Station): Station -> bool {
    s => s == station
  }

  function InAnyBin(): Station -> bool {
    (s: Station) => s.Placed?
  }

  /** Where the i-th of n orders stands after the walk. */
  ghost predicate Stands(station: Station, i: nat, n: nat, keep: bool, bins: seq<Bin>, order: Order) {
    if keep && i < Quarter(n) then station == Prep
    else if keep && i < 2 * Quarter(n) then station == Check
    else if keep && i < 3 * Quarter(n) then station == Staged
    else station.Placed? && FirstTaker(bins, order, station.bin)
  }

  ghost predicate Served(bins: seq<Bin>, orders: seq<Order>) {
    forall k :: 0 <= k < |orders| ==> HasTaker(bins, orders[k])
  }

  /** Walk one order as far as it goes. */
  method Advance(i: nat, n: nat, keep: bool, bins: seq<Bin>, order: Order) returns (station: Station)
    requires HasTaker(bins, order)
    ensures Stands(station, i, n, keep, bins, order)
  {
    var quarter := (n + 3) / 4;
    station := Prep;
    if keep && i < quarter {
      return;
    }
    station := Check;
    if keep && i < quarter * 2 {
      return;
    }
    station := Staged;
    if keep && i < quarter * 3 {
      return;
    }
    var b := FindBin(bins, order);
    station := Placed(b);
  }

  /**
   The walk, counting what each bin holds. The last placed order then comes
   back out, so its bin holds one fewer than went in.
   */
  method Walk(orders: seq<Order>, bins: seq<Bin>, keep: bool)
    returns (floor: seq<Station>, held: seq<nat>, removed: Option<nat>)
    requires Served(bins, orders)
    ensures |floor| == |orders| && |held| == |bins|
    ensures forall i :: 0 <= i < |orders| ==> Stands(floor[i], i, |orders|, keep, bins, orders[i])
    ensures removed.Some? <==> orders != [] && floor[|floor| - 1].Placed?
    ensures removed.Some? ==> removed.value < |bins| && floor[|floor| - 1] == Placed(removed.value)
    ensures forall b :: 0 <= b < |bins|
              ==> held[b] + (if removed == Some(b) then 1 else 0) == Count(floor, At(Placed(b)))
  {
    floor := [];
    held := seq(|bins|, b => 0);
    for i := 0 to |orders|
      invariant |floor| == i && |held| == |bins|
      invariant forall k :: 0 <= k < i ==> Stands(floor[k], k, |orders|, keep, bins, orders[k])
      invariant forall b :: 0 <= b < |bins| ==> held[b] == Count(floor, At(Placed(b)))
    {
      var station := Advance(i, |orders|, keep, bins, orders[i]);
      if station.Placed? {
        held := held[station.bin := held[station.bin] + 1];
      }
      assert (floor + [station])[..i] == floor;
      floor := floor + [station];
    }
    held, removed := TakeLastOut(orders, bins, keep, floor, held);
  }

  /** The last placed order comes back out of its bin. */
  method TakeLastOut(orders: seq<Order>, bins: seq<Bin>, keep: bool, ghost floor: seq<Station>, held: seq<nat>)
    returns (held': seq<nat>, removed: Option<nat>)
    requires Served(bins, orders) && |floor| == |orders| && |held| == |bins|
    requires forall i :: 0 <= i < |orders| ==> Stands(floor[i], i, |orders|, keep, bins, orders[i])
    requires forall b :: 0 <= b < |bins| ==> held[b] == Count(floor, At(Placed(b)))
    ensures |held'| == |bins|
    ensures removed.Some? <==> orders != [] && floor[|floor| - 1].Placed?
    ensures removed.Some? ==> removed.value < |bins| && floor[|floor| - 1] == Placed(removed.value)
    ensures forall b :: 0 <= b < |bins|
              ==> held'[b] + (if removed == Some(b) then 1 else 0) == Count(floor, At(Placed(b)))
  {
    held', removed := held, None;
    var from := if keep then (|orders| + 3) / 4 * 3 else 0;
    if from < |orders| {
      var last := |orders| - 1;
      assert Stands(floor[last], last, |orders|, keep, bins, orders[last]);
      var b := FindBin(bins, orders[last]);
      assert floor[last] == Placed(b);
      removed := Some(b);
      held' := held[b := held[b] - 1];
    } else if orders != [] {
      var last := |orders| - 1;
      assert Stands(floor[last], last, |orders|, keep, bins, orders[last]);
    }
  }

  /** A station held by a run of indices holds as many orders. */
  lemma {:induction false} CountRange(floor: seq<Station>, at: Station -> bool, lo: nat, hi: nat)
    requires lo <= hi <= |floor|
    requires forall i :: 0 <= i < |floor| ==> (at(floor[i]) <==> lo <= i < hi)
    ensures Count(floor, at) == hi - lo
  {
    if floor != [] {
      var n := |floor| - 1;
      CountRange(floor[..n], at, Min(lo, n), Min(hi, n));
    }
  }

  /**
   Left mid-flight, the floor is split: a quarter at each of the first three
   stations, rounded up while orders last, the rest in bins.
   */
  lemma WalkSplits(orders: seq<Order>, bins: seq<Bin>, floor: seq<Station>)
    requires |floor| == |orders|
    requires forall i :: 0 <= i < |orders| ==> Stands(floor[i], i, |orders|, true, bins, orders[i])
    ensures var n := |orders|; var q := Quarter(n);
      && Count(floor, At(Prep)) == Min(q, n)
      && Count(floor, At(Check)) == Min(2 * q, n) - Min(q, n)
      && Count(floor, At(Staged)) == Min(3 * q, n) - Min(2 * q, n)
      && Count(floor, InAnyBin()) == n - Min(3 * q, n)
  {
    var n := |orders|;
    var q := Quarter(n);
    CountRange(floor, At(Prep), 0, Min(q, n));
    CountRange(floor, At(Check), Min(q, n), Min(2 * q, n));
    CountRange(floor, At(Staged), Min(2 * q, n), Min(3 * q, n));
    CountRange(floor, InAnyBin(), Min(3 * q, n), n);
  }

  /** Orders bound for the open destinations are all served, each by the one bin that takes it. */
  lemma OpenedBinsServe(destinations: seq<string>, orders: seq<Order>)
    requires Distinct(destinations) && forall k :: 0 <= k < |orders| ==> orders[k].destination in destinations
    ensures Served(AllBins(destinations), orders)
  {
    forall k | 0 <= k < |orders| ensures HasTaker(AllBins(destinations), orders[k]) {
      var b := OneBinTakes(destinations, orders[k]);
    }
  }
}
