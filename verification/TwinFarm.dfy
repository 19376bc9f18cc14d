/**
 Planning a twin fleet and its orders so that every order can be placed
 (scripts/twin-farm.ts, planFleet and planOrders).
 */
module TwinFarm {
  import opened Basics
  import opened EvenSpread

  datatype Capability = XL | Pdac | Soft

  const CAPABILITY_KEYS := [XL, Pdac, Soft]

  type Profile = set<Capability>

  const FULL: Profile := {XL, Pdac, Soft}

  datatype Twin = Twin(index: nat, filament: string, caps: Profile)

  /** An order: its filament, a capability every unit needs, if any, how many units, and which one fails, if any. */
  datatype Order = Order(index: nat, filament: string, required: Option<Capability>, units: nat, fault: Option<nat>)

  /** Filaments and capability profiles go round the fleet; without profiles every twin is fully capable. */
  function PlanFleet(size: nat, filaments: seq<string>, profiles: seq<Profile>): seq<Twin>
    requires filaments != []
  {
    seq(size, i requires 0 <= i < size =>
      Twin(i, filaments[i % |filaments|], if profiles == [] then FULL else profiles[i % |profiles|]))
  }

  predicate Suits(t: Twin, filament: string, required: Option<Capability>) {
    t.filament == filament && (required.Some? ==> required.value in t.caps)
  }

  function Pool(fleet: seq<Twin>, filament: string, required: Option<Capability>): seq<Twin> {
    if fleet == [] then []
    else
      var n := |fleet| - 1;
      Pool(fleet[..n], filament, required) + if Suits(fleet[n], filament, required) then [fleet[n]] else []
  }

  function PlanOrder(i: nat, maxUnits: int, failPercent: int, filaments: seq<string>, fleet: seq<Twin>): Order
    requires filaments != []
  {
    var filament := filaments[i % |filaments|];
    var units := Max(1, Min(maxUnits, |Pool(fleet, filament, None)|));
    var cap := CAPABILITY_KEYS[i % 3];
    var required := if i % 2 == 0 && |Pool(fleet, filament, Some(cap))| >= units then Some(cap) else None;
    Order(i, filament, required, units, if Chosen(i, failPercent) then Some(0) else None)
  }

  function PlanOrders(count: nat, maxUnits: int, failPercent: int, filaments: seq<string>, fleet: seq<Twin>): seq<Order>
    requires filaments != []
  {
    seq(count, i requires 0 <= i < count => PlanOrder(i, maxUnits, failPercent, filaments, fleet))
  }

  /** Distinct printers that can take one unit each. */
  ghost predicate Placement(fleet: seq<Twin>, order: Order, printers: set<nat>) {
    && |printers| == order.units
    && forall j :: j in printers ==> j < |fleet| && Suits(fleet[j], order.filament, order.required)
  }

  /** The pool is as large as the set of printers in it. */
  lemma {:induction false} PoolPrinters(fleet: seq<Twin>, filament: string, required: Option<Capability>)
    returns (printers: set<nat>)
    ensures printers == set j: nat | j < |fleet| && Suits(fleet[j], filament, required)
    ensures |printers| == |Pool(fleet, filament, required)|
  {
    if fleet == [] {
      printers := {};
    } else {
      var n := |fleet| - 1;
      var before := PoolPrinters(fleet[..n], filament, required);
      printers := before + if Suits(fleet[n], filament, required) then {n} else {};
    }
  }

  lemma {:induction false} SubsetOfSize(all: set<nat>, n: nat) returns (some: set<nat>)
    requires n <= |all|
    ensures some <= all && |some| == n
    decreases all
  {
    if n == |all| {
      some := all;
    } else {
      var x :| x in all;
      some := SubsetOfSize(all - {x}, n);
    }
  }

  /**
   A planned order taken alone can be placed, on as many distinct printers as
   it has units, each of its filament and with its required capability,
   exactly when the fleet has a printer of its filament at all.
   */
  lemma OrderPlaceable(i: nat, maxUnits: int, failPercent: int, filaments: seq<string>, fleet: seq<Twin>)
    requires filaments != []
    ensures var order := PlanOrder(i, maxUnits, failPercent, filaments, fleet);
      (exists printers :: Placement(fleet, order, printers))
      <==> exists j :: 0 <= j < |fleet| && fleet[j].filament == filaments[i % |filaments|]
  {
    var order := PlanOrder(i, maxUnits, failPercent, filaments, fleet);
    var all := PoolPrinters(fleet, order.filament, None);
    if j: nat :| j < |fleet| && fleet[j].filament == order.filament {
      assert j in all;
      var capable := PoolPrinters(fleet, order.filament, order.required);
      var printers := SubsetOfSize(capable, order.units);
      assert Placement(fleet, order, printers);
    }
    if printers :| Placement(fleet, order, printers) {
      var j :| j in printers;
      assert fleet[j].filament == order.filament;
    }
  }

  /** The twins of the fleet that have the filament, and the capability if one is asked for. */
  function Having(fleet: seq<Twin>, filament: string, caps: Profile): set<nat> {
    set j: nat | j < |fleet| && fleet[j].filament == filament && caps <= fleet[j].caps
  }

  /**
   What an order asks for: as many units as the limit and its filament's
   printers allow, at least one; every other order the next capability in turn,
   if as many printers have it; and a fault on its first unit when the failing
   share steps up at it.
   */
  lemma OrderExactly(i: nat, maxUnits: int, failPercent: int, filaments: seq<string>, fleet: seq<Twin>)
    requires filaments != []
    ensures var order := PlanOrder(i, maxUnits, failPercent, filaments, fleet);
      var printers := |Having(fleet, order.filament, {})|;
      var cap := if i % 3 == 0 then XL else if i % 3 == 1 then Pdac else Soft;
      && order.filament == filaments[i % |filaments|]
      && order.units >= 1 && (order.units > 1 ==> order.units <= maxUnits && order.units <= printers)
      && (order.units >= maxUnits || order.units >= printers)
      && (order.required == if i % 2 == 0 && |Having(fleet, order.filament, {cap})| >= order.units then Some(cap)
                            else None)
      && order.fault == (if (i * failPercent + failPercent) / 100 > (i * failPercent) / 100 then Some(0) else None)
  {
    var order := PlanOrder(i, maxUnits, failPercent, filaments, fleet);
    var cap := CAPABILITY_KEYS[i % 3];
    var all := PoolPrinters(fleet, order.filament, None);
    assert all == Having(fleet, order.filament, {});
    var capable := PoolPrinters(fleet, order.filament, Some(cap));
    assert capable == Having(fleet, order.filament, {cap});
    assert (i + 1) * failPercent == i * failPercent + failPercent;
  }

  /** Filaments and profiles go round; with no profiles every twin has every capability. */
  lemma FleetGoesRound(size: nat, filaments: seq<string>, profiles: seq<Profile>, i: nat)
    requires filaments != [] && i < size
    ensures var fleet := PlanFleet(size, filaments, profiles);
      && |fleet| == size && fleet[i].index == i
      && (i < |filaments| ==> fleet[i].filament == filaments[i])
      && (i >= |filaments| ==> fleet[i].filament == fleet[i - |filaments|].filament)
      && (profiles == [] ==> XL in fleet[i].caps && Pdac in fleet[i].caps && Soft in fleet[i].caps)
      && (i < |profiles| ==> fleet[i].caps == profiles[i])
      && (profiles != [] && i >= |profiles| ==> fleet[i].caps == fleet[i - |profiles|].caps)
  {
    GoesRound(i, |filaments|);
    if profiles != [] {
      GoesRound(i, |profiles|);
    }
  }

  lemma GoesRound(i: nat, n: nat)
    requires n > 0
    ensures i < n ==> i % n == i
    ensures i >= n ==> i % n == (i - n) % n
  {
    if i >= n {
      assert i == (i - n) / n * n + (i - n) % n + n;
      Remainder(i, (i - n) / n + 1, (i - n) % n, n);
    }
  }

  lemma Remainder(i: nat, q: nat, r: nat, n: nat)
    requires i == q * n + r && r < n
    ensures i % n == r
  {
    DivisionIs(i, n, q);
    assert i == i / n * n + i % n;
  }

  /** A fleet as large as the filament list has every filament. */
  lemma FleetHasFilament(size: nat, i: nat, filaments: seq<string>, profiles: seq<Profile>)
    requires filaments != [] && size >= |filaments|
    ensures var fleet := PlanFleet(size, filaments, profiles);
      exists j :: 0 <= j < |fleet| && fleet[j].filament == filaments[i % |filaments|]
  {
    var j := i % |filaments|;
    assert j % |filaments| == j;
    assert PlanFleet(size, filaments, profiles)[j].filament == filaments[j];
  }

  /**
   With at least as many printers as filaments every order of a plan can be
   placed, and a fault names one of its units.
   */
  lemma PlanPlaceable(size: nat, i: nat, count: nat, maxUnits: int, failPercent: int, filaments: seq<string>,
                      profiles: seq<Profile>)
    requires filaments != [] && size >= |filaments| && i < count
    ensures var fleet := PlanFleet(size, filaments, profiles);
      var order := PlanOrders(count, maxUnits, failPercent, filaments, fleet)[i];
      && order.units >= 1 && (exists printers :: Placement(fleet, order, printers))
      && (order.fault.Some? ==> order.fault.value < order.units)
  {
    FleetHasFilament(size, i, filaments, profiles);
    OrderPlaceable(i, maxUnits, failPercent, filaments, PlanFleet(size, filaments, profiles));
  }

  /** How many orders of a plan carry a fault. */
  function FaultCount(orders: seq<Order>): nat {
    if orders == [] then 0
    else FaultCount(orders[..|orders| - 1]) + if orders[|orders| - 1].fault.Some? then 1 else 0
  }

  /** The plan carries the configured share of faults. */
  lemma {:induction false} FaultShare(count: nat, maxUnits: int, failPercent: int, filaments: seq<string>,
                                      fleet: seq<Twin>)
    requires filaments != [] && 0 <= failPercent <= 100
    ensures FaultCount(PlanOrders(count, maxUnits, failPercent, filaments, fleet)) == (count * failPercent) / 100
  {
    var orders := PlanOrders(count, maxUnits, failPercent, filaments, fleet);
    if count > 0 {
      FaultShare(count - 1, maxUnits, failPercent, filaments, fleet);
      assert orders[..count - 1] == PlanOrders(count - 1, maxUnits, failPercent, filaments, fleet);
      ChosenIsStep(count - 1, failPercent);
    }
  }
}
