/**
 Writing out everything a preset inherits (scripts/bambu-boat.ts, fullPreset).
 */
module Presets {
  import opened Basics

  type Preset = map<string, string>
  type Library = map<string, Preset>

  const INHERITS := "inherits"

  /** Where a preset's inheritance leads. */
  datatype Parent = NoParent | Missing(name: string) | Inherits(preset: Preset)

  function ParentOf(system: Library, p: Preset): Parent {
    if INHERITS !in p || p[INHERITS] == "" then NoParent
    else if p[INHERITS] in system then Inherits(system[p[INHERITS]])
    else Missing(p[INHERITS])
  }

  /** The preset `n` steps up the chain. */
  function Ancestor(system: Library, p: Preset, n: nat): Option<Preset>
    decreases n
  {
    if n == 0 then Some(p)
    else
      match ParentOf(system, p)
      case Inherits(q) => Ancestor(system, q, n - 1)
      case _ => None
  }

  /** The walk up stops within `n` steps. */
  predicate EndsWithin(system: Library, p: Preset, n: nat)
    decreases n
  {
    match ParentOf(system, p)
    case Inherits(q) => n > 0 && EndsWithin(system, q, n - 1)
    case _ => true
  }

  ghost predicate Ends(system: Library, p: Preset) {
    exists n :: EndsWithin(system, p, n)
  }

  /** Some preset name is inherited twice on the way up. */
  ghost predicate Cyclic(system: Library, p: Preset) {
    exists i: nat, j: nat :: i < j && InheritedAt(system, p, i).Some?
        && InheritedAt(system, p, i) == InheritedAt(system, p, j)
  }

  /** The name inherited by the preset `i` steps up. */
  function InheritedAt(system: Library, p: Preset, i: nat): Option<string> {
    var q := Ancestor(system, p, i);
    if q.Some? && ParentOf(system, q.value).Inherits? then Some(q.value[INHERITS]) else None
  }

  /** The preset with its ancestors' settings under its own; None when one is missing. */
  function Flatten(system: Library, p: Preset, n: nat): Option<Preset>
    requires EndsWithin(system, p, n)
    decreases n
  {
    match ParentOf(system, p)
    case NoParent => Some(p)
    case Missing(_) => None
    case Inherits(q) =>
      var base := Flatten(system, q, n - 1);
      if base.Some? then Some(base.value + p) else None
  }

  /** `Object.assign({}, ...chain)`. */
  function Assign(base: Preset, chain: seq<Preset>): Preset
    decreases |chain|
  {
    if chain == [] then base else Assign(base + chain[0], chain[1..])
  }

  /**
   Collect the chain from the root down and assign it in that order; None when
   an inherited preset is missing. The source loops for ever when the chain
   never ends.
   */
  method FullPreset(system: Library, own: Preset) returns (r: Option<Preset>)
    requires Ends(system, own)
    ensures forall n :: EndsWithin(system, own, n) ==>
              (r.None? <==> Flatten(system, own, n).None?)
              && (r.Some? ==> r.value == Flatten(system, own, n).value["inherits" := ""])
  {
    ghost var n0: nat :| EndsWithin(system, own, n0);
    ghost var n := n0;
    var chain, p := [own], own;
    while INHERITS in p && p[INHERITS] != ""
      invariant chain != [] && chain[0] == p && EndsWithin(system, p, n)
      invariant Flatten(system, own, n0).Some? <==> Flatten(system, p, n).Some?
      invariant Flatten(system, p, n).Some? ==>
                  Flatten(system, own, n0).value == Assign(Flatten(system, p, n).value, chain[1..])
      decreases n
    {
      if p[INHERITS] !in system {
        FlattenStable(system, own, n0);
        return None;
      }
      var q := system[p[INHERITS]];
      assert ([q] + chain)[1..] == chain;
      chain := [q] + chain;
      p := q;
      n := n - 1;
    }
    FlattenStable(system, own, n0);
    assert map[] + chain[0] == chain[0];
    r := Some(Assign(map[], chain)[INHERITS := ""]);
  }

  /** How far one allows for does not matter once it is enough. */
  lemma {:induction false} FlattenStableFor(system: Library, p: Preset, m: nat, n: nat)
    requires EndsWithin(system, p, m) && EndsWithin(system, p, n)
    ensures Flatten(system, p, m) == Flatten(system, p, n)
    decreases m
  {
    match ParentOf(system, p)
    case Inherits(q) => FlattenStableFor(system, q, m - 1, n - 1);
    case _ =>
  }

  lemma FlattenStable(system: Library, p: Preset, m: nat)
    requires EndsWithin(system, p, m)
    ensures forall n :: EndsWithin(system, p, n) ==> Flatten(system, p, n) == Flatten(system, p, m)
  {
    forall n | EndsWithin(system, p, n) ensures Flatten(system, p, n) == Flatten(system, p, m) {
      FlattenStableFor(system, p, n, m);
    }
  }

  /** Each setting has the value of the nearest preset that has it, starting from the preset itself. */
  lemma {:induction false} NearestWins(system: Library, p: Preset, n: nat, key: string)
    requires EndsWithin(system, p, n) && Flatten(system, p, n).Some?
    ensures key in Flatten(system, p, n).value <==> exists i: nat :: Defines(system, p, i, key)
    ensures forall i: nat :: Defines(system, p, i, key) && (forall j: nat :: j < i ==> !Defines(system, p, j, key))
              ==> Flatten(system, p, n).value[key] == Ancestor(system, p, i).value[key]
    decreases n
  {
    match ParentOf(system, p)
    case Inherits(q) =>
      NearestWins(system, q, n - 1, key);
      forall i: nat ensures Defines(system, p, i + 1, key) <==> Defines(system, q, i, key) {
      }
      assert key in p <==> Defines(system, p, 0, key);
      if key in Flatten(system, q, n - 1).value {
        var i: nat :| Defines(system, q, i, key);
        assert Defines(system, p, i + 1, key);
      }
      if i: nat :| Defines(system, p, i, key) {
        assert i > 0 ==> Defines(system, q, i - 1, key);
      }
      forall i: nat | Defines(system, p, i, key) && forall j: nat :: j < i ==> !Defines(system, p, j, key)
        ensures Flatten(system, p, n).value[key] == Ancestor(system, p, i).value[key]
      {
        if i > 0 {
          assert Defines(system, q, i - 1, key);
          forall j: nat | j < i - 1 ensures !Defines(system, q, j, key) {
            assert !Defines(system, p, j + 1, key);
          }
        }
      }
    case NoParent =>
      assert key in p <==> Defines(system, p, 0, key);
    case Missing(_) =>
  }

  predicate Defines(system: Library, p: Preset, i: nat, key: string) {
    Ancestor(system, p, i).Some? && key in Ancestor(system, p, i).value
  }

  // ── When the walk ends ─────────────────────────────────────────────────────

  lemma {:induction false} EndsIsNoAncestor(system: Library, p: Preset, n: nat)
    ensures EndsWithin(system, p, n) <==> Ancestor(system, p, n + 1).None?
    decreases n
  {
    match ParentOf(system, p)
    case Inherits(q) =>
      if n > 0 {
        EndsIsNoAncestor(system, q, n - 1);
      } else {
        assert Ancestor(system, q, 0).Some?;
      }
    case _ =>
  }

  lemma {:induction false} AncestorAdd(system: Library, p: Preset, i: nat, k: nat)
    requires Ancestor(system, p, i).Some?
    ensures Ancestor(system, p, i + k) == Ancestor(system, Ancestor(system, p, i).value, k)
    decreases i
  {
    if i > 0 {
      AncestorAdd(system, ParentOf(system, p).preset, i - 1, k);
    }
  }

  lemma AncestorsBefore(system: Library, p: Preset, i: nat, n: nat)
    requires i <= n && Ancestor(system, p, n).Some?
    ensures Ancestor(system, p, i).Some?
    decreases i
  {
    if i > 0 {
      AncestorsBefore(system, ParentOf(system, p).preset, i - 1, n - 1);
    }
  }

  /** Two equal ancestors come round again for ever. */
  lemma {:induction false} ComesRound(system: Library, p: Preset, a: nat, b: nat, n: nat)
    requires a < b && Ancestor(system, p, a).Some? && Ancestor(system, p, a) == Ancestor(system, p, b)
    ensures Ancestor(system, p, n).Some?
    decreases n
  {
    if n <= b {
      AncestorsBefore(system, p, n, b);
    } else {
      var k := n - b;
      ComesRound(system, p, a, b, a + k);
      AncestorAdd(system, p, a, k);
      AncestorAdd(system, p, b, k);
    }
  }

  lemma {:induction false} Pigeonhole(s: seq<string>, holes: set<string>)
    requires (forall x :: x in s ==> x in holes) && |s| > |holes|
    ensures exists i, j :: 0 <= i < j < |s| && s[i] == s[j]
    decreases |s|
  {
    var n := |s| - 1;
    if k :| 0 <= k < n && s[k] == s[n] {
    } else {
      assert s[n] in holes && |holes - {s[n]}| == |holes| - 1;
      Pigeonhole(s[..n], holes - {s[n]});
      var i, j :| 0 <= i < j < |s[..n]| && s[..n][i] == s[..n][j];
      assert s[i] == s[j];
    }
  }

  lemma InheritedLeadsUp(system: Library, p: Preset, i: nat)
    requires InheritedAt(system, p, i).Some?
    ensures InheritedAt(system, p, i).value in system
    ensures Ancestor(system, p, i + 1) == Some(system[InheritedAt(system, p, i).value])
  {
    AncestorAdd(system, p, i, 1);
    var q := Ancestor(system, p, i).value;
    assert Ancestor(system, ParentOf(system, q).preset, 0) == Some(ParentOf(system, q).preset);
  }

  lemma AncestorInherits(system: Library, p: Preset, i: nat)
    requires Ancestor(system, p, i + 1).Some?
    ensures InheritedAt(system, p, i).Some?
  {
    AncestorsBefore(system, p, i, i + 1);
    AncestorAdd(system, p, i, 1);
  }

  /** The walk ends exactly when no preset is inherited twice; and then within as many steps as there are presets. */
  lemma EndsUnlessCyclic(system: Library, p: Preset)
    ensures Ends(system, p) <==> !Cyclic(system, p)
    ensures Ends(system, p) <==> EndsWithin(system, p, |system|)
  {
    if Cyclic(system, p) {
      var i: nat, j: nat :| i < j && InheritedAt(system, p, i).Some?
          && InheritedAt(system, p, i) == InheritedAt(system, p, j);
      InheritedLeadsUp(system, p, i);
      InheritedLeadsUp(system, p, j);
      forall n: nat ensures !EndsWithin(system, p, n) {
        ComesRound(system, p, i + 1, j + 1, n + 1);
        EndsIsNoAncestor(system, p, n);
      }
    }
    if !EndsWithin(system, p, |system|) {
      EndsIsNoAncestor(system, p, |system|);
      forall i | 0 <= i <= |system|
        ensures InheritedAt(system, p, i).Some? && InheritedAt(system, p, i).value in system
      {
        AncestorsBefore(system, p, i + 1, |system| + 1);
        AncestorInherits(system, p, i);
        InheritedLeadsUp(system, p, i);
      }
      var names := seq(|system| + 1, i requires 0 <= i <= |system| => InheritedAt(system, p, i).value);
      Pigeonhole(names, system.Keys);
      var i, j :| 0 <= i < j < |names| && names[i] == names[j];
      assert InheritedAt(system, p, i) == InheritedAt(system, p, j);
      assert Cyclic(system, p);
    }
  }
}
