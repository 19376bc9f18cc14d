/**
 Rebuilding a nested object from a flat "a/b/c" map by in-place mutation
 (services/hotmesh-utils.ts, restoreHierarchy).

 The objects built are real heap objects. A ghost map `at` names the object
 found at every interior path; it is what makes the aliasing harmless: no two
 paths share an object.
 */
module Hierarchy {
  import opened Basics
  import opened Text
  import opened Attributes

  // ── The value a flat map describes ─────────────────────────────────────────

  /** The value at the end of a path. */
  function Lookup(t: Json, p: seq<string>): Option<Json>
    decreases |p|
  {
    if p == [] then Some(t)
    else if t.JObj? && p[0] in t.fields then Lookup(t.fields[p[0]], p[1..])
    else None
  }

  /** The leaves beyond `p`, relative to it. */
  function Beyond(leaves: map<seq<string>, Json>, p: seq<string>): map<seq<string>, Json> {
    SameRest(leaves.Keys, p);
    map q | q in leaves && IsPrefix(p, q) :: q[|p|..] := leaves[q]
  }

  lemma SameRest(paths: set<seq<string>>, p: seq<string>)
    ensures forall q, r :: q in paths && r in paths && IsPrefix(p, q) && IsPrefix(p, r) && q[|p|..] == r[|p|..]
              ==> q == r
  {
  }

  lemma BeyondAt(leaves: map<seq<string>, Json>, p: seq<string>, r: seq<string>)
    ensures r in Beyond(leaves, p) <==> p + r in leaves
    ensures p + r in leaves ==> Beyond(leaves, p)[r] == leaves[p + r]
  {
    var pr := p + r;
    assert IsPrefix(p, pr) && pr[|p|..] == r;
    SameRest(leaves.Keys, p);
    if pr in leaves {
      assert Beyond(leaves, p)[pr[|p|..]] == leaves[pr];
    }
    if r in Beyond(leaves, p) {
      var q :| q in leaves && IsPrefix(p, q) && q[|p|..] == r;
      assert q == p + r;
    }
  }

  /** The first segments of the leaves' paths. */
  function Heads(leaves: map<seq<string>, Json>): set<string> {
    set p | p in leaves && p != [] :: p[0]
  }

  /** `t` has exactly the given leaves, at their paths, and only the objects those paths need. */
  ghost predicate IsTree(t: Json, leaves: map<seq<string>, Json>)
    decreases t
  {
    && t.JObj? && t.fields.Keys == Heads(leaves)
    && forall k :: k in t.fields ==>
         if [k] in leaves then t.fields[k] == leaves[[k]] else IsTree(t.fields[k], Beyond(leaves, [k]))
  }

  /** A flat map describes at most one tree. */
  lemma {:induction false} TreeUnique(t: Json, u: Json, leaves: map<seq<string>, Json>)
    requires IsTree(t, leaves) && IsTree(u, leaves)
    ensures t == u
    decreases t
  {
    forall k | k in t.fields ensures t.fields[k] == u.fields[k] {
      if [k] !in leaves {
        TreeUnique(t.fields[k], u.fields[k], Beyond(leaves, [k]));
      }
    }
    assert t.fields == u.fields;
  }

  /** And always one. */
  lemma {:induction false} TreeExists(leaves: map<seq<string>, Json>, n: nat)
    requires forall p :: p in leaves ==> |p| <= n
    ensures exists t :: IsTree(t, leaves)
    decreases n
  {
    if n == 0 {
      assert IsTree(JObj(map[]), leaves);
    } else {
      forall k | k in Heads(leaves) ensures exists u :: IsTree(u, Beyond(leaves, [k])) {
        TreeExists(Beyond(leaves, [k]), n - 1);
      }
      var t := JObj(map k | k in Heads(leaves) :: if [k] in leaves then leaves[[k]] else TreeOver(Beyond(leaves, [k])));
      assert IsTree(t, leaves);
    }
  }

  ghost function TreeOver(leaves: map<seq<string>, Json>): (t: Json)
    requires exists t :: IsTree(t, leaves)
    ensures IsTree(t, leaves)
  {
    var t :| IsTree(t, leaves);
    t
  }

  ghost function Longest(paths: set<seq<string>>): (n: nat)
    ensures forall p :: p in paths ==> |p| <= n
  {
    if paths == {} then 0 else
      var p :| p in paths;
      Max(|p|, Longest(paths - {p}))
  }

  /** The one tree a flat map describes. */
  ghost function TreeOf(leaves: map<seq<string>, Json>): (t: Json)
    ensures IsTree(t, leaves)
  {
    TreeExists(leaves, Longest(leaves.Keys));
    TreeOver(leaves)
  }

  /** Some leaf lies strictly beyond `p`. */
  ghost predicate Interior(leaves: map<seq<string>, Json>, p: seq<string>) {
    p == [] || exists q :: q in leaves && IsPrefix(p, q) && p != q
  }

  /** Some leaf lies at or before `p`. */
  ghost predicate Covered(leaves: map<seq<string>, Json>, p: seq<string>) {
    exists q :: q in leaves && IsPrefix(q, p)
  }

  lemma BeyondBeyond(leaves: map<seq<string>, Json>, p: seq<string>)
    requires p != []
    ensures Beyond(Beyond(leaves, [p[0]]), p[1..]) == Beyond(leaves, p)
  {
    var inner, one, two := Beyond(leaves, [p[0]]), Beyond(Beyond(leaves, [p[0]]), p[1..]), Beyond(leaves, p);
    forall r ensures r in one <==> r in two
             ensures r in one ==> one[r] == two[r] {
      assert [p[0]] + (p[1..] + r) == p + r;
      BeyondAt(inner, p[1..], r);
      BeyondAt(leaves, [p[0]], p[1..] + r);
      BeyondAt(leaves, p, r);
    }
  }

  /**
   Following a path ends at its leaf, in an object when leaves lie beyond, or
   nowhere; only leaves can hold anything else.
   */
  lemma {:induction false} LookupInTree(t: Json, leaves: map<seq<string>, Json>, p: seq<string>)
    requires IsTree(t, leaves) && PrefixFree(leaves.Keys) && [] !in leaves
    ensures p in leaves ==> Lookup(t, p) == Some(leaves[p])
    ensures !Covered(leaves, p) && Interior(leaves, p)
        ==> Lookup(t, p).Some? && IsTree(Lookup(t, p).value, Beyond(leaves, p))
    ensures !Covered(leaves, p) && !Interior(leaves, p) ==> Lookup(t, p) == None
    decreases |p|
  {
    if p == [] {
      assert forall q :: q in leaves ==> q[0..] == q;
      assert Beyond(leaves, []) == leaves;
    } else {
      var k, inner := p[0], Beyond(leaves, [p[0]]);
      assert p == [k] + p[1..];
      if [k] in leaves {
        LeafHead(leaves, k, p);
      } else if k in t.fields {
        BeyondPaths(leaves, p);
        LookupInTree(t.fields[k], inner, p[1..]);
        BeyondBeyond(leaves, p);
      } else {
        assert forall q :: q in leaves ==> q[0] != k;
      }
    }
  }

  /** Every leaf is found at the end of its path. */
  ghost predicate FindsAll(t: Json, leaves: map<seq<string>, Json>) {
    forall p :: p in leaves ==> Lookup(t, p) == Some(leaves[p])
  }

  /**
   When no value is itself an object, a value that has every leaf at the end of
   its path exists exactly when no path leads to or through another. For any
   other such map, whatever is built loses a leaf.
   */
  lemma FoundOnlyIfPrefixFree(leaves: map<seq<string>, Json>)
    requires [] !in leaves && forall p :: p in leaves ==> !leaves[p].JObj?
    ensures (exists t :: FindsAll(t, leaves)) <==> PrefixFree(leaves.Keys)
  {
    if PrefixFree(leaves.Keys) {
      var t := TreeOf(leaves);
      forall p | p in leaves ensures Lookup(t, p) == Some(leaves[p]) {
        LookupInTree(t, leaves, p);
      }
      assert FindsAll(t, leaves);
    }
    if t :| FindsAll(t, leaves) {
      forall p, q | p in leaves && q in leaves && IsPrefix(p, q) ensures p == q {
        LookupPast(t, p, q);
      }
    }
  }

  /** Past a value that is no object nothing is found. */
  lemma {:induction false} LookupPast(t: Json, p: seq<string>, q: seq<string>)
    requires IsPrefix(p, q) && Lookup(t, p).Some? && Lookup(t, q).Some?
    ensures p == q || Lookup(t, p).value.JObj?
    decreases |p|
  {
    if p != [] {
      assert q[0] == p[0] && IsPrefix(p[1..], q[1..]);
      LookupPast(t.fields[p[0]], p[1..], q[1..]);
      assert p == [p[0]] + p[1..] && q == [q[0]] + q[1..];
    }
  }

  /** A one-segment leaf is the only leaf of its head. */
  lemma LeafHead(leaves: map<seq<string>, Json>, k: string, p: seq<string>)
    requires PrefixFree(leaves.Keys) && [k] in leaves && p != [] && p[0] == k
    ensures Covered(leaves, p)
    ensures p in leaves ==> p == [k]
  {
  }

  /** What holds of `p` among the leaves holds of its tail among the leaves beyond its head. */
  lemma BeyondPaths(leaves: map<seq<string>, Json>, p: seq<string>)
    requires PrefixFree(leaves.Keys) && [] !in leaves && p != [] && [p[0]] !in leaves && p[0] in Heads(leaves)
    ensures var inner := Beyond(leaves, [p[0]]);
      && PrefixFree(inner.Keys) && [] !in inner
      && (p in leaves ==> p[1..] in inner && inner[p[1..]] == leaves[p])
      && (Covered(inner, p[1..]) ==> Covered(leaves, p))
      && (Interior(leaves, p) <==> Interior(inner, p[1..]))
  {
    hide PrefixFree, Covered, Interior, Beyond;
    var k, inner := p[0], Beyond(leaves, [p[0]]);
    assert p == [k] + p[1..];
    BeyondAt(leaves, [k], p[1..]);
    assert [k] + [] == [k];
    BeyondAt(leaves, [k], []);
    BeyondPrefixFree(leaves, k);
    if Covered(inner, p[1..]) {
      CoveredBeyond(leaves, p);
    }
    InteriorBeyond(leaves, p);
  }

  lemma BeyondPrefixFree(leaves: map<seq<string>, Json>, k: string)
    requires PrefixFree(leaves.Keys)
    ensures PrefixFree(Beyond(leaves, [k]).Keys)
  {
    var inner := Beyond(leaves, [k]);
    forall q, r | q in inner && r in inner && IsPrefix(q, r) ensures q == r {
      BeyondAt(leaves, [k], q);
      BeyondAt(leaves, [k], r);
      assert IsPrefix([k] + q, [k] + r);
      assert ([k] + q)[1..] == q && ([k] + r)[1..] == r;
    }
  }

  lemma CoveredBeyond(leaves: map<seq<string>, Json>, p: seq<string>)
    requires p != [] && Covered(Beyond(leaves, [p[0]]), p[1..])
    ensures Covered(leaves, p)
  {
    var q :| q in Beyond(leaves, [p[0]]) && IsPrefix(q, p[1..]);
    BeyondAt(leaves, [p[0]], q);
    assert p == [p[0]] + p[1..];
    assert IsPrefix([p[0]] + q, p);
  }

  lemma InteriorBeyond(leaves: map<seq<string>, Json>, p: seq<string>)
    requires p != [] && [p[0]] !in leaves && p[0] in Heads(leaves)
    ensures Interior(leaves, p) <==> Interior(Beyond(leaves, [p[0]]), p[1..])
  {
    var k, inner := p[0], Beyond(leaves, [p[0]]);
    assert p == [k] + p[1..];
    if q :| q in leaves && IsPrefix(p, q) && p != q {
      assert q == [k] + q[1..];
      BeyondAt(leaves, [k], q[1..]);
      assert q[1..][..|p| - 1] == p[1..];
    }
    if Interior(inner, p[1..]) {
      if p[1..] == [] {
        var w :| w in leaves && w != [] && w[0] == k;
        assert IsPrefix(p, w) && p != w;
      } else {
        var q :| q in inner && IsPrefix(p[1..], q) && p[1..] != q;
        BeyondAt(leaves, [k], q);
        assert IsPrefix(p, [k] + q) && ([k] + q)[1..] == q;
      }
    }
  }

  // ── The objects ────────────────────────────────────────────────────────────

  /** What a property holds: a deserialized value, or an object built here. */
  datatype Slot = Val(value: Json) | Ref(node: JsObject)

  class JsObject {
    var fields: map<string, Slot>

    constructor ()
      ensures fields == map[]
    {
      fields := map[];
    }
  }

  type Directory = map<seq<string>, JsObject>

  /** The properties of every object, by the path that leads to it. */
  type View = map<seq<string>, map<string, Slot>>

  function ViewOf(at: Directory): (view: View)
    reads at.Values
    ensures view.Keys == at.Keys
  {
    map p | p in at :: at[p].fields
  }

  function Init(p: seq<string>): seq<string>
    requires p != []
  {
    p[..|p| - 1]
  }

  function Last(p: seq<string>): string
    requires p != []
  {
    p[|p| - 1]
  }

  /** The property the last segment of `p` names, in the object its other segments lead to. */
  predicate Holds(view: View, p: seq<string>, slot: Slot) {
    p != [] && Init(p) in view && Last(p) in view[Init(p)] && view[Init(p)][Last(p)] == slot
  }

  /** No two paths share an object. */
  ghost predicate Unshared(at: Directory) {
    forall p, q :: p in at && q in at && at[p] == at[q] ==> p == q
  }

  /** A property at path `p` is an object found at `p`, or a leaf of `p`. */
  predicate Accounted(at: Directory, leaves: map<seq<string>, Json>, p: seq<string>, slot: Slot) {
    match slot
    case Ref(o) => p in at && at[p] == o
    case Val(v) => p in leaves && leaves[p] == v
  }

  /** Every object is the property its path names. */
  ghost predicate Linked(at: Directory, view: View) {
    && [] in at && view.Keys == at.Keys
    && forall p {:trigger at[p]} :: p in at && p != [] ==> Holds(view, p, Ref(at[p]))
  }

  /** Every leaf is the property its path names. */
  ghost predicate Placed(view: View, leaves: map<seq<string>, Json>) {
    forall p {:trigger leaves[p]} :: p in leaves ==> Holds(view, p, Val(leaves[p]))
  }

  /** No property is anything but an object or a leaf. */
  ghost predicate NothingElse(at: Directory, view: View, leaves: map<seq<string>, Json>) {
    forall p, k {:trigger Accounted(at, leaves, p + [k], view[p][k])} ::
      p in view && k in view[p] ==> Accounted(at, leaves, p + [k], view[p][k])
  }

  /**
   The objects found at the paths of `at` hold exactly `leaves`, each object at one path.
   Objects along `open`, a path being laid, may still lack a leaf.
   */
  ghost predicate Mirrors(at: Directory, view: View, leaves: map<seq<string>, Json>, open: seq<string>) {
    && Linked(at, view) && Unshared(at) && Placed(view, leaves) && NothingElse(at, view, leaves)
    && (forall p {:trigger Interior(leaves, p)} :: p in at ==> IsPrefix(p, open) || Interior(leaves, p))
  }

  lemma MirrorsUnshared(at: Directory, view: View, leaves: map<seq<string>, Json>, open: seq<string>)
    requires Mirrors(at, view, leaves, open)
    ensures Unshared(at) && [] in at
  {
  }

  /** Nothing is found past a property that is not there. */
  lemma Unoccupied(at: Directory, view: View, leaves: map<seq<string>, Json>, path: seq<string>, k: string)
    requires Mirrors(at, view, leaves, path) && path in at && k !in view[path]
    ensures Init(path + [k]) == path && Last(path + [k]) == k
    ensures path + [k] !in at && path + [k] !in leaves
  {
  }

  /** The views before and after laying an object agree on every other property. */
  lemma LaidView(view: View, path: seq<string>, k: string, o: JsObject) returns (view': View)
    requires path in view && k !in view[path] && path + [k] !in view
    ensures view' == view[path := view[path][k := Ref(o)]][path + [k] := map[]]
    ensures Holds(view', path + [k], Ref(o)) && view'[path + [k]] == map[]
    ensures forall p, slot :: Holds(view, p, slot) ==> Holds(view', p, slot)
    ensures forall p, j :: p in view' && j in view'[p] && (p != path || j != k)
              ==> p in view && j in view[p] && view[p][j] == view'[p][j]
  {
    view' := view[path := view[path][k := Ref(o)]][path + [k] := map[]];
    assert Init(path + [k]) == path && Last(path + [k]) == k;
  }

  /** Laying a new object at the end of the open path. */
  lemma LayObject(at: Directory, view: View, leaves: map<seq<string>, Json>, path: seq<string>, k: string, o: JsObject)
    requires Mirrors(at, view, leaves, path) && path in at && k !in view[path]
    requires o !in at.Values
    ensures Mirrors(at[path + [k] := o], view[path := view[path][k := Ref(o)]][path + [k] := map[]], leaves, path + [k])
  {
    var p0 := path + [k];
    Unoccupied(at, view, leaves, path, k);
    var at' := at[p0 := o];
    var view' := LaidView(view, path, k, o);
    assert Linked(at', view') by {
      forall p | p in at' && p != [] ensures Holds(view', p, Ref(at'[p])) {
        assert p != p0 ==> Holds(view, p, Ref(at[p]));
      }
    }
    assert Placed(view', leaves) by {
      forall p | p in leaves ensures Holds(view', p, Val(leaves[p])) {
        assert Holds(view, p, Val(leaves[p]));
      }
    }
    LaidAccounted(at, view, leaves, path, k, o, view');
    forall p | p in at' ensures IsPrefix(p, p0) || Interior(leaves, p) {
      if p != p0 && IsPrefix(p, path) {
        assert p0[..|p|] == path[..|p|];
      }
    }
  }

  lemma LaidAccounted(at: Directory, view: View, leaves: map<seq<string>, Json>, path: seq<string>, k: string,
                      o: JsObject, view': View)
    requires NothingElse(at, view, leaves) && at.Keys == view.Keys && path in at && path + [k] !in at
    requires view' == view[path := view[path][k := Ref(o)]][path + [k] := map[]]
    ensures NothingElse(at[path + [k] := o], view', leaves)
  {
    var at' := at[path + [k] := o];
    forall p, j | p in view' && j in view'[p] ensures Accounted(at', leaves, p + [j], view'[p][j]) {
      if p != path || j != k {
        assert Accounted(at, leaves, p + [j], view[p][j]);
        assert (p + [j])[..|p|] == p && (p + [j])[|p|] == j;
      }
    }
  }

  lemma InteriorGrows(leaves: map<seq<string>, Json>, q: seq<string>, v: Json, p: seq<string>)
    requires Interior(leaves, p)
    ensures Interior(leaves[q := v], p)
  {
  }

  /** Setting the last property of the open path closes it. */
  lemma SetLeaf(at: Directory, view: View, leaves: map<seq<string>, Json>, path: seq<string>, k: string, v: Json)
    requires Mirrors(at, view, leaves, path) && path in at && k !in view[path]
    ensures Mirrors(at, view[path := view[path][k := Val(v)]], leaves[path + [k] := v], [])
  {
    Unoccupied(at, view, leaves, path, k);
    var view' := view[path := view[path][k := Val(v)]];
    LeafHolds(at, view, leaves, path, k, v);
    LeafAccounted(at, view, leaves, path, k, v);
    forall p | p in at ensures Interior(leaves[path + [k] := v], p) {
      LeafInterior(at, view, leaves, path, k, v, p);
    }
  }

  lemma LeafHolds(at: Directory, view: View, leaves: map<seq<string>, Json>, path: seq<string>, k: string, v: Json)
    requires Linked(at, view) && Placed(view, leaves) && path in at && k !in view[path]
    ensures Linked(at, view[path := view[path][k := Val(v)]])
    ensures Placed(view[path := view[path][k := Val(v)]], leaves[path + [k] := v])
  {
    hide Holds;
    OthersKept(view, path, k, Val(v));
  }

  /** Setting a missing property keeps the others. */
  lemma OthersKept(view: View, path: seq<string>, k: string, slot: Slot)
    requires path in view && k !in view[path]
    ensures var view' := view[path := view[path][k := slot]];
      Holds(view', path + [k], slot) && forall p, other :: Holds(view, p, other) ==> Holds(view', p, other)
  {
    assert Init(path + [k]) == path && Last(path + [k]) == k;
  }

  lemma LeafAccounted(at: Directory, view: View, leaves: map<seq<string>, Json>, path: seq<string>, k: string, v: Json)
    requires NothingElse(at, view, leaves) && path in view && path + [k] !in leaves
    ensures NothingElse(at, view[path := view[path][k := Val(v)]], leaves[path + [k] := v])
  {
    var leaves', view' := leaves[path + [k] := v], view[path := view[path][k := Val(v)]];
    forall p, j | p in view' && j in view'[p] ensures Accounted(at, leaves', p + [j], view'[p][j]) {
      if p != path || j != k {
        assert Accounted(at, leaves, p + [j], view[p][j]);
        assert (p + [j])[..|p|] == p && (p + [j])[|p|] == j;
      }
    }
  }

  lemma LeafInterior(at: Directory, view: View, leaves: map<seq<string>, Json>, path: seq<string>, k: string, v: Json,
                     p: seq<string>)
    requires Mirrors(at, view, leaves, path) && p in at
    ensures Interior(leaves[path + [k] := v], p)
  {
    var p0 := path + [k];
    assert IsPrefix(p, path) || Interior(leaves, p);
    if IsPrefix(p, path) {
      assert p0[..|p|] == path[..|p|] && IsPrefix(p, p0) && p != p0;
      assert p0 in leaves[p0 := v];
    } else {
      InteriorGrows(leaves, p0, v, p);
    }
  }

  /** What is at the next step of a prefix-free set of paths: nothing, or an object. */
  lemma NoLeafOnTheWay(at: Directory, view: View, leaves: map<seq<string>, Json>, path: seq<string>, k: string,
                       all: set<seq<string>>, p: seq<string>)
    requires Mirrors(at, view, leaves, path) && path in at && k in view[path]
    requires PrefixFree(all) && leaves.Keys <= all && p in all && p !in leaves && IsPrefix(path + [k], p)
    ensures view[path][k].Ref? && path + [k] != p && path + [k] in at && at[path + [k]] == view[path][k].node
    ensures Mirrors(at, view, leaves, path + [k])
  {
    assert Accounted(at, leaves, path + [k], view[path][k]);
    if path + [k] in at {
      assert !IsPrefix(path + [k], path);
      assert Interior(leaves, path + [k]);
      var q :| q in leaves && IsPrefix(path + [k], q) && path + [k] != q;
    }
    forall r | r in at ensures IsPrefix(r, path + [k]) || Interior(leaves, r) {
      if IsPrefix(r, path) {
        assert (path + [k])[..|r|] == path[..|r|];
      }
    }
  }

  // ── Mutation ───────────────────────────────────────────────────────────────

  /** How restoring can end: built, or run into a value where it needs an object. */
  datatype Outcome = Built | NotAnObject | InsideAValue

  /** The values the host treats as false in `a || b`. */
  predicate Falsy(v: Json) {
    match v
    case JNull => true
    case JBool(b) => !b
    case JNum(n) => n.NaN? || n == Finite(0.0)
    case JStr(s) => s == ""
    case JObj(_) => false
  }

  /** There are five of them, besides the absent one. */
  lemma FalsyExactly(v: Json)
    ensures Falsy(v) <==> v in {JNull, JBool(false), JNum(NaN), JNum(Finite(0.0)), JStr("")}
  {
  }

  /** `path` leads, through objects laid so far, towards `p`, the next of a prefix-free set of paths. */
  ghost predicate Towards(at: Directory, view: View, leaves: map<seq<string>, Json>, path: seq<string>,
                          all: set<seq<string>>, p: seq<string>) {
    && Mirrors(at, view, leaves, path) && path in at && IsPrefix(path, p)
    && PrefixFree(all) && leaves.Keys <= all && p in all && p !in leaves
  }

  /** Objects whose references stay among them. */
  ghost predicate Closed(objs: set<JsObject>)
    reads objs
  {
    forall o, k :: o in objs && k in o.fields && o.fields[k].Ref? ==> o.fields[k].node in objs
  }

  /** `current[k] = {}`. */
  method AddObject(current: JsObject, k: string, ghost at: Directory, ghost path: seq<string>)
    returns (next: JsObject, ghost at': Directory)
    modifies current
    ensures fresh(next) && at' == at[path + [k] := next]
    ensures next.fields == map[] && current.fields == old(current.fields)[k := Ref(next)]
    ensures Unshared(at) && path in at && at[path] == current && path + [k] !in at
            ==> ViewOf(at') == old(ViewOf(at))[path := old(current.fields)[k := Ref(next)]][path + [k] := map[]]
  {
    next := new JsObject();
    current.fields := current.fields[k := Ref(next)];
    at' := at[path + [k] := next];
  }

  /** `current[k] = v`. */
  method SetProperty(current: JsObject, k: string, v: Json, ghost at: Directory, ghost path: seq<string>)
    modifies current
    ensures current.fields == old(current.fields)[k := Val(v)]
    ensures Unshared(at) && path in at && at[path] == current
            ==> ViewOf(at) == old(ViewOf(at))[path := old(current.fields)[k := Val(v)]]
  {
    current.fields := current.fields[k := Val(v)];
  }

  /** `current[k] = current[k] || {}; current = current[k]`. */
  method Enter(current: JsObject, k: string, ghost at: Directory, ghost leaves: map<seq<string>, Json>,
               ghost path: seq<string>, ghost all: set<seq<string>>, ghost p: seq<string>, ghost objs: set<JsObject>)
    returns (outcome: Outcome, next: JsObject, ghost at': Directory, ghost objs': set<JsObject>)
    requires current in objs && Closed(objs) && at.Values <= objs
    modifies current
    ensures next in objs' && Closed(objs') && objs <= objs' && fresh(objs' - objs) && at'.Values <= objs'
    ensures if k in old(current.fields) && old(current.fields)[k].Ref? then
              outcome == Built && next == old(current.fields)[k].node && current.fields == old(current.fields)
            else if k in old(current.fields) && !Falsy(old(current.fields)[k].value) then
              && current.fields == old(current.fields)
              && outcome == (if old(current.fields)[k].value.JObj? then InsideAValue else NotAnObject)
            else
              && outcome == Built && fresh(next) && next.fields == map[]
              && current.fields == old(current.fields)[k := Ref(next)]
    ensures (&& old(Towards(at, ViewOf(at), leaves, path, all, p)) && at[path] == current
             && IsPrefix(path + [k], p) && |path| + 1 < |p|)
            ==> outcome.Built? && Towards(at', ViewOf(at'), leaves, path + [k], all, p)
                && at'[path + [k]] == next && [] in at' && at'[[]] == at[[]]
  {
    at', objs', next := at, objs, current;
    ghost var view := ViewOf(at);
    ghost var towards := Towards(at, view, leaves, path, all, p) && at[path] == current && IsPrefix(path + [k], p)
        && |path| + 1 < |p|;
    if towards && k in current.fields {
      NoLeafOnTheWay(at, view, leaves, path, k, all, p);
    }
    if k in current.fields && current.fields[k].Ref? {
      next, outcome := current.fields[k].node, Built;
    } else if k in current.fields && !Falsy(current.fields[k].value) {
      outcome := if current.fields[k].value.JObj? then InsideAValue else NotAnObject;
    } else {
      if towards {
        Unoccupied(at, view, leaves, path, k);
      }
      next, at' := AddObject(current, k, at, path);
      outcome := Built;
      objs' := objs + {next};
      if towards {
        LayObject(at, view, leaves, path, k, next);
      }
    }
  }

  /** Walk from `root` along `keys`, laying objects where they are missing, and set the value at the end. */
  method Put(root: JsObject, keys: seq<string>, value: Json, ghost at: Directory, ghost leaves: map<seq<string>, Json>,
             ghost all: set<seq<string>>, ghost objs: set<JsObject>)
    returns (outcome: Outcome, ghost at': Directory, ghost objs': set<JsObject>)
    requires keys != [] && root in objs && Closed(objs) && at.Values <= objs
    modifies objs
    ensures Closed(objs') && objs <= objs' && fresh(objs' - objs) && at'.Values <= objs'
    ensures old(Towards(at, ViewOf(at), leaves, [], all, keys)) && at[[]] == root
            ==> outcome.Built? && Mirrors(at', ViewOf(at'), leaves[keys := value], []) && at'[[]] == root
  {
    hide Mirrors, PrefixFree, Unshared;
    at', objs', outcome := at, objs, Built;
    ghost var towards := Towards(at, ViewOf(at), leaves, [], all, keys) && at[[]] == root;
    var current, i := root, 0;
    ghost var path: seq<string> := [];
    while i < |keys| - 1
      invariant 0 <= i < |keys| && path == keys[..i]
      invariant current in objs' && Closed(objs') && objs <= objs' && fresh(objs' - objs) && at'.Values <= objs'
      invariant towards ==>
                  && Towards(at', ViewOf(at'), leaves, path, all, keys)
                  && at'[path] == current && [] in at' && at'[[]] == root
    {
      assert path + [keys[i]] == keys[..i + 1];
      outcome, current, at', objs' := Enter(current, keys[i], at', leaves, path, all, keys, objs');
      path := path + [keys[i]];
      if !outcome.Built? {
        return;
      }
      i := i + 1;
    }
    assert path + [keys[i]] == keys;
    outcome := Built;
    ghost var view := ViewOf(at');
    if towards {
      LastStepFree(at', view, leaves, path, keys[i], all, keys);
      MirrorsUnshared(at', view, leaves, path);
      SetLeaf(at', view, leaves, path, keys[i], value);
    }
    SetProperty(current, keys[i], value, at', path);
  }

  /** Nothing yet stands at the last step of a new path. */
  lemma LastStepFree(at: Directory, view: View, leaves: map<seq<string>, Json>, path: seq<string>, k: string,
                     all: set<seq<string>>, p: seq<string>)
    requires Towards(at, view, leaves, path, all, p) && path + [k] == p
    ensures k !in view[path]
  {
    if k in view[path] {
      NoLeafOnTheWay(at, view, leaves, path, k, all, p);
    }
  }

  /** The defined entries of a flat map, by path. */
  function DefinedLeaves(flat: map<string, Option<Json>>): map<seq<string>, Json> {
    LeavesOf(map k | k in flat && flat[k].Some? :: flat[k].value)
  }

  /** `leaves` are the leaves of the keys visited so far. */
  ghost predicate Visited(pathOf: map<string, seq<string>>, all: map<seq<string>, Json>, todo: set<string>,
                          leaves: map<seq<string>, Json>) {
    && all.Keys == pathOf.Values
    && (forall k, m :: k in pathOf && m in pathOf && pathOf[k] == pathOf[m] ==> k == m)
    && (forall p :: p in leaves ==> p in all && leaves[p] == all[p])
    && (forall k :: k in pathOf ==> (k in todo <==> pathOf[k] !in leaves))
  }

  lemma StartVisit(flat: map<string, Option<Json>>)
    returns (pathOf: map<string, seq<string>>, all: map<seq<string>, Json>)
    ensures all == DefinedLeaves(flat) && Visited(pathOf, all, flat.Keys, map[])
    ensures forall k :: k in pathOf <==> k in flat && flat[k].Some?
    ensures forall k :: k in pathOf ==> pathOf[k] == Split(k, '/') && all[pathOf[k]] == flat[k].value
  {
    all := DefinedLeaves(flat);
    pathOf := map k | k in flat && flat[k].Some? :: Split(k, '/');
    SplitKeysInjective(pathOf.Keys);
    var defined := map k | k in flat && flat[k].Some? :: flat[k].value;
    assert forall k :: k in pathOf ==> LeavesOf(defined)[pathOf[k]] == defined[k];
  }

  lemma VisitKey(pathOf: map<string, seq<string>>, all: map<seq<string>, Json>, todo: set<string>,
                 leaves: map<seq<string>, Json>, key: string)
    requires Visited(pathOf, all, todo, leaves) && key in todo
    ensures key !in pathOf ==> Visited(pathOf, all, todo - {key}, leaves)
    ensures key in pathOf ==>
              && pathOf[key] in all && pathOf[key] !in leaves && leaves.Keys <= all.Keys
              && Visited(pathOf, all, todo - {key}, leaves[pathOf[key] := all[pathOf[key]]])
  {
  }

  lemma VisitedAll(pathOf: map<string, seq<string>>, all: map<seq<string>, Json>, leaves: map<seq<string>, Json>)
    requires Visited(pathOf, all, {}, leaves)
    ensures leaves == all
  {
  }

  /**
   The object found at `p` has the properties of the object `t` has at `p`: the
   same names, references where `t` goes on, the same values elsewhere.
   */
  ghost predicate NodeIs(at: Directory, view: View, t: Json, p: seq<string>)
    requires p in view
  {
    && Lookup(t, p).Some? && Lookup(t, p).value.JObj?
    && view[p].Keys == Lookup(t, p).value.fields.Keys
    && forall k :: k in view[p] ==>
         match view[p][k]
         case Ref(o) => p + [k] in at && at[p + [k]] == o
         case Val(v) => Lookup(t, p).value.fields[k] == v
  }

  /** The object graph found at `at` is the tree `t`, and no two of its paths share an object. */
  ghost predicate Represents(at: Directory, view: View, t: Json) {
    && [] in at && view.Keys == at.Keys && Unshared(at)
    && forall p {:trigger NodeIs(at, view, t, p)} :: p in at ==> NodeIs(at, view, t, p)
  }

  lemma {:induction false} PrefixInAt(at: Directory, view: View, p: seq<string>, q: seq<string>)
    requires Linked(at, view) && q in at && IsPrefix(p, q)
    ensures p in at
    decreases |q|
  {
    if p != q {
      assert Holds(view, q, Ref(at[q]));
      PrefixInAt(at, view, p, Init(q));
    }
  }

  /** A path objects are found at is never at or past a leaf. */
  lemma FoundUncovered(at: Directory, view: View, leaves: map<seq<string>, Json>, p: seq<string>)
    requires Mirrors(at, view, leaves, []) && PrefixFree(leaves.Keys) && [] !in leaves && p in at
    ensures Interior(leaves, p) && !Covered(leaves, p)
  {
    hide PrefixFree, Covered, Linked, Placed, NothingElse, Unshared;
    assert IsPrefix(p, []) ==> Interior(leaves, p);
    InteriorUncovered(leaves, p);
  }

  lemma InteriorUncovered(leaves: map<seq<string>, Json>, p: seq<string>)
    requires PrefixFree(leaves.Keys) && [] !in leaves && Interior(leaves, p)
    ensures !Covered(leaves, p)
  {
    if q :| q in leaves && IsPrefix(q, p) {
      assert |q| == 0 ==> q == [];
      if p != [] {
        var r :| r in leaves && IsPrefix(p, r) && p != r;
        assert r[..|q|] == p[..|q|];
        assert IsPrefix(q, r);
      }
    }
  }

  /** The next segment of a leaf's path past `p` is a property of the object found at `p`. */
  lemma NextIsProperty(at: Directory, view: View, leaves: map<seq<string>, Json>, p: seq<string>, q: seq<string>)
    requires Linked(at, view) && Placed(view, leaves) && p in at && q in leaves && IsPrefix(p, q) && p != q
    ensures q[|p|] in view[p]
  {
    assert Holds(view, q, Val(leaves[q]));
    if |q| == |p| + 1 {
      assert Init(q) == p;
    } else {
      var pk := q[..|p| + 1];
      assert IsPrefix(pk, Init(q));
      PrefixInAt(at, view, pk, Init(q));
      assert Holds(view, pk, Ref(at[pk]));
      assert Init(pk) == p;
    }
  }

  /** Every leaf beyond `p` starts at a property of the object found at `p`. */
  lemma HeadIsProperty(at: Directory, view: View, leaves: map<seq<string>, Json>, p: seq<string>, r: seq<string>)
    requires Linked(at, view) && Placed(view, leaves) && p in at && r in Beyond(leaves, p) && r != []
    ensures r[0] in view[p]
  {
    BeyondAt(leaves, p, r);
    var q := p + r;
    assert q[|p|] == r[0] && q[..|p|] == p;
    NextIsProperty(at, view, leaves, p, q);
  }

  /** Every property of the object found at `p` starts a leaf beyond `p`. */
  lemma PropertyIsHead(at: Directory, view: View, leaves: map<seq<string>, Json>, p: seq<string>, k: string)
    requires Mirrors(at, view, leaves, []) && p in at && k in view[p]
    ensures k in Heads(Beyond(leaves, p))
    ensures view[p][k].Val? ==> [k] in Beyond(leaves, p) && Beyond(leaves, p)[[k]] == view[p][k].value
    ensures view[p][k].Ref? ==> p + [k] in at && at[p + [k]] == view[p][k].node
  {
    var pk := p + [k];
    assert Accounted(at, leaves, p + [k], view[p][k]);
    BeyondAt(leaves, p, [k]);
    if view[p][k].Val? {
      assert [k] in Beyond(leaves, p) && [k][0] == k;
    } else {
      assert Interior(leaves, pk);
      InteriorHead(leaves, p, k);
    }
  }

  lemma InteriorHead(leaves: map<seq<string>, Json>, p: seq<string>, k: string)
    requires Interior(leaves, p + [k])
    ensures k in Heads(Beyond(leaves, p))
  {
    var q :| q in leaves && IsPrefix(p + [k], q) && p + [k] != q;
    var r := q[|p|..];
    assert q == p + r && r[0] == k;
    BeyondAt(leaves, p, r);
  }

  /** Objects that hold exactly the leaves are the tree the leaves describe. */
  lemma MirrorsIsTree(at: Directory, view: View, leaves: map<seq<string>, Json>, t: Json)
    requires Mirrors(at, view, leaves, []) && PrefixFree(leaves.Keys) && [] !in leaves && IsTree(t, leaves)
    ensures Represents(at, view, t)
  {
    forall p | p in at ensures NodeIs(at, view, t, p) {
      FoundUncovered(at, view, leaves, p);
      LookupInTree(t, leaves, p);
      var u := Lookup(t, p).value;
      forall k | k in view[p]
        ensures k in u.fields && (view[p][k].Val? ==> u.fields[k] == view[p][k].value)
        ensures view[p][k].Ref? ==> p + [k] in at && at[p + [k]] == view[p][k].node
      {
        PropertyIsHead(at, view, leaves, p, k);
      }
      forall k | k in u.fields ensures k in view[p] {
        var r :| r in Beyond(leaves, p) && r != [] && r[0] == k;
        HeadIsProperty(at, view, leaves, p, r);
      }
    }
  }

  /** The objects built so far hold the leaves visited so far. */
  ghost predicate Progress(root: JsObject, at: Directory, pathOf: map<string, seq<string>>,
                           all: map<seq<string>, Json>, todo: set<string>, leaves: map<seq<string>, Json>)
    reads at.Values
  {
    && Visited(pathOf, all, todo, leaves)
    && (PrefixFree(all.Keys) ==> Mirrors(at, ViewOf(at), leaves, []) && at[[]] == root)
  }

  /** One turn of the loop over the flat keys; an undefined entry is skipped. */
  method Visit(root: JsObject, key: string, entry: Option<Json>, ghost at: Directory,
               ghost pathOf: map<string, seq<string>>, ghost all: map<seq<string>, Json>, ghost todo: set<string>,
               ghost leaves: map<seq<string>, Json>, ghost objs: set<JsObject>)
    returns (outcome: Outcome, ghost at': Directory, ghost leaves': map<seq<string>, Json>, ghost objs': set<JsObject>)
    requires root in objs && Closed(objs) && at.Values <= objs
    requires Progress(root, at, pathOf, all, todo, leaves) && key in todo
    requires key in pathOf <==> entry.Some?
    requires key in pathOf ==> pathOf[key] == Split(key, '/') && all[pathOf[key]] == entry.value
    modifies objs
    ensures Closed(objs') && objs <= objs' && fresh(objs' - objs) && at'.Values <= objs'
    ensures PrefixFree(all.Keys) ==> outcome.Built?
    ensures outcome.Built? ==> Progress(root, at', pathOf, all, todo - {key}, leaves')
  {
    VisitKey(pathOf, all, todo, leaves, key);
    outcome, at', leaves', objs' := Built, at, leaves, objs;
    if entry.Some? {
      outcome, at', objs' := Put(root, Split(key, '/'), entry.value, at, leaves, all.Keys, objs);
      leaves' := leaves[pathOf[key] := entry.value];
    }
  }

  /** An empty object holds no leaves. */
  method EmptyRoot() returns (root: JsObject, ghost at: Directory)
    ensures fresh(root) && root.fields == map[] && at == map[[] := root]
    ensures Mirrors(at, ViewOf(at), map[], [])
  {
    root := new JsObject();
    at := map[[] := root];
    assert ViewOf(at)[[]] == root.fields;
  }

  /** Visit every key of a flat map, in any order. */
  method RestoreKeys(flat: map<string, Option<Json>>) returns (outcome: Outcome, root: JsObject, ghost at: Directory)
    ensures fresh(root) && fresh(at.Values)
    ensures PrefixFree(DefinedLeaves(flat).Keys)
            ==> outcome.Built? && Mirrors(at, ViewOf(at), DefinedLeaves(flat), []) && at[[]] == root
  {
    hide Mirrors, Visited, DefinedLeaves;
    ghost var pathOf, all := StartVisit(flat);
    outcome := Built;
    root, at := EmptyRoot();
    ghost var leaves: map<seq<string>, Json>, objs: set<JsObject> := map[], {root};
    var todo := flat.Keys;
    while todo != {}
      invariant todo <= flat.Keys && outcome.Built?
      invariant fresh(objs) && root in objs && Closed(objs) && at.Values <= objs
      invariant Progress(root, at, pathOf, all, todo, leaves)
      decreases todo
    {
      var key :| key in todo;
      outcome, at, leaves, objs := Visit(root, key, flat[key], at, pathOf, all, todo, leaves, objs);
      if !outcome.Built? {
        return;
      }
      todo := todo - {key};
    }
    VisitedAll(pathOf, all, leaves);
  }

  /**
   Restore a flat map, visiting its keys in any order. When no key path leads
   to or through another, the objects built are the one tree the map describes.
   */
  method RestoreHierarchy(flat: map<string, Option<Json>>)
    returns (outcome: Outcome, root: JsObject, ghost at: Directory)
    ensures fresh(root) && fresh(at.Values)
    ensures PrefixFree(DefinedLeaves(flat).Keys)
            ==> outcome.Built? && Represents(at, ViewOf(at), TreeOf(DefinedLeaves(flat))) && at[[]] == root
  {
    outcome, root, at := RestoreKeys(flat);
    ghost var all := DefinedLeaves(flat);
    if PrefixFree(all.Keys) {
      assert [] !in all;
      MirrorsIsTree(at, ViewOf(at), all, TreeOf(all));
    }
  }

  /** The tree an object graph represents, read from the object found at `p`. */
  method Snapshot(o: JsObject, ghost at: Directory, ghost t: Json, ghost p: seq<string>) returns (j: Json)
    requires Represents(at, ViewOf(at), t) && p in at && at[p] == o
    ensures Lookup(t, p) == Some(j)
    decreases if Lookup(t, p).Some? then Lookup(t, p).value else JNull
  {
    ghost var view := ViewOf(at);
    ghost var node := Lookup(t, p);
    assert NodeIs(at, view, t, p);
    var fields: map<string, Json> := map[];
    var todo := o.fields.Keys;
    while todo != {}
      invariant todo <= o.fields.Keys && fields.Keys == o.fields.Keys - todo
      invariant forall k :: k in fields ==> fields[k] == node.value.fields[k]
      decreases todo
    {
      var k :| k in todo;
      match o.fields[k] {
        case Val(v) =>
          fields := fields[k := v];
        case Ref(child) =>
          LookupChild(t, p, k);
          var value := Snapshot(child, at, t, p + [k]);
          fields := fields[k := value];
      }
      todo := todo - {k};
    }
    j := JObj(fields);
    assert fields == node.value.fields;
  }

  lemma {:induction false} LookupChild(t: Json, p: seq<string>, k: string)
    requires Lookup(t, p).Some? && Lookup(t, p).value.JObj? && k in Lookup(t, p).value.fields
    ensures Lookup(t, p + [k]) == Some(Lookup(t, p).value.fields[k])
    decreases |p|
  {
    if p != [] {
      assert (p + [k])[1..] == p[1..] + [k];
      LookupChild(t.fields[p[0]], p[1..], k);
    } else {
      assert p + [k] == [k] && [k][1..] == [];
      assert Lookup(t, [k]) == Lookup(t.fields[k], []);
    }
  }
}
