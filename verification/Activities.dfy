/**
 Extracting the activities of a restored job (services/hotmesh-utils.ts,
 extractActivities): a recursive walk through numeric dimension keys that
 collects every node with an `output.metadata` subtree.
 */
module Activities {
  import opened Basics
  import opened Attributes
  import opened Hierarchy
  import opened StableSort

  /** One extracted activity. Its `dimensions` text is `dims` joined with "/". */
  datatype Info = Info(
    name: string, kind: Json, step: Json, ac: Json, au: Json,
    traceId: Json, spanId: Json, error: Json, data: Json, dims: seq<string>)

  /** Property access; None is `undefined`. */
  function Get(v: Json, key: string): Option<Json> {
    if v.JObj? && key in v.fields then Some(v.fields[key]) else None
  }

  predicate Truthy(v: Option<Json>) {
    v.Some? && !Falsy(v.value)
  }

  /** `v[key] || otherwise`. */
  function Or(v: Json, key: string, otherwise: Json): Json {
    if Truthy(Get(v, key)) then Get(v, key).value else otherwise
  }

  /** A node the walk takes for an activity. */
  predicate IsActivity(node: Json) {
    node.JObj? && Truthy(Get(node, "output")) && Truthy(Get(Get(node, "output").value, "metadata"))
  }

  function InfoFrom(name: string, dims: seq<string>, meta: Json, data: Json): Info {
    Info(name, Or(meta, "atp", JStr("worker")), Or(meta, "stp", JStr(name)),
         Or(meta, "ac", JNull), Or(meta, "au", JNull),
         Or(meta, "l1s", JNull), Or(meta, "l2s", JNull), Or(meta, "err", JNull), data, dims)
  }

  function InfoOf(name: string, dims: seq<string>, node: Json): Info
    requires IsActivity(node)
  {
    var output := Get(node, "output").value;
    InfoFrom(name, dims, Get(output, "metadata").value, Or(output, "data", JNull))
  }

  /**
   Whether walking a node returns. `Object.keys(null)` throws, and a non-empty
   string under a numeric key is walked into its own first character for ever.
   */
  predicate Walkable(node: Json) {
    match node
    case JNull => false
    case JStr(s) => s == ""
    case JObj(fields) => forall k :: k in fields && IsNumeric(k) ==> Walkable(fields[k])
    case _ => true
  }

  /** The activities below a node. */
  ghost function Infos(node: Json, dims: seq<string>): set<Info>
    decreases node
  {
    if !node.JObj? then {} else
      (set k | k in node.fields && !IsNumeric(k) && IsActivity(node.fields[k]) :: InfoOf(k, dims, node.fields[k]))
      + (set k, a | k in node.fields && IsNumeric(k) && a in Infos(node.fields[k], dims + [k]) :: a)
  }

  /** `s` lists `all`, each element once. */
  ghost predicate Lists<T(!new)>(s: seq<T>, all: set<T>) {
    && (forall x :: x in s <==> x in all)
    && (forall i, j :: 0 <= i < j < |s| ==> s[i] != s[j])
  }

  lemma ListsAppend<T(!new)>(s: seq<T>, a: set<T>, u: seq<T>, b: set<T>)
    requires Lists(s, a) && Lists(u, b) && a !! b
    ensures Lists(s + u, a + b)
  {
    forall i, j | 0 <= i < j < |s + u| ensures (s + u)[i] != (s + u)[j] {
      if i < |s| <= j {
        assert s[i] in a && u[j - |s|] in b;
      }
    }
  }

  /** An activity is under the key of the node it was reached by. */
  ghost predicate Via(node: Json, dims: seq<string>, k: string, a: Info)
    requires node.JObj? && k in node.fields
  {
    if IsNumeric(k) then a in Infos(node.fields[k], dims + [k])
    else IsActivity(node.fields[k]) && a == InfoOf(k, dims, node.fields[k])
  }

  /** The walk only adds dimensions. */
  lemma {:induction false} InfoDims(node: Json, dims: seq<string>, a: Info)
    requires a in Infos(node, dims)
    ensures IsPrefix(dims, a.dims)
    decreases node
  {
    if k :| k in node.fields && IsNumeric(k) && a in Infos(node.fields[k], dims + [k]) {
      InfoDims(node.fields[k], dims + [k], a);
    }
  }

  /** No activity is reached by two keys. */
  lemma ViaOneKey(node: Json, dims: seq<string>, k: string, m: string, a: Info)
    requires node.JObj? && k in node.fields && m in node.fields && Via(node, dims, k, a) && Via(node, dims, m, a)
    ensures k == m
  {
    if IsNumeric(k) {
      InfoDims(node.fields[k], dims + [k], a);
      assert a.dims[|dims|] == (dims + [k])[|dims|] == k;
    }
    if IsNumeric(m) {
      InfoDims(node.fields[m], dims + [m], a);
      assert a.dims[|dims|] == (dims + [m])[|dims|] == m;
    }
  }

  /** Walk a node, collecting its activities in whatever order its keys come; None when the walk throws. */
  method Walk(node: Json, dims: seq<string>) returns (r: Option<seq<Info>>)
    ensures r.Some? <==> Walkable(node)
    ensures r.Some? ==> Lists(r.value, Infos(node, dims))
    decreases node
  {
    if !node.JObj? {
      return if Walkable(node) then Some([]) else None;
    }
    var activities: seq<Info> := [];
    ghost var found: set<Info> := {};
    var todo := node.fields.Keys;
    while todo != {}
      invariant todo <= node.fields.Keys
      invariant Lists(activities, found)
      invariant forall a :: a in found <==> exists k :: k in node.fields.Keys - todo && Via(node, dims, k, a)
      invariant forall k :: k in node.fields.Keys - todo && IsNumeric(k) ==> Walkable(node.fields[k])
      decreases todo
    {
      var key :| key in todo;
      ghost var via := set a | a in Infos(node, dims) && Via(node, dims, key, a);
      var more: seq<Info> := [];
      if IsNumeric(key) {
        var below := Walk(node.fields[key], dims + [key]);
        if below.None? {
          return None;
        }
        more := below.value;
      } else if IsActivity(node.fields[key]) {
        more := [InfoOf(key, dims, node.fields[key])];
      }
      KeyLists(node, dims, key, more, via);
      FoundApart(node, dims, key, node.fields.Keys - todo, found, via);
      ListsAppend(activities, found, more, via);
      activities := activities + more;
      found := found + via;
      todo := todo - {key};
    }
    AllVia(node, dims, found);
    return Some(activities);
  }

  lemma KeyLists(node: Json, dims: seq<string>, key: string, more: seq<Info>, via: set<Info>)
    requires node.JObj? && key in node.fields
    requires via == set a | a in Infos(node, dims) && Via(node, dims, key, a)
    requires if IsNumeric(key) then Lists(more, Infos(node.fields[key], dims + [key]))
             else more == if IsActivity(node.fields[key]) then [InfoOf(key, dims, node.fields[key])] else []
    ensures Lists(more, via)
    ensures forall a :: a in via <==> Via(node, dims, key, a)
  {
  }

  lemma FoundApart(node: Json, dims: seq<string>, key: string, done: set<string>, found: set<Info>, via: set<Info>)
    requires node.JObj? && key in node.fields && done <= node.fields.Keys && key !in done
    requires forall a :: a in found <==> exists k :: k in done && Via(node, dims, k, a)
    requires forall a :: a in via <==> Via(node, dims, key, a)
    ensures found !! via
  {
    forall a | a in found && a in via ensures false {
      var k :| k in done && Via(node, dims, k, a);
      ViaOneKey(node, dims, k, key, a);
    }
  }

  lemma AllVia(node: Json, dims: seq<string>, found: set<Info>)
    requires node.JObj?
    requires forall a :: a in found <==> exists k :: k in node.fields.Keys && Via(node, dims, k, a)
    ensures found == Infos(node, dims)
  {
  }

  // ── What the walk finds ────────────────────────────────────────────────────

  lemma OneDeeper(dims: seq<string>, k: string, rest: seq<string>, name: string)
    ensures [k] + rest + [name] == [k] + (rest + [name])
    ensures ([k] + rest + [name])[1..] == rest + [name]
    ensures dims + ([k] + rest) == dims + [k] + rest
  {
  }

  /** Every extracted activity is a node below numeric keys. */
  lemma {:induction false} InfoFound(t: Json, dims: seq<string>, a: Info) returns (d: seq<string>)
    requires a in Infos(t, dims)
    ensures AllNumeric(d) && !IsNumeric(a.name)
    ensures Lookup(t, d + [a.name]).Some? && IsActivity(Lookup(t, d + [a.name]).value)
    ensures a == InfoOf(a.name, dims + d, Lookup(t, d + [a.name]).value)
    decreases t
  {
    if k :| k in t.fields && IsNumeric(k) && a in Infos(t.fields[k], dims + [k]) {
      var rest := InfoFound(t.fields[k], dims + [k], a);
      d := [k] + rest;
      OneDeeper(dims, k, rest, a.name);
      assert Lookup(t, d + [a.name]) == Lookup(t.fields[k], rest + [a.name]);
    } else {
      d := [];
      assert dims + d == dims && d + [a.name] == [a.name];
      assert Lookup(t, [a.name]) == Lookup(t.fields[a.name], []);
    }
  }

  /** Every activity node below numeric keys is extracted. */
  lemma {:induction false} FoundInfo(t: Json, dims: seq<string>, d: seq<string>, name: string)
    requires AllNumeric(d) && !IsNumeric(name) && Lookup(t, d + [name]).Some? && IsActivity(Lookup(t, d + [name]).value)
    ensures InfoOf(name, dims + d, Lookup(t, d + [name]).value) in Infos(t, dims)
    decreases |d|
  {
    if d == [] {
      assert d + [name] == [name] && dims + d == dims;
      assert Lookup(t, [name]) == Lookup(t.fields[name], []);
    } else {
      var k, rest := d[0], d[1..];
      OneDeeper(dims, k, rest, name);
      assert d == [k] + rest;
      assert Lookup(t, d + [name]) == Lookup(t.fields[k], rest + [name]);
      FoundInfo(t.fields[k], dims + [k], rest, name);
    }
  }

  /** The property `key` of `v`, unless it is absent or false. */
  predicate Shows(v: Json, key: string, otherwise: Json, shown: Json) {
    if v.JObj? && key in v.fields && !Falsy(v.fields[key]) then shown == v.fields[key] else shown == otherwise
  }

  /** The node has metadata, and the report has its fields from there and its data from beside it. */
  ghost predicate Tells(node: Json, a: Info) {
    && node.JObj? && "output" in node.fields
    && var output := node.fields["output"];
    && output.JObj? && "metadata" in output.fields && !Falsy(output.fields["metadata"])
    && var meta := output.fields["metadata"];
    && Shows(meta, "atp", JStr("worker"), a.kind) && Shows(meta, "stp", JStr(a.name), a.step)
    && Shows(meta, "ac", JNull, a.ac) && Shows(meta, "au", JNull, a.au)
    && Shows(meta, "l1s", JNull, a.traceId) && Shows(meta, "l2s", JNull, a.spanId)
    && Shows(meta, "err", JNull, a.error) && Shows(output, "data", JNull, a.data)
  }

  /** Under numeric keys and a name that is none there is an activity that says just this. */
  ghost predicate Reported(t: Json, a: Info) {
    && AllNumeric(a.dims) && !IsNumeric(a.name)
    && Lookup(t, a.dims + [a.name]).Some? && Tells(Lookup(t, a.dims + [a.name]).value, a)
  }

  lemma TellsExactly(node: Json, a: Info)
    ensures Tells(node, a) <==> IsActivity(node) && a == InfoOf(a.name, a.dims, node)
  {
  }

  /** Numeric keys alone lead to null, or to text with anything in it. */
  ghost predicate BlockedAt(t: Json, d: seq<string>) {
    && AllNumeric(d) && Lookup(t, d).Some?
    && var v := Lookup(t, d).value;
    v == JNull || (v.JStr? && v.s != "")
  }

  /** The walk returns exactly when nothing blocks it. */
  lemma {:induction false} WalkableExactly(t: Json)
    ensures Walkable(t) <==> forall d :: !BlockedAt(t, d)
    decreases t
  {
    assert Lookup(t, []) == Some(t);
    if t.JObj? {
      forall k | k in t.fields && IsNumeric(k)
        ensures Walkable(t.fields[k]) <==> forall d :: !BlockedAt(t.fields[k], d)
      {
        WalkableExactly(t.fields[k]);
      }
      if d :| BlockedAt(t, d) {
        assert d != [] && BlockedAt(t.fields[d[0]], d[1..]);
      }
      if k :| k in t.fields && IsNumeric(k) && !Walkable(t.fields[k]) {
        var d :| BlockedAt(t.fields[k], d);
        assert ([k] + d)[1..] == d;
        assert BlockedAt(t, [k] + d);
      }
    } else if d :| BlockedAt(t, d) {
      assert d == [];
    } else {
      assert !BlockedAt(t, []);
    }
  }

  /** The walk's activities are the reported ones. */
  lemma InfosAreReported(t: Json, a: Info)
    ensures a in Infos(t, []) <==> Reported(t, a)
  {
    assert [] + a.dims == a.dims;
    if Reported(t, a) {
      TellsExactly(Lookup(t, a.dims + [a.name]).value, a);
      FoundInfo(t, [], a.dims, a.name);
    }
    if a in Infos(t, []) {
      var d := InfoFound(t, [], a);
      assert [] + d == d;
      TellsExactly(Lookup(t, d + [a.name]).value, a);
    }
  }

  // ── Order ──────────────────────────────────────────────────────────────────

  /** A locale's comparison of two strings: a total preorder, read off its sign. */
  ghost predicate Collation(collate: (string, string) -> int) {
    && (forall s, t :: collate(s, t) < 0 <==> collate(t, s) > 0)
    && (forall s, t, u :: collate(s, t) <= 0 && collate(t, u) <= 0 ==> collate(s, u) <= 0)
  }

  predicate Timed(a: Info) {
    !Falsy(a.ac)
  }

  function Time(a: Info): string {
    if a.ac.JStr? then a.ac.s else ""
  }

  /** The comparator the activities are sorted by. */
  function Compare(collate: (string, string) -> int, a: Info, b: Info): int {
    if !Timed(a) then 1 else if !Timed(b) then -1 else collate(Time(a), Time(b))
  }

  function Earlier(collate: (string, string) -> int): (Info, Info) -> bool {
    (a, b) => Compare(collate, a, b) < 0
  }

  /** A timestamp that may come before another: none may only where the other is none too. */
  predicate NotAfter(collate: (string, string) -> int, x: Json, y: Json) {
    !Falsy(y) ==> !Falsy(x) && (x.JStr? && y.JStr? ==> collate(x.s, y.s) <= 0)
  }

  /** Ascending by timestamp, activities without one last. */
  ghost predicate Chronological(collate: (string, string) -> int, s: seq<Info>) {
    forall i, j :: 0 <= i < j < |s| ==> NotAfter(collate, s[i].ac, s[j].ac)
  }

  /** The comparator is inconsistent between untimed activities, but the test the sort makes of it is an order. */
  lemma EarlierIsWeakOrder(collate: (string, string) -> int)
    requires Collation(collate)
    ensures StrictWeak(Earlier(collate))
  {
    var less := Earlier(collate);
    forall x, y, z | !less(x, y) && !less(y, z) ensures !less(x, z) {
      if Timed(x) && Timed(y) && Timed(z) {
        assert collate(Time(y), Time(x)) <= 0 && collate(Time(z), Time(y)) <= 0;
        assert collate(Time(z), Time(x)) <= 0;
      }
    }
  }

  /**
   No comparison throws, whichever the sort makes: a timestamp that is no text
   is never compared with another, because it is the only one.
   */
  ghost predicate Comparable(all: set<Info>) {
    forall a, b :: a in all && b in all && a != b && Timed(a) && Timed(b) ==> a.ac.JStr? && b.ac.JStr?
  }

  /** Extract a hierarchy's activities in chronological order; None when the walk throws. */
  method ExtractActivities(collate: (string, string) -> int, hierarchy: Json) returns (r: Option<seq<Info>>)
    requires Collation(collate)
    requires Comparable(Infos(hierarchy, []))
    ensures r.Some? <==> Walkable(hierarchy)
    ensures r.Some? ==> Lists(r.value, Infos(hierarchy, [])) && Chronological(collate, r.value)
    ensures r.Some? ==> forall a :: a in r.value <==> Reported(hierarchy, a)
  {
    r := Walk(hierarchy, []);
    if r.Some? {
      EarlierIsWeakOrder(collate);
      var sorted := Sort(Earlier(collate), r.value);
      SortedListsSame(r.value, sorted, Infos(hierarchy, []));
      forall i, j | 0 <= i < j < |sorted| ensures NotAfter(collate, sorted[i].ac, sorted[j].ac) {
        assert !Earlier(collate)(sorted[j], sorted[i]);
      }
      r := Some(sorted);
      forall a ensures a in sorted <==> Reported(hierarchy, a) {
        InfosAreReported(hierarchy, a);
      }
    }
  }

  /** A permutation of a listing lists the same elements, still each once. */
  lemma SortedListsSame<T(!new)>(s: seq<T>, t: seq<T>, all: set<T>)
    requires Lists(s, all) && multiset(t) == multiset(s)
    ensures Lists(t, all)
  {
    forall x ensures x in t <==> x in all {
      assert x in t <==> multiset(t)[x] > 0;
      assert x in s <==> multiset(s)[x] > 0;
    }
    OnceEach(s);
    forall i, j | 0 <= i < j < |t| ensures t[i] != t[j] {
      if t[i] == t[j] {
        TwiceCounts(t, i, j);
      }
    }
  }

  lemma {:induction false} OnceEach<T>(s: seq<T>)
    requires forall i, j :: 0 <= i < j < |s| ==> s[i] != s[j]
    ensures forall x :: x in multiset(s) ==> multiset(s)[x] == 1
  {
    if s != [] {
      OnceEach(s[1..]);
      assert s == [s[0]] + s[1..];
      assert s[0] !in s[1..];
      assert multiset(s) == multiset{s[0]} + multiset(s[1..]);
      assert s[0] !in multiset(s[1..]);
    }
  }

  lemma TwiceCounts<T>(t: seq<T>, i: nat, j: nat)
    requires i < j < |t| && t[i] == t[j]
    ensures multiset(t)[t[i]] >= 2
  {
    assert t == t[..i] + [t[i]] + t[i + 1..j] + [t[j]] + t[j + 1..];
  }
}
