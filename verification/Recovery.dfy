/**
 Decoding undoes encoding: what the three stages of the attribute decoder give
 back for the encoding of a set of activities (services/hotmesh-utils.ts).
 */
module Recovery {
  import opened Basics
  import opened Attributes
  import opened Hierarchy
  import opened Activities

  /** Where an activity ran: its dimensions and its name. */
  datatype Place = Place(dims: seq<string>, name: string)

  /**
   What an activity stores: its metadata, and its output data when it has any.
   Each is a map from the path below the section to the value stored there;
   the empty path stores the section whole.
   */
  datatype Activity = Activity(meta: map<seq<string>, Json>, data: map<seq<string>, Json>)

  predicate IsSection(section: string) {
    section == "metadata" || section == "data"
  }

  function Fields(act: Activity, section: string): map<seq<string>, Json>
    requires IsSection(section)
  {
    if section == "metadata" then act.meta else act.data
  }

  /** The value a section is restored to. */
  ghost function SectionValue(fields: map<seq<string>, Json>): Json {
    if [] in fields then fields[[]] else TreeOf(fields)
  }

  function NodePath(pl: Place): seq<string> {
    pl.dims + [pl.name]
  }

  function SectionPath(pl: Place, section: string): seq<string> {
    NodePath(pl) + ["output", section]
  }

  ghost predicate ValidPlace(pl: Place) {
    AllNumeric(pl.dims) && !IsNumeric(pl.name)
  }

  /** Metadata the walk recognises an activity by: not absent, and not one false value. */
  ghost predicate Recognised(act: Activity) {
    act.meta != map[] && !Falsy(SectionValue(act.meta))
  }

  /** A value of the job that is no part of an activity's metadata or data. */
  ghost predicate Aside(p: seq<string>, v: Json) {
    var i := Dimensions(p);
    && i < |p|
    && (i + 1 == |p| ==> !IsActivity(v))
    && (i + 1 < |p| && p[i + 1] == "output" ==>
          if i + 2 == |p| then !Truthy(Get(v, "metadata")) else !IsSection(p[i + 2]))
  }

  /** `p` stores a field of a section of the activity at `pl`. */
  ghost predicate FieldIn(act: Activity, pl: Place, section: string, p: seq<string>, v: Json)
    requires IsSection(section)
  {
    exists r :: r in Fields(act, section) && p == SectionPath(pl, section) + r && v == Fields(act, section)[r]
  }

  ghost predicate FieldOf(acts: map<Place, Activity>, pl: Place, p: seq<string>, v: Json) {
    pl in acts && (FieldIn(acts[pl], pl, "metadata", p, v) || FieldIn(acts[pl], pl, "data", p, v))
  }

  /** The job's values are exactly the fields of the activities, and values aside from them. */
  ghost predicate IsJob(leaves: map<seq<string>, Json>, acts: map<Place, Activity>) {
    && (forall pl :: pl in acts ==> ValidPlace(pl) && Recognised(acts[pl]))
    && (forall pl, section, r :: pl in acts && IsSection(section) && r in Fields(acts[pl], section) ==>
          && SectionPath(pl, section) + r in leaves
          && leaves[SectionPath(pl, section) + r] == Fields(acts[pl], section)[r])
    && (forall p :: p in leaves ==> Aside(p, leaves[p]) || exists pl :: FieldOf(acts, pl, p, leaves[p]))
  }

  /** The activity as extraction reports it. */
  ghost function Expected(pl: Place, act: Activity): Info {
    var data := if act.data == map[] then JNull else SectionValue(act.data);
    InfoFrom(pl.name, pl.dims, SectionValue(act.meta), if Falsy(data) then JNull else data)
  }

  // ── What a report says of an activity's stored fields ──────────────────────

  /** What a section stores as the property `key`. */
  ghost function StoredAt(fields: map<seq<string>, Json>, key: string): Option<Json> {
    if [] in fields then
      if fields[[]].JObj? && key in fields[[]].fields then Some(fields[[]].fields[key]) else None
    else if [key] in fields then Some(fields[[key]])
    else if exists p :: p in fields && p != [] && p[0] == key then Some(TreeOf(Beyond(fields, [key])))
    else None
  }

  /** The stored value, unless it is absent or false. */
  ghost predicate Says(stored: Option<Json>, otherwise: Json, said: Json) {
    if stored.Some? && !Falsy(stored.value) then said == stored.value else said == otherwise
  }

  /** What a section stores as a whole. */
  ghost function StoredWhole(fields: map<seq<string>, Json>): Option<Json> {
    if fields == map[] then None else if [] in fields then Some(fields[[]]) else Some(TreeOf(fields))
  }

  /** The report is the activity's: its place, and each field as it is stored. */
  ghost predicate ReportOf(pl: Place, act: Activity, a: Info) {
    && a.name == pl.name && a.dims == pl.dims
    && Says(StoredAt(act.meta, "atp"), JStr("worker"), a.kind) && Says(StoredAt(act.meta, "stp"), JStr(pl.name), a.step)
    && Says(StoredAt(act.meta, "ac"), JNull, a.ac) && Says(StoredAt(act.meta, "au"), JNull, a.au)
    && Says(StoredAt(act.meta, "l1s"), JNull, a.traceId) && Says(StoredAt(act.meta, "l2s"), JNull, a.spanId)
    && Says(StoredAt(act.meta, "err"), JNull, a.error) && Says(StoredWhole(act.data), JNull, a.data)
  }

  /** A property of the tree of a section is what the section stores there. */
  lemma PropertyStored(fields: map<seq<string>, Json>, key: string)
    ensures Get(SectionValue(fields), key) == StoredAt(fields, key)
  {
    if [] !in fields {
      var t := TreeOf(fields);
      if [key] in fields {
        assert [key] != [] && [key][0] == key;
      } else if key in t.fields {
        TreeUnique(t.fields[key], TreeOf(Beyond(fields, [key])), Beyond(fields, [key]));
      }
    }
  }

  lemma OrSays(fields: map<seq<string>, Json>, key: string, otherwise: Json)
    ensures Says(StoredAt(fields, key), otherwise, Or(SectionValue(fields), key, otherwise))
  {
    PropertyStored(fields, key);
  }

  /** Each field of a report is what is stored for it, and there is one report of an activity. */
  lemma ReportExactly(pl: Place, act: Activity, a: Info)
    ensures ReportOf(pl, act, a) <==> a == Expected(pl, act)
  {
    hide StoredAt, SectionValue, Or;
    OrSays(act.meta, "atp", JStr("worker"));
    OrSays(act.meta, "stp", JStr(pl.name));
    OrSays(act.meta, "ac", JNull);
    OrSays(act.meta, "au", JNull);
    OrSays(act.meta, "l1s", JNull);
    OrSays(act.meta, "l2s", JNull);
    OrSays(act.meta, "err", JNull);
    WholeSays(act.data);
  }

  lemma WholeSays(fields: map<seq<string>, Json>)
    ensures StoredWhole(fields) == if fields == map[] then None else Some(SectionValue(fields))
  {
  }

  /** The activity's stored timestamp may come before the other's. */
  ghost predicate StoredNotAfter(collate: (string, string) -> int, x: Activity, y: Activity) {
    var s, t := StoredAt(x.meta, "ac"), StoredAt(y.meta, "ac");
    t.Some? && !Falsy(t.value) ==>
      s.Some? && !Falsy(s.value) && (s.value.JStr? && t.value.JStr? ==> collate(s.value.s, t.value.s) <= 0)
  }

  /** The activities' places in the order of their reports, each place once. */
  ghost predicate InPlaces(acts: map<Place, Activity>, places: seq<Place>, activities: seq<Info>) {
    && |places| == |activities|
    && (forall pl :: pl in places <==> pl in acts)
    && (forall i, j :: 0 <= i < j < |places| ==> places[i] != places[j])
    && (forall i :: 0 <= i < |places| ==> ReportOf(places[i], acts[places[i]], activities[i]))
  }

  // ── Paths of a place ───────────────────────────────────────────────────────

  lemma {:induction false} DimensionsOf(dims: seq<string>, name: string, rest: seq<string>)
    requires AllNumeric(dims) && !IsNumeric(name)
    ensures Dimensions(dims + [name] + rest) == |dims|
  {
    var p := dims + [name] + rest;
    if dims != [] {
      assert p[1..] == dims[1..] + [name] + rest;
      DimensionsOf(dims[1..], name, rest);
    }
  }

  /** A path into a section of a place's output is a field of that place's activity. */
  lemma OutputIsField(leaves: map<seq<string>, Json>, acts: map<Place, Activity>, pl: Place, section: string,
                      r: seq<string>)
    requires IsJob(leaves, acts) && ValidPlace(pl) && IsSection(section) && SectionPath(pl, section) + r in leaves
    ensures pl in acts && r in Fields(acts[pl], section)
    ensures leaves[SectionPath(pl, section) + r] == Fields(acts[pl], section)[r]
  {
    var p, rest := SectionPath(pl, section) + r, ["output", section] + r;
    InSection(pl, section, r);
    DimensionsOf(pl.dims, pl.name, rest);
    assert p == pl.dims + [pl.name] + rest;
    assert !Aside(p, leaves[p]);
    var ql :| FieldOf(acts, ql, p, leaves[p]);
    FieldIsHere(acts[ql], pl, section, r, ql, leaves[p]);
  }

  lemma InSection(pl: Place, section: string, r: seq<string>)
    ensures SectionPath(pl, section) + r == NodePath(pl) + (["output", section] + r)
  {
  }

  /** Two activities share no field's path. */
  lemma FieldIsHere(act: Activity, pl: Place, section: string, r: seq<string>, ql: Place, v: Json)
    requires ValidPlace(pl) && ValidPlace(ql) && IsSection(section)
    requires FieldIn(act, ql, "metadata", SectionPath(pl, section) + r, v)
          || FieldIn(act, ql, "data", SectionPath(pl, section) + r, v)
    ensures pl == ql && r in Fields(act, section) && v == Fields(act, section)[r]
  {
    var p := SectionPath(pl, section) + r;
    var other := if FieldIn(act, ql, "metadata", p, v) then "metadata" else "data";
    var r' :| r' in Fields(act, other) && p == SectionPath(ql, other) + r' && v == Fields(act, other)[r'];
    InSection(pl, section, r);
    InSection(ql, other, r');
    SamePlace(pl, ["output", section] + r, ql, ["output", other] + r');
    assert (["output", section] + r)[1] == section && (["output", section] + r)[2..] == r;
    assert (["output", other] + r')[1] == other && (["output", other] + r')[2..] == r';
  }

  lemma SamePlace(pl: Place, rest: seq<string>, ql: Place, other: seq<string>)
    requires ValidPlace(pl) && ValidPlace(ql) && NodePath(pl) + rest == NodePath(ql) + other
    ensures pl == ql && rest == other
  {
    var p := NodePath(pl) + rest;
    DimensionsOf(pl.dims, pl.name, rest);
    DimensionsOf(ql.dims, ql.name, other);
    assert p == pl.dims + [pl.name] + rest && p == ql.dims + [ql.name] + other;
    assert pl.dims == p[..|pl.dims|] && ql.dims == p[..|ql.dims|];
    assert pl.name == p[|pl.dims|] && rest == p[|pl.dims| + 1..] && other == p[|ql.dims| + 1..];
  }

  // ── The restored tree at a place ───────────────────────────────────────────

  lemma {:induction false} LookupAppend(t: Json, p: seq<string>, q: seq<string>)
    requires Lookup(t, p).Some?
    ensures Lookup(t, p + q) == Lookup(Lookup(t, p).value, q)
    decreases |p|
  {
    if p == [] {
      assert p + q == q;
    } else {
      assert (p + q)[1..] == p[1..] + q;
      LookupAppend(t.fields[p[0]], p[1..], q);
    }
  }

  /** The leaves beyond a section of an activity's output are its fields. */
  lemma SectionBeyond(leaves: map<seq<string>, Json>, acts: map<Place, Activity>, pl: Place, section: string)
    requires IsJob(leaves, acts) && pl in acts && IsSection(section)
    ensures Beyond(leaves, SectionPath(pl, section)) == Fields(acts[pl], section)
  {
    hide Beyond;
    var inner, fields := Beyond(leaves, SectionPath(pl, section)), Fields(acts[pl], section);
    forall r
      ensures r in inner <==> r in fields
      ensures r in inner ==> inner[r] == fields[r]
    {
      BeyondAt(leaves, SectionPath(pl, section), r);
      if r in inner {
        OutputIsField(leaves, acts, pl, section, r);
      }
    }
  }

  lemma InteriorIffBeyond(leaves: map<seq<string>, Json>, p: seq<string>)
    requires p != [] && p !in leaves
    ensures Interior(leaves, p) <==> Beyond(leaves, p) != map[]
  {
    if Interior(leaves, p) {
      var q :| q in leaves && IsPrefix(p, q) && p != q;
      assert q == p + q[|p|..];
      BeyondAt(leaves, p, q[|p|..]);
    }
    if r :| r in Beyond(leaves, p) {
      BeyondAt(leaves, p, r);
      assert IsPrefix(p, p + r);
      assert p + r != p;
    }
  }

  /** The section of an activity's output is restored to the tree of its fields. */
  lemma SectionRestored(t: Json, leaves: map<seq<string>, Json>, acts: map<Place, Activity>, pl: Place, section: string)
    requires IsTree(t, leaves) && PrefixFree(leaves.Keys) && [] !in leaves && IsJob(leaves, acts)
    requires pl in acts && IsSection(section)
    ensures var fields := Fields(acts[pl], section);
      Lookup(t, SectionPath(pl, section)) == if fields == map[] then None else Some(SectionValue(fields))
  {
    hide IsJob, Beyond, Interior, PrefixFree;
    var p, fields := SectionPath(pl, section), Fields(acts[pl], section);
    SectionBeyond(leaves, acts, pl, section);
    BeyondAt(leaves, p, []);
    assert p + [] == p;
    LookupInTree(t, leaves, p);
    if [] !in fields {
      NotCovered(leaves, acts, pl, section);
      InteriorIffBeyond(leaves, p);
      if fields != map[] {
        TreeUnique(Lookup(t, p).value, TreeOf(fields), fields);
      }
    }
  }

  /** No value is stored above a section of an activity's output. */
  lemma NotCovered(leaves: map<seq<string>, Json>, acts: map<Place, Activity>, pl: Place, section: string)
    requires PrefixFree(leaves.Keys) && IsJob(leaves, acts) && pl in acts
    requires IsSection(section) && SectionPath(pl, section) !in leaves
    ensures !Covered(leaves, SectionPath(pl, section))
  {
    hide PrefixFree, Covered;
    var r :| r in acts[pl].meta;
    assert r in Fields(acts[pl], "metadata") && IsSection("metadata");
    NoneAbove(leaves, pl, section, r);
  }

  lemma NoneAbove(leaves: map<seq<string>, Json>, pl: Place, section: string, r: seq<string>)
    requires PrefixFree(leaves.Keys) && SectionPath(pl, section) !in leaves && SectionPath(pl, "metadata") + r in leaves
    ensures !Covered(leaves, SectionPath(pl, section))
  {
    if q :| q in leaves && IsPrefix(q, SectionPath(pl, section)) {
      assert |q| == |SectionPath(pl, section)| ==> q == SectionPath(pl, section);
      AboveField(pl, section, r, q);
    }
  }

  lemma AboveField(pl: Place, section: string, r: seq<string>, q: seq<string>)
    requires IsPrefix(q, SectionPath(pl, section)) && |q| <= |NodePath(pl)| + 1
    ensures IsPrefix(q, SectionPath(pl, "metadata") + r) && q != SectionPath(pl, "metadata") + r
  {
    var head := NodePath(pl) + ["output"];
    StartsAlike(head, [section], q);
    assert SectionPath(pl, section) == head + [section];
    StartsAlike(head, ["metadata"] + r, q);
    assert SectionPath(pl, "metadata") + r == head + (["metadata"] + r);
  }

  lemma StartsAlike(head: seq<string>, rest: seq<string>, q: seq<string>)
    requires |q| <= |head|
    ensures IsPrefix(q, head + rest) <==> IsPrefix(q, head)
  {
    assert (head + rest)[..|q|] == head[..|q|];
  }

  /** The node restored at an activity's place is taken for that activity. */
  lemma NodeRestored(t: Json, leaves: map<seq<string>, Json>, acts: map<Place, Activity>, pl: Place)
    requires IsTree(t, leaves) && PrefixFree(leaves.Keys) && [] !in leaves && IsJob(leaves, acts) && pl in acts
    ensures Lookup(t, NodePath(pl)).Some? && IsActivity(Lookup(t, NodePath(pl)).value)
    ensures InfoOf(pl.name, pl.dims, Lookup(t, NodePath(pl)).value) == Expected(pl, acts[pl])
  {
    SectionRestored(t, leaves, acts, pl, "metadata");
    SectionRestored(t, leaves, acts, pl, "data");
    NodeAt(t, NodePath(pl), pl.name, pl.dims, acts[pl]);
  }

  /** A node is recognised by its two sections. */
  lemma NodeAt(t: Json, p: seq<string>, name: string, dims: seq<string>, act: Activity)
    requires Recognised(act)
    requires Lookup(t, p + ["output", "metadata"]) == Some(SectionValue(act.meta))
    requires Lookup(t, p + ["output", "data"]) == if act.data == map[] then None else Some(SectionValue(act.data))
    ensures Lookup(t, p).Some? && IsActivity(Lookup(t, p).value)
    ensures InfoOf(name, dims, Lookup(t, p).value) == Expected(Place(dims, name), act)
  {
    hide SectionValue;
    LookupPrefix(t, p, ["output", "metadata"]);
    LookupAppend(t, p, ["output", "metadata"]);
    LookupAppend(t, p, ["output", "data"]);
    var node := Lookup(t, p).value;
    TwoSteps(node, "output", "metadata");
    TwoSteps(node, "output", "data");
  }

  lemma {:induction false} LookupPrefix(t: Json, p: seq<string>, q: seq<string>)
    requires Lookup(t, p + q).Some?
    ensures Lookup(t, p).Some?
    decreases |p|
  {
    if p != [] {
      assert (p + q)[1..] == p[1..] + q;
      LookupPrefix(t.fields[p[0]], p[1..], q);
    }
  }

  lemma TwoSteps(node: Json, a: string, b: string)
    ensures Lookup(node, [a, b]) == if Get(node, a).Some? then Get(Get(node, a).value, b) else None
  {
    assert [a, b][1..] == [b] && [b][1..] == [];
    if Get(node, a).Some? {
      assert Lookup(node, [a, b]) == Lookup(node.fields[a], [b]);
      if Get(node.fields[a], b).Some? {
        assert Lookup(node.fields[a], [b]) == Lookup(node.fields[a].fields[b], []);
      }
    }
  }

  // ── Which nodes are activities ─────────────────────────────────────────────

  /** A field is never stored at or above the node or the output of a place. */
  lemma FieldBelowOutput(acts: map<Place, Activity>, ql: Place, q: seq<string>, v: Json, pl: Place)
    requires FieldOf(acts, ql, q, v) && ValidPlace(ql) && ValidPlace(pl)
    ensures !IsPrefix(q, NodePath(pl) + ["output"])
  {
    var p := NodePath(pl) + ["output"];
    assert |q| >= |ql.dims| + 3 && q[|ql.dims|] == ql.name;
    assert forall i :: 0 <= i < |pl.dims| ==> p[i] == pl.dims[i] && IsNumeric(p[i]);
  }

  /** A value stored at or above a place is stored at the place, and is no activity. */
  lemma CoveredPlace(leaves: map<seq<string>, Json>, acts: map<Place, Activity>, pl: Place)
    requires IsJob(leaves, acts) && ValidPlace(pl) && Covered(leaves, NodePath(pl))
    ensures NodePath(pl) in leaves && !IsActivity(leaves[NodePath(pl)])
  {
    var p := NodePath(pl);
    var q :| q in leaves && IsPrefix(q, p);
    if ql :| FieldOf(acts, ql, q, leaves[q]) {
      FieldBelowOutput(acts, ql, q, leaves[q], pl);
      StartsAlike(p, ["output"], q);
    } else {
      AsideAtPlace(q, leaves[q], pl);
    }
  }

  lemma AsideAtPlace(q: seq<string>, v: Json, pl: Place)
    requires Aside(q, v) && ValidPlace(pl) && IsPrefix(q, NodePath(pl))
    ensures q == NodePath(pl) && !IsActivity(v)
  {
  }

  /** A node taken for an activity is one of the job's. */
  lemma NodeIsJobs(t: Json, leaves: map<seq<string>, Json>, acts: map<Place, Activity>, pl: Place)
    requires IsTree(t, leaves) && PrefixFree(leaves.Keys) && [] !in leaves && IsJob(leaves, acts)
    requires ValidPlace(pl) && Lookup(t, NodePath(pl)).Some? && IsActivity(Lookup(t, NodePath(pl)).value)
    ensures pl in acts
  {
    hide IsJob, Interior, PrefixFree, Covered, IsTree, Beyond;
    var p, m := NodePath(pl), SectionPath(pl, "metadata");
    var node := Lookup(t, p).value;
    LookupAppend(t, p, ["output", "metadata"]);
    TwoSteps(node, "output", "metadata");
    LookupInTree(t, leaves, m);
    if Covered(leaves, m) {
      CoveredMetadata(t, leaves, acts, pl);
    } else {
      SomeLeafBeyond(leaves, acts, pl);
    }
  }

  /** A value stored at or above the metadata of a node taken for an activity is that activity's metadata. */
  lemma CoveredMetadata(t: Json, leaves: map<seq<string>, Json>, acts: map<Place, Activity>, pl: Place)
    requires IsTree(t, leaves) && PrefixFree(leaves.Keys) && [] !in leaves && IsJob(leaves, acts) && ValidPlace(pl)
    requires Lookup(t, NodePath(pl)).Some? && IsActivity(Lookup(t, NodePath(pl)).value)
    requires Covered(leaves, SectionPath(pl, "metadata"))
    ensures pl in acts
  {
    hide IsJob, IsTree, PrefixFree, Interior, IsActivity;
    var p, m := NodePath(pl), SectionPath(pl, "metadata");
    var q :| q in leaves && IsPrefix(q, m);
    if |q| <= |p| {
      StartsAlike(p, ["output", "metadata"], q);
      CoveredPlace(leaves, acts, pl);
      LookupInTree(t, leaves, p);
    } else if |q| == |p| + 1 {
      assert q == p + ["output"];
      CoveredOutput(t, leaves, acts, pl);
    } else {
      assert q == m && m + [] == m;
      OutputIsField(leaves, acts, pl, "metadata", []);
    }
  }

  /** A value stored at the output of a place has no metadata. */
  lemma CoveredOutput(t: Json, leaves: map<seq<string>, Json>, acts: map<Place, Activity>, pl: Place)
    requires IsTree(t, leaves) && PrefixFree(leaves.Keys) && [] !in leaves && IsJob(leaves, acts) && ValidPlace(pl)
    requires NodePath(pl) + ["output"] in leaves && Lookup(t, NodePath(pl)).Some?
    ensures !IsActivity(Lookup(t, NodePath(pl)).value)
  {
    var p, q := NodePath(pl), NodePath(pl) + ["output"];
    if ql :| FieldOf(acts, ql, q, leaves[q]) {
      FieldBelowOutput(acts, ql, q, leaves[q], pl);
    }
    DimensionsOf(pl.dims, pl.name, ["output"]);
    LookupInTree(t, leaves, q);
    LookupAppend(t, p, ["output"]);
    OneStep(Lookup(t, p).value, "output");
  }

  lemma OneStep(node: Json, a: string)
    ensures Lookup(node, [a]) == Get(node, a)
  {
    assert [a][1..] == [];
  }

  /** A leaf past a place's metadata is one of its fields. */
  lemma SomeLeafBeyond(leaves: map<seq<string>, Json>, acts: map<Place, Activity>, pl: Place)
    requires IsJob(leaves, acts) && ValidPlace(pl) && Interior(leaves, SectionPath(pl, "metadata"))
    ensures pl in acts
  {
    var m := SectionPath(pl, "metadata");
    var q :| q in leaves && IsPrefix(m, q);
    assert q == m + q[|m|..];
    OutputIsField(leaves, acts, pl, "metadata", q[|m|..]);
  }

  /** Extraction finds exactly the job's activities, with their own names, dimensions and fields. */
  lemma ActivitiesRecovered(t: Json, leaves: map<seq<string>, Json>, acts: map<Place, Activity>)
    requires IsTree(t, leaves) && PrefixFree(leaves.Keys) && [] !in leaves && IsJob(leaves, acts)
    ensures Infos(t, []) == set pl | pl in acts :: Expected(pl, acts[pl])
  {
    var want := set pl | pl in acts :: Expected(pl, acts[pl]);
    forall a | a in Infos(t, []) ensures a in want {
      var d := InfoFound(t, [], a);
      assert [] + d == d;
      NodeIsJobs(t, leaves, acts, Place(d, a.name));
      NodeRestored(t, leaves, acts, Place(d, a.name));
    }
    forall a | a in want ensures a in Infos(t, []) {
      var pl :| pl in acts && a == Expected(pl, acts[pl]);
      NodeRestored(t, leaves, acts, pl);
      assert [] + pl.dims == pl.dims;
      FoundInfo(t, [], pl.dims, pl.name);
    }
  }

  /** The walk returns when no value is stored under numeric keys alone. */
  lemma {:induction false} TreeWalkable(t: Json, leaves: map<seq<string>, Json>)
    requires IsTree(t, leaves) && forall p :: p in leaves ==> Dimensions(p) < |p|
    ensures Walkable(t)
    decreases t
  {
    forall k | k in t.fields && IsNumeric(k) ensures Walkable(t.fields[k]) {
      assert Dimensions([k]) == 1 by { assert [k][1..] == []; }
      forall r | r in Beyond(leaves, [k]) ensures Dimensions(r) < |r| {
        BeyondAt(leaves, [k], r);
        assert ([k] + r)[1..] == r;
      }
      TreeWalkable(t.fields[k], Beyond(leaves, [k]));
    }
  }

  /** No two activities are reported alike: the place can be read off. */
  lemma ExpectedTellsPlace(pl: Place, a: Activity, ql: Place, b: Activity)
    requires Expected(pl, a) == Expected(ql, b)
    ensures pl == ql
  {
  }

  // ── The whole decoder ──────────────────────────────────────────────────────

  /** Where two activities store timestamps, both are text. */
  ghost predicate TimesComparable(acts: map<Place, Activity>) {
    forall pl, ql :: pl in acts && ql in acts && pl != ql ==>
      var s, t := StoredAt(acts[pl].meta, "ac"), StoredAt(acts[ql].meta, "ac");
      s.Some? && !Falsy(s.value) && t.Some? && !Falsy(t.value) ==> s.value.JStr? && t.value.JStr?
  }

  lemma ReportsComparable(acts: map<Place, Activity>)
    requires TimesComparable(acts)
    ensures Comparable(set pl | pl in acts :: Expected(pl, acts[pl]))
  {
    hide StoredAt, Expected;
    var all := set pl | pl in acts :: Expected(pl, acts[pl]);
    forall a, b | a in all && b in all && a != b && Timed(a) && Timed(b) ensures a.ac.JStr? && b.ac.JStr? {
      var pl :| pl in acts && a == Expected(pl, acts[pl]);
      var ql :| ql in acts && b == Expected(ql, acts[ql]);
      ReportExactly(pl, acts[pl], a);
      ReportExactly(ql, acts[ql], b);
    }
  }

  /** A job whose activities carry comparable timestamps, encoded through a valid table. */
  ghost predicate Encoded(host: Host, symbols: map<string, string>, leaves: map<seq<string>, Json>,
                          acts: map<Place, Activity>, attrs: map<string, string>) {
    && LiteralsSpelledOut(host) && ValidTable(symbols) && ValidJob(host, leaves, symbols) && IsJob(leaves, acts)
    && attrs == Encode(host, leaves, symbols)
    && TimesComparable(acts)
  }

  lemma SpellableHasName(symbols: map<string, string>, p: seq<string>)
    requires ValidTable(symbols) && Spellable(symbols, p)
    ensures Dimensions(p) < |p|
  {
  }

  lemma EntriesHoldLeaves(flat: map<string, Json>, entries: map<string, Option<Json>>)
    requires entries == map k | k in flat :: Some(flat[k])
    ensures DefinedLeaves(entries) == LeavesOf(flat)
  {
  }

  /** The tree of an encoded job walks to the end and yields the job's activities. */
  lemma EncodedActivities(host: Host, symbols: map<string, string>, leaves: map<seq<string>, Json>,
                          acts: map<Place, Activity>, attrs: map<string, string>)
    requires Encoded(host, symbols, leaves, acts, attrs)
    ensures PrefixFree(leaves.Keys) && Walkable(TreeOf(leaves))
    ensures Infos(TreeOf(leaves), []) == set pl | pl in acts :: Expected(pl, acts[pl])
    ensures Comparable(Infos(TreeOf(leaves), []))
  {
    InflationUndoesEncoding(host, leaves, symbols);
    forall p | p in leaves ensures Dimensions(p) < |p| {
      SpellableHasName(symbols, p);
    }
    TreeWalkable(TreeOf(leaves), leaves);
    ActivitiesRecovered(TreeOf(leaves), leaves, acts);
    ReportsComparable(acts);
  }

  /** A chronological listing of the expected reports is one of the activities, ordered by their stored timestamps. */
  lemma ListingInPlaces(collate: (string, string) -> int, acts: map<Place, Activity>, activities: seq<Info>)
    returns (places: seq<Place>)
    requires Lists(activities, set pl | pl in acts :: Expected(pl, acts[pl])) && Chronological(collate, activities)
    ensures InPlaces(acts, places, activities)
    ensures forall i, j :: 0 <= i < j < |places| ==> StoredNotAfter(collate, acts[places[i]], acts[places[j]])
  {
    hide StoredAt, Expected;
    var all := set pl | pl in acts :: Expected(pl, acts[pl]);
    places := seq(|activities|, i requires 0 <= i < |activities| => Place(activities[i].dims, activities[i].name));
    forall i | 0 <= i < |places| ensures places[i] in acts && ReportOf(places[i], acts[places[i]], activities[i]) {
      assert activities[i] in all;
      var pl :| pl in acts && activities[i] == Expected(pl, acts[pl]);
      ReportExactly(pl, acts[pl], activities[i]);
    }
    forall pl | pl in acts ensures pl in places {
      assert Expected(pl, acts[pl]) in all;
      var i :| 0 <= i < |activities| && activities[i] == Expected(pl, acts[pl]);
      ReportExactly(pl, acts[pl], activities[i]);
      assert places[i] == pl;
    }
    forall i, j | 0 <= i < j < |places| ensures places[i] != places[j] {
      ReportExactly(places[i], acts[places[i]], activities[i]);
      ReportExactly(places[j], acts[places[j]], activities[j]);
    }
    forall i, j | 0 <= i < j < |places| ensures StoredNotAfter(collate, acts[places[i]], acts[places[j]]) {
      assert NotAfter(collate, activities[i].ac, activities[j].ac);
    }
  }

  /**
   Inflating, restoring and extracting the encoding of a set of activities
   gives back exactly those activities, each once, every field as it is stored
   and in the order of the stored timestamps.
   */
  method DecodeActivities(host: Host, collate: (string, string) -> int, symbols: map<string, string>,
                          attrs: map<string, string>,
                          ghost leaves: map<seq<string>, Json>, ghost acts: map<Place, Activity>)
    returns (activities: Option<seq<Info>>, ghost places: seq<Place>)
    requires Encoded(host, symbols, leaves, acts, attrs) && Collation(collate)
    ensures activities.Some? && InPlaces(acts, places, activities.value)
    ensures forall i, j :: 0 <= i < j < |places| ==> StoredNotAfter(collate, acts[places[i]], acts[places[j]])
  {
    EncodedActivities(host, symbols, leaves, acts, attrs);
    var hierarchy := Restore(host, symbols, attrs, leaves);
    activities := ExtractActivities(collate, hierarchy);
    places := ListingInPlaces(collate, acts, activities.value);
  }

  /** The first two stages, on an encoding, restore the one tree of the job's values. */
  method Restore(host: Host, symbols: map<string, string>, attrs: map<string, string>,
                 ghost leaves: map<seq<string>, Json>)
    returns (hierarchy: Json)
    requires LiteralsSpelledOut(host) && ValidTable(symbols) && ValidJob(host, leaves, symbols)
    requires attrs == Encode(host, leaves, symbols)
    ensures hierarchy == TreeOf(leaves)
  {
    InflationUndoesEncoding(host, leaves, symbols);
    var flat := InflateAttributes(host, attrs, symbols);
    hierarchy := RestoreFlat(flat.value);
  }

  method RestoreFlat(flat: map<string, Json>) returns (hierarchy: Json)
    requires PrefixFree(LeavesOf(flat).Keys)
    ensures hierarchy == TreeOf(LeavesOf(flat))
  {
    var entries := map k | k in flat :: Some(flat[k]);
    EntriesHoldLeaves(flat, entries);
    var outcome, root, at := RestoreHierarchy(entries);
    hierarchy := Snapshot(root, at, TreeOf(LeavesOf(flat)), []);
  }
}
