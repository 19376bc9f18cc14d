/**
 A job the decoder theorem applies to: what it asks of the host, the symbol
 table, the activities and the stored attributes can be met all at once.
 */
module SmallJobs {
  import opened Basics
  import opened Text
  import opened Attributes
  import opened Activities
  import opened Recovery

  /** A host that prints and reads back one number and the empty object. */
  const HOST := Host(
    text => if text == "{}" then Some(JObj(map[])) else None,
    v => "{}",
    text => Finite(7.0),
    n => "7")

  const TIME := JStr("20240101")
  const SEVEN := JNum(Finite(7.0))
  const BOX := JObj(map[])

  const PLACE := Place(["0"], "t1")

  /** A timestamp, a number, and an object two steps down. */
  const ACTIVITY := Activity(map[["ac"] := TIME], map[["n"] := SEVEN, ["user", "box"] := BOX])

  const TIME_PATH: seq<string> := ["t1", "output", "metadata", "ac"]
  const SEVEN_PATH: seq<string> := ["t1", "output", "data", "n"]
  const BOX_PATH: seq<string> := ["t1", "output", "data", "user", "box"]

  const LEAVES: map<seq<string>, Json> :=
    map[["0"] + TIME_PATH := TIME, ["0"] + SEVEN_PATH := SEVEN, ["0"] + BOX_PATH := BOX]

  const SYMBOLS: map<string, string> :=
    map["aaa" := Join(TIME_PATH, '/'), "aab" := Join(SEVEN_PATH, '/'), "aac" := Join(BOX_PATH, '/')]

  function PathOf(letters: string): seq<string>
    requires letters in SYMBOLS
  {
    if letters == "aaa" then TIME_PATH else if letters == "aab" then SEVEN_PATH else BOX_PATH
  }

  lemma PathsSplit(letters: string)
    requires letters in SYMBOLS
    ensures SYMBOLS[letters] != "" && Split(SYMBOLS[letters], '/') == PathOf(letters)
    ensures PathOf(letters)[0] == "t1" && !IsNumeric("t1")
  {
    SplitJoin(PathOf(letters), '/');
    assert 't' in "t1";
  }

  lemma PathsApart(l: string, m: string)
    requires l in SYMBOLS && m in SYMBOLS && IsPrefix(PathOf(l), PathOf(m))
    ensures l == m
  {
    var p, q := PathOf(l), PathOf(m);
    assert p[2] == q[..|p|][2] && p[3] == q[..|p|][3];
  }

  lemma TableIsValid()
    ensures ValidTable(SYMBOLS)
  {
    hide Split, PathOf, IsPrefix, IsNumeric;
    forall l | l in SYMBOLS
      ensures IsLetters(l) && SYMBOLS[l] != "" && !IsNumeric(Split(SYMBOLS[l], '/')[0])
    {
      PathsSplit(l);
    }
    forall l, m | l in SYMBOLS && m in SYMBOLS && IsPrefix(Split(SYMBOLS[l], '/'), Split(SYMBOLS[m], '/'))
      ensures l == m
    {
      PathsSplit(l);
      PathsSplit(m);
      PathsApart(l, m);
    }
  }

  lemma SpelledUnder(letters: string)
    requires letters in SYMBOLS
    ensures Spellable(SYMBOLS, ["0"] + PathOf(letters))
  {
    hide Split, PathOf;
    PathsSplit(letters);
    var path := PathOf(letters);
    var p := ["0"] + path;
    assert p == ["0"] + ["t1"] + path[1..];
    DimensionsOf(["0"], "t1", path[1..]);
    assert p[1..] == path;
    assert Spells(SYMBOLS, letters, p);
  }

  lemma LeafAt(p: seq<string>) returns (letters: string)
    requires p in LEAVES
    ensures letters in SYMBOLS && p == ["0"] + PathOf(letters) && Storable(HOST, LEAVES[p])
  {
    letters := if p == ["0"] + TIME_PATH then "aaa" else if p == ["0"] + SEVEN_PATH then "aab" else "aac";
    LeavesApart();
    assert TIME.s[..2] == "20";
  }

  lemma LeavesApart()
    ensures ["0"] + TIME_PATH != ["0"] + SEVEN_PATH && |["0"] + BOX_PATH| == 6
  {
    assert (["0"] + TIME_PATH)[3] == "metadata" && (["0"] + SEVEN_PATH)[3] == "data";
  }

  lemma JobIsValid()
    ensures ValidJob(HOST, LEAVES, SYMBOLS)
  {
    hide Spellable, Storable, PathOf;
    forall p | p in LEAVES ensures Spellable(SYMBOLS, p) && Storable(HOST, LEAVES[p]) {
      var letters := LeafAt(p);
      SpelledUnder(letters);
    }
  }

  lemma FieldPaths()
    ensures SectionPath(PLACE, "metadata") + ["ac"] == ["0"] + TIME_PATH
    ensures SectionPath(PLACE, "data") + ["n"] == ["0"] + SEVEN_PATH
    ensures SectionPath(PLACE, "data") + ["user", "box"] == ["0"] + BOX_PATH
  {
  }

  lemma HoldsFields(section: string, r: seq<string>)
    requires IsSection(section) && r in Fields(ACTIVITY, section)
    ensures SectionPath(PLACE, section) + r in LEAVES
    ensures LEAVES[SectionPath(PLACE, section) + r] == Fields(ACTIVITY, section)[r]
  {
    FieldPaths();
    LeavesApart();
  }

  lemma HoldsNothingElse(p: seq<string>)
    requires p in LEAVES
    ensures FieldOf(map[PLACE := ACTIVITY], PLACE, p, LEAVES[p])
  {
    FieldPaths();
    assert ["ac"] in Fields(ACTIVITY, "metadata");
    assert ["n"] in Fields(ACTIVITY, "data") && ["user", "box"] in Fields(ACTIVITY, "data");
  }

  lemma JobHasActivity()
    ensures IsJob(LEAVES, map[PLACE := ACTIVITY])
  {
    hide FieldOf, Fields;
    var acts := map[PLACE := ACTIVITY];
    assert 't' in PLACE.name;
    assert ["ac"] in ACTIVITY.meta && [] !in ACTIVITY.meta;
    forall section, r | IsSection(section) && r in Fields(ACTIVITY, section)
      ensures SectionPath(PLACE, section) + r in LEAVES
      ensures LEAVES[SectionPath(PLACE, section) + r] == Fields(ACTIVITY, section)[r]
    {
      HoldsFields(section, r);
    }
    forall p | p in LEAVES ensures FieldOf(acts, PLACE, p, LEAVES[p]) {
      HoldsNothingElse(p);
    }
  }

  lemma LiteralsAreSpelledOut()
    ensures LiteralsSpelledOut(HOST)
  {
  }

  lemma NothingToCompare(only: Place, act: Activity)
    ensures TimesComparable(map[only := act])
  {
  }

  /** The decoder theorem's premises hold of this job. */
  lemma SomeJobIsEncoded() returns (attrs: map<string, string>)
    ensures Encoded(HOST, SYMBOLS, LEAVES, map[PLACE := ACTIVITY], attrs)
  {
    hide IsJob, ValidJob, ValidTable, Encode, TimesComparable, Spellable, LiteralsSpelledOut;
    hide LEAVES, SYMBOLS, ACTIVITY;
    TableIsValid();
    JobIsValid();
    JobHasActivity();
    Spelled();
    attrs := Encode(HOST, LEAVES, SYMBOLS);
    LiteralsAreSpelledOut();
    NothingToCompare(PLACE, ACTIVITY);
  }

  lemma Spelled()
    requires ValidJob(HOST, LEAVES, SYMBOLS)
    ensures forall p :: p in LEAVES ==> Spellable(SYMBOLS, p)
  {
  }
}
