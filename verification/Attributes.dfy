/**
 Stored values and inflation of abbreviated attribute keys
 (services/hotmesh-utils.ts, the first two stages of the attribute decoder).

 A stored job is a flat map of abbreviated keys ("abc,0,1") to text. Inflation
 turns the letters back into a path through the symbol table, the numbers into
 leading path segments, and the text into a value.
 */
module Attributes {
  import opened Basics
  import opened Text

  /** A number as `Number(text)` yields it. */
  datatype Num = NaN | Infinite(positive: bool) | Finite(value: real)

  /** A JavaScript value. An array is an object whose keys are its indices. */
  datatype Json =
    | JNull
    | JBool(b: bool)
    | JNum(num: Num)
    | JStr(s: string)
    | JObj(fields: map<string, Json>)

  /** What the host runtime supplies: reading and printing JSON text and numbers. */
  datatype Host = Host(
    parseJson: string -> Option<Json>,
    printJson: Json -> string,
    parseNumber: string -> Num,
    printNumber: Num -> string)

  /** A JSON string literal is no shorter than its content. */
  ghost predicate LiteralsSpelledOut(host: Host) {
    forall text: string, v: Json :: host.parseJson(text) == Some(v) && v.JStr? ==> |v.s| <= |text|
  }

  /** The host prints this value as text it reads back: not every object is JSON, nor every number a decimal. */
  predicate RoundTrips(host: Host, v: Json) {
    match v
    case JNum(n) => host.parseNumber(host.printNumber(n)) == n
    case JObj(_) => host.parseJson(host.printJson(v)) == Some(v)
    case _ => true
  }

  /** Deserialize a stored text; None when JSON.parse throws. */
  function FromString(host: Host, text: string): Option<Json> {
    var prefix := text[..Min(2, |text|)];
    var rest := text[|prefix|..];
    if prefix == "/t" then Some(JBool(true))
    else if prefix == "/f" then Some(JBool(false))
    else if prefix == "/d" then Some(JNum(host.parseNumber(rest)))
    else if prefix == "/n" then Some(JNull)
    else if prefix == "/s" then host.parseJson(rest)
    else Some(JStr(text))
  }

  /** The serializer the prefix conventions describe. */
  function ToStored(host: Host, v: Json): string {
    match v
    case JNull => "/n"
    case JBool(b) => if b then "/t" else "/f"
    case JNum(n) => "/d" + host.printNumber(n)
    case JStr(s) => s
    case JObj(_) => "/s" + host.printJson(v)
  }

  /** A string that starts with one of the type prefixes. */
  predicate Prefixed(v: Json) {
    v.JStr? && |v.s| >= 2 && v.s[..2] in {"/t", "/f", "/d", "/n", "/s"}
  }

  /** A value that can be stored. */
  predicate Storable(host: Host, v: Json) {
    !Prefixed(v) && RoundTrips(host, v)
  }

  /** Reading undoes writing for exactly the values that are no prefixed strings and that the host reads back. */
  lemma StoredValueRoundTrip(host: Host, v: Json)
    requires LiteralsSpelledOut(host)
    ensures FromString(host, ToStored(host, v)) == Some(v) <==> Storable(host, v)
  {
    var text := ToStored(host, v);
    match v
    case JNull =>
      assert text[..2] == text;
    case JBool(_) =>
      assert text[..2] == text;
    case JNum(n) =>
      assert text[2..] == host.printNumber(n) && text[..2] == "/d";
    case JStr(s) =>
      if Prefixed(v) && s[..2] == "/s" && host.parseJson(s[2..]) == Some(v) {
        assert false;
      }
    case JObj(_) =>
      assert text[2..] == host.printJson(v) && text[..2] == "/s";
  }

  /** Each prefix says how the rest is read, and text with none of them is read as itself. */
  lemma StoredTextReads(host: Host, rest: string, text: string)
    ensures FromString(host, "/t" + rest) == Some(JBool(true)) && FromString(host, "/f" + rest) == Some(JBool(false))
    ensures FromString(host, "/n" + rest) == Some(JNull)
    ensures FromString(host, "/d" + rest) == Some(JNum(host.parseNumber(rest)))
    ensures FromString(host, "/s" + rest) == host.parseJson(rest)
    ensures |text| < 2 || text[0] != '/' || text[1] !in {'t', 'f', 'n', 'd', 's'}
            ==> FromString(host, text) == Some(JStr(text))
  {
    assert ("/t" + rest)[..2] == "/t" && ("/f" + rest)[..2] == "/f" && ("/n" + rest)[..2] == "/n";
    assert ("/d" + rest)[..2] == "/d" && ("/d" + rest)[2..] == rest;
    assert ("/s" + rest)[..2] == "/s" && ("/s" + rest)[2..] == rest;
    if |text| >= 2 {
      assert text[..2][0] == text[0] && text[..2][1] == text[1];
    }
  }

  // ── Key inflation ──────────────────────────────────────────────────────────

  predicate IsLetter(c: char) {
    'a' <= c <= 'z' || 'A' <= c <= 'Z'
  }

  predicate IsLetters(s: string) {
    2 <= |s| <= 3 && forall c :: c in s ==> IsLetter(c)
  }

  /** A non-empty run of decimal digits: a dimension. */
  predicate IsNumeric(s: string) {
    s != "" && forall c :: c in s ==> '0' <= c <= '9'
  }

  predicate AllNumeric(dims: seq<string>) {
    forall d :: d in dims ==> IsNumeric(d)
  }

  /** Two or three letters, then any number of ",digits" groups. */
  predicate IsSymbolKey(key: string) {
    var parts := Split(key, ',');
    IsLetters(parts[0]) && AllNumeric(parts[1..])
  }

  function PathFor(symbols: map<string, string>, letters: string): string {
    if letters in symbols && symbols[letters] != "" then symbols[letters] else letters
  }

  /** The ",N,M" suffix of a key as the "N/M/" it contributes to a path. */
  function DimensionText(suffix: string): string {
    if suffix == "" then "" else ReplaceChar(suffix[1..], ',', '/') + "/"
  }

  function InflatedKey(key: string, symbols: map<string, string>): string {
    if key != ":" && IsSymbolKey(key) then
      var letters := Split(key, ',')[0];
      SplitHeadFits(key);
      DimensionText(key[|letters|..]) + PathFor(symbols, letters)
    else key
  }

  lemma SplitHeadFits(s: string)
    ensures |Split(s, ',')[0]| <= |s|
  {
  }

  /** The status semaphore keeps its raw text; every other value is deserialized. */
  function InflatedValue(host: Host, key: string, text: string): Option<Json> {
    if key == ":" then Some(JStr(text)) else FromString(host, text)
  }

  /** One attribute inflated: the key it lands on, and its value unless the text is malformed JSON. */
  datatype Inflated = Inflated(key: string, value: Option<Json>)

  function Inflations(host: Host, attrs: map<string, string>, symbols: map<string, string>): (r: map<string, Inflated>)
    ensures r.Keys == attrs.Keys
  {
    map k | k in attrs :: Inflated(InflatedKey(k, symbols), InflatedValue(host, k, attrs[k]))
  }

  /** Every value of `flat` comes from an attribute inflated to its key, and every attribute's key is there. */
  ghost predicate Gathers(inflated: map<string, Inflated>, flat: map<string, Json>) {
    && (forall k :: k in inflated ==> inflated[k].key in flat)
    && (forall f :: f in flat ==> exists k :: k in inflated && inflated[k] == Inflated(f, Some(flat[f])))
  }

  /** Inflate every attribute, in whatever order they are visited; None when some value is malformed JSON. */
  method InflateAttributes(host: Host, attrs: map<string, string>, symbols: map<string, string>)
    returns (r: Option<map<string, Json>>)
    ensures r.None? <==> exists k :: k in attrs && Inflations(host, attrs, symbols)[k].value.None?
    ensures r.Some? ==> Gathers(Inflations(host, attrs, symbols), r.value)
  {
    ghost var inflated := Inflations(host, attrs, symbols);
    var flat: map<string, Json> := map[];
    var todo := attrs.Keys;
    while todo != {}
      invariant todo <= attrs.Keys
      invariant forall k :: k in attrs.Keys - todo ==> inflated[k].value.Some? && inflated[k].key in flat
      invariant forall f :: f in flat ==> exists k :: k in inflated && inflated[k] == Inflated(f, Some(flat[f]))
      decreases todo
    {
      var key :| key in todo;
      todo := todo - {key};
      var value := InflatedValue(host, key, attrs[key]);
      if value.None? {
        assert inflated[key].value.None?;
        return None;
      }
      flat := flat[InflatedKey(key, symbols) := value.value];
      assert inflated[key] == Inflated(InflatedKey(key, symbols), value);
    }
    return Some(flat);
  }

  // ── The encoder ────────────────────────────────────────────────────────────

  /** `p` leads to or through `q`. */
  predicate IsPrefix(p: seq<string>, q: seq<string>) {
    |p| <= |q| && q[..|p|] == p
  }

  ghost predicate PrefixFree(paths: set<seq<string>>) {
    forall p, q :: p in paths && q in paths && IsPrefix(p, q) ==> p == q
  }

  /** Injective, 2 or 3 letters a key, paths prefix-free and starting with a non-numeric segment. */
  ghost predicate ValidTable(symbols: map<string, string>) {
    && (forall l :: l in symbols ==> IsLetters(l) && symbols[l] != "" && !IsNumeric(Split(symbols[l], '/')[0]))
    && (forall l, m :: l in symbols && m in symbols && IsPrefix(Split(symbols[l], '/'), Split(symbols[m], '/'))
          ==> l == m)
  }

  /** How many numeric segments a path starts with: its dimensions. */
  function Dimensions(p: seq<string>): (n: nat)
    ensures n <= |p|
    ensures AllNumeric(p[..n])
    ensures n < |p| ==> !IsNumeric(p[n])
  {
    if p == [] || !IsNumeric(p[0]) then 0
    else
      var n := 1 + Dimensions(p[1..]);
      assert p[..n] == [p[0]] + p[1..][..n - 1];
      n
  }

  /** `letters` and the dimensions of `p` spell its attribute key. */
  ghost predicate Spells(symbols: map<string, string>, letters: string, p: seq<string>) {
    letters in symbols && Split(symbols[letters], '/') == p[Dimensions(p)..]
  }

  ghost predicate Spellable(symbols: map<string, string>, p: seq<string>) {
    exists letters :: Spells(symbols, letters, p)
  }

  /** The attribute key of a path: its letters, then its dimensions, comma-separated. */
  ghost function KeyFor(p: seq<string>, symbols: map<string, string>): string
    requires Spellable(symbols, p)
  {
    var letters :| Spells(symbols, letters, p);
    Join([letters] + p[..Dimensions(p)], ',')
  }

  /** A key's parts are its letters and dimensions, and its suffix spells the dimensions as a path. */
  lemma KeyParts(letters: string, dims: seq<string>)
    requires IsLetters(letters) && AllNumeric(dims)
    ensures var key := Join([letters] + dims, ',');
      && Split(key, ',') == [letters] + dims
      && |letters| <= |key|
      && DimensionText(key[|letters|..]) == if dims == [] then "" else Join(dims, '/') + "/"
  {
    var key := Join([letters] + dims, ',');
    assert ',' !in letters by { assert !IsLetter(','); }
    SplitJoin([letters] + dims, ',');
    assert ([letters] + dims)[1..] == dims;
    if dims == [] {
      assert key == letters && key[|letters|..] == "";
    } else {
      var tail := Join(dims, ',');
      assert key == letters + [','] + tail && key[|letters|..][1..] == tail;
      ReplaceJoin(dims, ',', '/');
    }
  }

  /** The keys that are inflated: two or three letters, and numbers after commas. */
  lemma SymbolKeyExactly(key: string)
    ensures IsSymbolKey(key)
            <==> exists letters, dims ::
                   && (|letters| == 2 || |letters| == 3)
                   && (forall c :: c in letters ==> 'a' <= c <= 'z' || 'A' <= c <= 'Z')
                   && (forall d :: d in dims ==> d != "" && forall c :: c in d ==> '0' <= c <= '9')
                   && key == Join([letters] + dims, ',')
  {
    var parts := Split(key, ',');
    JoinSplit(key, ',');
    assert parts == [parts[0]] + parts[1..];
    if letters, dims :|
      && (|letters| == 2 || |letters| == 3)
      && (forall c :: c in letters ==> 'a' <= c <= 'z' || 'A' <= c <= 'Z')
      && (forall d :: d in dims ==> d != "" && forall c :: c in d ==> '0' <= c <= '9')
      && key == Join([letters] + dims, ',')
    {
      assert IsLetters(letters) && AllNumeric(dims);
      KeyParts(letters, dims);
      assert ([letters] + dims)[1..] == dims;
    }
  }

  /** With any symbol table, dimensions come first, then the symbol's path, or the letters if they have none. */
  lemma InflatedKeyExactly(symbols: map<string, string>, letters: string, dims: seq<string>)
    requires IsLetters(letters) && AllNumeric(dims)
    ensures var path := if letters in symbols && symbols[letters] != "" then symbols[letters] else letters;
      InflatedKey(Join([letters] + dims, ','), symbols) == Join(dims + [path], '/')
  {
    hide DimensionText, Join;
    KeyParts(letters, dims);
    assert ([letters] + dims)[1..] == dims;
    JoinInFront(dims, [PathFor(symbols, letters)]);
    JoinOne(PathFor(symbols, letters));
    NotSemaphore(letters, dims);
  }

  lemma JoinOne(part: string)
    ensures Join([part], '/') == part
  {
  }

  lemma NotSemaphore(letters: string, dims: seq<string>)
    requires IsLetters(letters) && AllNumeric(dims)
    ensures Join([letters] + dims, ',') != ":"
  {
    KeyParts(letters, dims);
  }

  /** Any other key stays as it is; and the status semaphore's text is not read at all. */
  lemma OtherKeysKept(host: Host, key: string, text: string, symbols: map<string, string>)
    ensures key == ":" || !IsSymbolKey(key) ==> InflatedKey(key, symbols) == key
    ensures InflatedValue(host, ":", text) == Some(JStr(text))
    ensures key != ":" ==> InflatedValue(host, key, text) == FromString(host, text)
  {
  }

  /** Inflating a key puts its dimensions in front of the path its letters stand for. */
  lemma DimensionsInFront(symbols: map<string, string>, letters: string, dims: seq<string>)
    requires ValidTable(symbols) && letters in symbols && AllNumeric(dims)
    ensures Join([letters] + dims, ',') != ":"
    ensures InflatedKey(Join([letters] + dims, ','), symbols)
         == (if dims == [] then "" else Join(dims, '/') + "/") + symbols[letters]
  {
    KeyParts(letters, dims);
    assert ([letters] + dims)[1..] == dims;
  }

  /** Inflating a key gives back the path it spells. */
  lemma KeyInflates(symbols: map<string, string>, letters: string, p: seq<string>)
    requires ValidTable(symbols) && Spells(symbols, letters, p)
    ensures Join([letters] + p[..Dimensions(p)], ',') != ":"
    ensures InflatedKey(Join([letters] + p[..Dimensions(p)], ','), symbols) == Join(p, '/')
  {
    hide ValidTable, InflatedKey, Join, Split;
    var dims, rest := p[..Dimensions(p)], p[Dimensions(p)..];
    DimensionsInFront(symbols, letters, dims);
    JoinSplit(symbols[letters], '/');
    JoinInFront(dims, rest);
    assert p == dims + rest;
  }

  lemma JoinInFront(dims: seq<string>, rest: seq<string>)
    requires rest != []
    ensures Join(dims + rest, '/') == (if dims == [] then "" else Join(dims, '/') + "/") + Join(rest, '/')
  {
    if dims != [] {
      JoinAppend(dims, rest, '/');
    } else {
      assert dims + rest == rest;
    }
  }

  ghost function KeysOf(paths: set<seq<string>>, symbols: map<string, string>): (keyOf: map<seq<string>, string>)
    requires forall p :: p in paths ==> Spellable(symbols, p)
    ensures keyOf.Keys == paths
  {
    map p | p in paths :: KeyFor(p, symbols)
  }

  ghost function StoredUnder(host: Host, leaves: map<seq<string>, Json>, keyOf: map<seq<string>, string>)
    : (attrs: map<string, string>)
    requires keyOf.Keys == leaves.Keys && forall p, q :: p in keyOf && q in keyOf && keyOf[p] == keyOf[q] ==> p == q
    ensures attrs.Keys == keyOf.Values
    ensures forall p :: p in leaves ==> attrs[keyOf[p]] == ToStored(host, leaves[p])
  {
    map p | p in leaves :: keyOf[p] := ToStored(host, leaves[p])
  }

  /** The stored attributes of a job's values. */
  ghost function Encode(host: Host, leaves: map<seq<string>, Json>, symbols: map<string, string>)
    : (attrs: map<string, string>)
    requires ValidTable(symbols) && forall p :: p in leaves ==> Spellable(symbols, p)
    ensures attrs.Keys == KeysOf(leaves.Keys, symbols).Values
    ensures forall p :: p in leaves
              ==> KeyFor(p, symbols) in attrs && attrs[KeyFor(p, symbols)] == ToStored(host, leaves[p])
  {
    KeysDistinct(leaves.Keys, symbols);
    StoredUnder(host, leaves, KeysOf(leaves.Keys, symbols))
  }

  lemma KeyForInflates(p: seq<string>, symbols: map<string, string>)
    requires ValidTable(symbols) && Spellable(symbols, p)
    ensures KeyFor(p, symbols) != ":"
    ensures InflatedKey(KeyFor(p, symbols), symbols) == Join(p, '/')
    ensures Split(Join(p, '/'), '/') == p
  {
    var letters :| Spells(symbols, letters, p) && KeyFor(p, symbols) == Join([letters] + p[..Dimensions(p)], ',');
    KeyInflates(symbols, letters, p);
    SplitPartsFree(symbols[letters], '/');
    assert p == p[..Dimensions(p)] + p[Dimensions(p)..];
    assert forall s :: s in p[..Dimensions(p)] ==> '/' !in s;
    SplitJoin(p, '/');
  }

  /** Distinct paths get distinct keys. */
  lemma KeysDistinct(paths: set<seq<string>>, symbols: map<string, string>)
    requires ValidTable(symbols) && forall p :: p in paths ==> Spellable(symbols, p)
    ensures var keyOf := KeysOf(paths, symbols);
      forall p, q :: p in keyOf && q in keyOf && keyOf[p] == keyOf[q] ==> p == q
  {
    forall p, q | p in paths && q in paths && KeyFor(p, symbols) == KeyFor(q, symbols) ensures p == q {
      KeyForInflates(p, symbols);
      KeyForInflates(q, symbols);
    }
  }

  /** The dimensions keep spellable paths prefix-free. */
  lemma SpellablePrefixFree(p: seq<string>, q: seq<string>, symbols: map<string, string>)
    requires ValidTable(symbols) && Spellable(symbols, p) && Spellable(symbols, q) && IsPrefix(p, q)
    ensures p == q
  {
    var l :| Spells(symbols, l, p);
    var m :| Spells(symbols, m, q);
    var i, j := Dimensions(p), Dimensions(q);
    assert p[i] == q[i] && p[i..][0] == p[i];
    assert i == j;
    assert p[i..] == q[i..][..|p| - i];
    assert IsPrefix(Split(symbols[l], '/'), Split(symbols[m], '/'));
    assert p == p[..i] + p[i..] && q == q[..i] + q[i..];
  }

  // ── Inflation undoes encoding ──────────────────────────────────────────────

  /** The values a flat map holds, by path. */
  function LeavesOf(flat: map<string, Json>): map<seq<string>, Json> {
    SplitKeysInjective(flat.Keys);
    map k | k in flat :: Split(k, '/') := flat[k]
  }

  lemma SplitKeysInjective(keys: set<string>)
    ensures forall k, m :: k in keys && m in keys && Split(k, '/') == Split(m, '/') ==> k == m
  {
    forall k, m | k in keys && m in keys && Split(k, '/') == Split(m, '/') ensures k == m {
      SplitInjective(k, m, '/');
    }
  }

  /** A job the table can spell, holding storable values only. */
  ghost predicate ValidJob(host: Host, leaves: map<seq<string>, Json>, symbols: map<string, string>) {
    forall p :: p in leaves ==> Spellable(symbols, p) && Storable(host, leaves[p])
  }

  /** Each value's attribute inflates to its path and the value itself. */
  lemma AttributeInflates(host: Host, leaves: map<seq<string>, Json>, symbols: map<string, string>, p: seq<string>)
    requires LiteralsSpelledOut(host) && ValidTable(symbols) && ValidJob(host, leaves, symbols) && p in leaves
    ensures KeyFor(p, symbols) in Encode(host, leaves, symbols)
    ensures Inflations(host, Encode(host, leaves, symbols), symbols)[KeyFor(p, symbols)]
         == Inflated(Join(p, '/'), Some(leaves[p]))
  {
    KeysDistinct(leaves.Keys, symbols);
    KeyForInflates(p, symbols);
    StoredValueRoundTrip(host, leaves[p]);
  }

  /** What an encoding inflates to, with the work on text put aside. */
  ghost predicate Inverts(leaves: map<seq<string>, Json>, keyOf: map<seq<string>, string>,
                          inflated: map<string, Inflated>) {
    && keyOf.Keys == leaves.Keys && inflated.Keys == keyOf.Values
    && (forall p :: p in leaves ==> inflated[keyOf[p]] == Inflated(Join(p, '/'), Some(leaves[p])))
  }

  lemma EncodingInverts(host: Host, leaves: map<seq<string>, Json>, symbols: map<string, string>)
    returns (keyOf: map<seq<string>, string>)
    requires LiteralsSpelledOut(host) && ValidTable(symbols) && ValidJob(host, leaves, symbols)
    ensures Inverts(leaves, keyOf, Inflations(host, Encode(host, leaves, symbols), symbols))
  {
    keyOf := KeysOf(leaves.Keys, symbols);
    forall p | p in leaves
      ensures Inflations(host, Encode(host, leaves, symbols), symbols)[keyOf[p]]
          == Inflated(Join(p, '/'), Some(leaves[p]))
    {
      AttributeInflates(host, leaves, symbols, p);
    }
  }

  /** No path of a job leads to or through another, and each survives being written as text. */
  lemma JobPaths(host: Host, leaves: map<seq<string>, Json>, symbols: map<string, string>)
    requires ValidTable(symbols) && ValidJob(host, leaves, symbols)
    ensures PrefixFree(leaves.Keys)
    ensures forall p :: p in leaves ==> Split(Join(p, '/'), '/') == p
  {
    forall p, q | p in leaves && q in leaves && IsPrefix(p, q) ensures p == q {
      SpellablePrefixFree(p, q, symbols);
    }
    forall p | p in leaves ensures Split(Join(p, '/'), '/') == p {
      KeyForInflates(p, symbols);
    }
  }

  /** Inflating an encoding never fails, and yields exactly the job's values at their paths. */
  lemma InflationUndoesEncoding(host: Host, leaves: map<seq<string>, Json>, symbols: map<string, string>)
    requires LiteralsSpelledOut(host) && ValidTable(symbols) && ValidJob(host, leaves, symbols)
    ensures PrefixFree(leaves.Keys)
    ensures var inflated := Inflations(host, Encode(host, leaves, symbols), symbols);
      && (forall k :: k in inflated ==> inflated[k].value.Some?)
      && (forall flat :: Gathers(inflated, flat) ==> LeavesOf(flat) == leaves)
  {
    JobPaths(host, leaves, symbols);
    var keyOf := EncodingInverts(host, leaves, symbols);
    GatheredLeaves(leaves, keyOf, Inflations(host, Encode(host, leaves, symbols), symbols));
  }

  lemma GatheredLeaves(leaves: map<seq<string>, Json>, keyOf: map<seq<string>, string>, inflated: map<string, Inflated>)
    requires Inverts(leaves, keyOf, inflated)
    requires forall p :: p in leaves ==> Split(Join(p, '/'), '/') == p
    ensures forall k :: k in inflated ==> inflated[k].value.Some?
    ensures forall flat :: Gathers(inflated, flat) ==> LeavesOf(flat) == leaves
  {
  }
}
