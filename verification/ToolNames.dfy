/**
 Canonical tool and server names (modules/utils.ts) and the activity type that
 joins them (parsed back in services/yaml-workflow/pipeline/extract-helpers.ts).
 */
module ToolNames {
  import opened Basics
  import opened Text

  predicate IsDigit(c: char) {
    '0' <= c <= '9'
  }

  predicate IsWordChar(c: char) {
    'a' <= c <= 'z' || IsDigit(c)
  }

  /** Lowercasing, as far as it matters: it leaves lowercase letters, digits and underscores alone. */
  ghost predicate Lowercases(lower: string -> string) {
    forall s :: (forall c :: c in s ==> IsWordChar(c) || c == '_') ==> lower(s) == s
  }

  /** Every run of other characters becomes one underscore. `inRun` says the character before was one of those. */
  function Collapse(s: string, inRun: bool): string {
    if s == "" then ""
    else if IsWordChar(s[0]) then [s[0]] + Collapse(s[1..], false)
    else if inRun then Collapse(s[1..], true)
    else "_" + Collapse(s[1..], true)
  }

  /** Drop one underscore at the start and one at the end. */
  function Trim(s: string): string {
    var t := if s != "" && s[0] == '_' then s[1..] else s;
    if t != "" && t[|t| - 1] == '_' then t[..|t| - 1] else t
  }

  function SanitizeToolName(lower: string -> string, value: string): string {
    Trim(Collapse(lower(value), false))
  }

  function KeepWordChars(s: string): string {
    if s == "" then "" else (if IsWordChar(s[0]) then [s[0]] else "") + KeepWordChars(s[1..])
  }

  function DropDigits(s: string): string {
    if s != "" && IsDigit(s[0]) then DropDigits(s[1..]) else s
  }

  function SanitizeServerName(lower: string -> string, value: string): string {
    DropDigits(KeepWordChars(lower(value)))
  }

  // ── The languages ──────────────────────────────────────────────────────────

  /** Word characters and single underscores, none at either end: words joined by single underscores. */
  ghost predicate IsToolName(s: string) {
    && (forall i :: 0 <= i < |s| ==> IsWordChar(s[i]) || s[i] == '_')
    && (forall i :: 0 <= i < |s| - 1 ==> !(s[i] == '_' && s[i + 1] == '_'))
    && (s != "" ==> s[0] != '_' && s[|s| - 1] != '_')
  }

  /** Empty, or a letter followed by letters and digits. */
  ghost predicate IsServerName(s: string) {
    && (forall i :: 0 <= i < |s| ==> IsWordChar(s[i]))
    && (s != "" ==> !IsDigit(s[0]))
  }

  /** Word characters and single underscores. */
  ghost predicate Collapsed(s: string) {
    && (forall i :: 0 <= i < |s| ==> IsWordChar(s[i]) || s[i] == '_')
    && (forall i :: 0 <= i < |s| - 1 ==> !(s[i] == '_' && s[i + 1] == '_'))
  }

  lemma {:induction false} CollapseCollapses(s: string, inRun: bool)
    ensures Collapsed(Collapse(s, inRun))
    ensures inRun && Collapse(s, inRun) != "" ==> Collapse(s, inRun)[0] != '_'
  {
    if s != "" {
      CollapseCollapses(s[1..], !IsWordChar(s[0]));
    }
  }

  /** Collapsing leaves a collapsed string alone. */
  lemma {:induction false} CollapseFixes(s: string, inRun: bool)
    requires Collapsed(s) && (inRun && s != "" ==> s[0] != '_')
    ensures Collapse(s, inRun) == s
  {
    if s != "" {
      assert s == [s[0]] + s[1..];
      forall i | 0 <= i < |s[1..]| - 1 ensures !(s[1..][i] == '_' && s[1..][i + 1] == '_') {
        assert s[1..][i] == s[i + 1] && s[1..][i + 1] == s[i + 2];
        assert !(s[i + 1] == '_' && s[(i + 1) + 1] == '_');
      }
      assert |s| > 1 ==> !(s[0] == '_' && s[0 + 1] == '_');
      CollapseFixes(s[1..], !IsWordChar(s[0]));
    }
  }

  lemma ToolNameChars(s: string)
    requires IsToolName(s) || IsServerName(s)
    ensures forall c :: c in s ==> IsWordChar(c) || c == '_'
  {
  }

  lemma TrimGivesToolName(s: string)
    requires Collapsed(s)
    ensures IsToolName(Trim(s))
  {
    var t := if s != "" && s[0] == '_' then s[1..] else s;
    assert |s| > 1 ==> !(s[0] == '_' && s[0 + 1] == '_');
    forall i | 0 <= i < |t| - 1 ensures !(t[i] == '_' && t[i + 1] == '_') {
      var d := |s| - |t|;
      assert t[i] == s[i + d] && t[i + 1] == s[i + d + 1];
    }
    assert |t| > 1 ==> !(t[|t| - 2] == '_' && t[|t| - 2 + 1] == '_');
  }

  /** The tool sanitizer lands in its language, and leaves the names of that language alone; so it is idempotent. */
  lemma ToolNameCanonical(lower: string -> string, value: string)
    requires Lowercases(lower)
    ensures IsToolName(SanitizeToolName(lower, value))
    ensures IsToolName(value) ==> SanitizeToolName(lower, value) == value
    ensures SanitizeToolName(lower, SanitizeToolName(lower, value)) == SanitizeToolName(lower, value)
  {
    CollapseCollapses(lower(value), false);
    TrimGivesToolName(Collapse(lower(value), false));
    ToolNameFixed(lower, SanitizeToolName(lower, value));
    if IsToolName(value) {
      ToolNameFixed(lower, value);
    }
  }

  lemma ToolNameFixed(lower: string -> string, name: string)
    requires Lowercases(lower) && IsToolName(name)
    ensures SanitizeToolName(lower, name) == name
  {
    ToolNameChars(name);
    CollapseFixes(name, false);
  }

  lemma {:induction false} KeepKeeps(s: string)
    ensures forall i :: 0 <= i < |KeepWordChars(s)| ==> IsWordChar(KeepWordChars(s)[i])
    ensures (forall i :: 0 <= i < |s| ==> IsWordChar(s[i])) ==> KeepWordChars(s) == s
  {
    if s != "" {
      KeepKeeps(s[1..]);
      assert s == [s[0]] + s[1..];
    }
  }

  lemma {:induction false} DropDrops(s: string)
    requires forall i :: 0 <= i < |s| ==> IsWordChar(s[i])
    ensures IsServerName(DropDigits(s))
  {
    if s != "" && IsDigit(s[0]) {
      DropDrops(s[1..]);
    }
  }

  /** The server sanitizer likewise. */
  lemma ServerNameCanonical(lower: string -> string, value: string)
    requires Lowercases(lower)
    ensures IsServerName(SanitizeServerName(lower, value))
    ensures IsServerName(value) ==> SanitizeServerName(lower, value) == value
    ensures SanitizeServerName(lower, SanitizeServerName(lower, value)) == SanitizeServerName(lower, value)
  {
    KeepKeeps(lower(value));
    DropDrops(KeepWordChars(lower(value)));
    ServerNameFixed(lower, SanitizeServerName(lower, value));
    if IsServerName(value) {
      ServerNameFixed(lower, value);
    }
  }

  lemma ServerNameFixed(lower: string -> string, name: string)
    requires Lowercases(lower) && IsServerName(name)
    ensures SanitizeServerName(lower, name) == name
  {
    ToolNameChars(name);
    KeepKeeps(name);
  }

  // ── What a name becomes ────────────────────────────────────────────────────

  /** The word characters are the digits and the lowercase letters. */
  lemma WordCharsExactly(c: char)
    ensures IsDigit(c) <==> c in "0123456789"
    ensures IsWordChar(c) <==> IsDigit(c) || 0 <= c as int - 'a' as int < 26
  {
    var digits := "0123456789";
    if IsDigit(c) {
      assert digits[c as int - '0' as int] == c;
    }
  }

  /** How many word characters a string starts with. */
  function RunLength(s: string): (n: nat)
    ensures n <= |s| && (forall i :: 0 <= i < n ==> IsWordChar(s[i])) && (n < |s| ==> !IsWordChar(s[n]))
  {
    if s == "" || !IsWordChar(s[0]) then 0 else 1 + RunLength(s[1..])
  }

  /** The runs of word characters in a string, in order. */
  function Words(s: string): (words: seq<string>)
    decreases |s|
  {
    if s == "" then []
    else if !IsWordChar(s[0]) then Words(s[1..])
    else [s[..RunLength(s)]] + Words(s[RunLength(s)..])
  }

  ghost predicate AllWords(words: seq<string>) {
    forall i :: 0 <= i < |words| ==> words[i] != "" && forall j :: 0 <= j < |words[i]| ==> IsWordChar(words[i][j])
  }

  lemma {:induction false} WordsAreWords(s: string)
    ensures AllWords(Words(s))
    ensures Words(s) == [] <==> forall i :: 0 <= i < |s| ==> !IsWordChar(s[i])
    decreases |s|
  {
    if s != "" {
      WordsAreWords(s[if IsWordChar(s[0]) then RunLength(s) else 1..]);
      if !IsWordChar(s[0]) {
        assert forall i :: 0 < i < |s| ==> s[i] == s[1..][i - 1];
      }
    }
  }

  lemma {:induction false} CollapseRun(s: string, n: nat, inRun: bool)
    requires 0 < n <= |s| && forall i :: 0 <= i < n ==> IsWordChar(s[i])
    ensures Collapse(s, inRun) == s[..n] + Collapse(s[n..], false)
    decreases n
  {
    if n > 1 {
      CollapseRun(s[1..], n - 1, false);
      assert s[1..][n - 1..] == s[n..] && s[..n] == [s[0]] + s[1..][..n - 1];
    }
  }

  /** An underscore where a string starts, or ends, outside a word. */
  function Edge(outside: bool): string {
    if outside then "_" else ""
  }

  /** The words, with an underscore for what is before the first and after the last. */
  function EdgedWords(s: string, inRun: bool): string {
    if Words(s) == [] then Edge(s != "" && !inRun)
    else
      assert s != "";
      Edge(!IsWordChar(s[0]) && !inRun) + Join(Words(s), '_') + Edge(!IsWordChar(s[|s| - 1]))
  }

  /** Collapsing joins the words. */
  lemma {:induction false} CollapseJoinsWords(s: string, inRun: bool)
    ensures Collapse(s, inRun) == EdgedWords(s, inRun)
    decreases |s|
  {
    if s != "" {
      if !IsWordChar(s[0]) {
        CollapseJoinsWords(s[1..], true);
        EdgedAfterGap(s, inRun);
      } else {
        CollapseRun(s, RunLength(s), inRun);
        CollapseJoinsWords(s[RunLength(s)..], false);
        EdgedAfterWord(s, inRun);
      }
    }
  }

  lemma EdgedAfterGap(s: string, inRun: bool)
    requires s != "" && !IsWordChar(s[0])
    ensures EdgedWords(s, inRun) == Edge(!inRun) + EdgedWords(s[1..], true)
  {
    assert Words(s) == Words(s[1..]);
    if Words(s[1..]) != [] {
      assert s[1..][|s| - 2] == s[|s| - 1];
    }
  }

  lemma EdgedAfterWord(s: string, inRun: bool)
    requires s != "" && IsWordChar(s[0])
    ensures EdgedWords(s, inRun) == s[..RunLength(s)] + EdgedWords(s[RunLength(s)..], false)
  {
    hide Join, EdgedWords, Words, RunLength, IsWordChar;
    var n := RunLength(s);
    var word, rest, end := s[..n], s[n..], Edge(!IsWordChar(s[|s| - 1]));
    RunEnds(s);
    EdgedFromWord(s, inRun);
    JoinMoreWords(word, Words(rest));
    EdgedFromGap(rest);
    if rest != "" && Words(rest) != [] {
      Regroup(word, Join(Words(rest), '_'), end);
    } else {
      assert end == EdgedWords(rest, false);
    }
  }

  lemma RunEnds(s: string)
    requires s != "" && IsWordChar(s[0])
    ensures var rest := s[RunLength(s)..];
      if rest == "" then IsWordChar(s[|s| - 1]) else !IsWordChar(rest[0]) && rest[|rest| - 1] == s[|s| - 1]
  {
  }

  lemma EdgedFromWord(s: string, inRun: bool)
    requires s != "" && IsWordChar(s[0])
    ensures EdgedWords(s, inRun)
         == Join([s[..RunLength(s)]] + Words(s[RunLength(s)..]), '_') + Edge(!IsWordChar(s[|s| - 1]))
  {
    hide Join, Words, RunLength;
    WordFirst(s);
    var joined := Join(Words(s), '_');
    assert Edge(false) + joined == joined;
  }

  lemma WordFirst(s: string)
    requires s != "" && IsWordChar(s[0])
    ensures Words(s) == [s[..RunLength(s)]] + Words(s[RunLength(s)..])
  {
  }

  lemma EdgedFromGap(rest: string)
    requires rest == "" || !IsWordChar(rest[0])
    ensures rest == "" ==> Words(rest) == [] && EdgedWords(rest, false) == ""
    ensures rest != "" ==>
      EdgedWords(rest, false)
      == if Words(rest) == [] then "_" else "_" + Join(Words(rest), '_') + Edge(!IsWordChar(rest[|rest| - 1]))
    ensures rest != "" && Words(rest) == [] ==> !IsWordChar(rest[|rest| - 1])
  {
    hide Join;
    WordsAreWords(rest);
  }

  lemma Regroup(word: string, more: string, edge: string)
    ensures word + "_" + more + edge == word + ("_" + more + edge)
  {
  }

  lemma JoinMoreWords(word: string, words: seq<string>)
    ensures Join([word] + words, '_') == if words == [] then word else word + "_" + Join(words, '_')
  {
    assert ([word] + words)[1..] == words;
  }

  lemma {:induction false} JoinEnds(words: seq<string>)
    requires words != [] && AllWords(words)
    ensures var s := Join(words, '_'); s != "" && IsWordChar(s[0]) && IsWordChar(s[|s| - 1])
  {
    if |words| > 1 {
      JoinEnds(words[1..]);
    }
  }

  /** A tool name is the words of the lowercased value, joined by single underscores. */
  lemma ToolNameJoinsWords(lower: string -> string, value: string)
    ensures SanitizeToolName(lower, value) == Join(Words(lower(value)), '_')
  {
    var s := lower(value);
    var words, c := Words(s), Collapse(s, false);
    CollapseJoinsWords(s, false);
    if words != [] {
      WordsAreWords(s);
      JoinEnds(words);
      TrimEdges(!IsWordChar(s[0]), Join(words, '_'), !IsWordChar(s[|s| - 1]));
    }
  }

  lemma TrimEdges(before: bool, s: string, after: bool)
    requires s != "" && s[0] != '_' && s[|s| - 1] != '_'
    ensures Trim(Edge(before) + s + Edge(after)) == s
  {
    var t := Edge(before) + s + Edge(after);
    if before {
      assert t[1..] == s + Edge(after);
    } else {
      assert t == s + Edge(after);
    }
  }

  function Concat(words: seq<string>): string {
    if words == [] then "" else words[0] + Concat(words[1..])
  }

  lemma {:induction false} KeptAreWords(s: string)
    ensures KeepWordChars(s) == Concat(Words(s))
    decreases |s|
  {
    if s != "" {
      if IsWordChar(s[0]) {
        var n := RunLength(s);
        KeptRun(s, n);
        KeptAreWords(s[n..]);
      } else {
        KeptAreWords(s[1..]);
      }
    }
  }

  lemma {:induction false} KeptRun(s: string, n: nat)
    requires n <= |s| && forall i :: 0 <= i < n ==> IsWordChar(s[i])
    ensures KeepWordChars(s) == s[..n] + KeepWordChars(s[n..])
    decreases n
  {
    if n > 0 {
      KeptRun(s[1..], n - 1);
      assert s[1..][n - 1..] == s[n..] && s[..n] == [s[0]] + s[1..][..n - 1];
    } else {
      assert s[n..] == s;
    }
  }

  lemma {:induction false} DroppedAreDigits(s: string) returns (digits: string)
    ensures s == digits + DropDigits(s) && forall c :: c in digits ==> IsDigit(c)
  {
    digits := "";
    if s != "" && IsDigit(s[0]) {
      var rest := DroppedAreDigits(s[1..]);
      digits := [s[0]] + rest;
    }
  }

  /** A server name is the words of the lowercased value run together, from the first letter on. */
  lemma ServerNameRunsTogether(lower: string -> string, value: string) returns (digits: string)
    ensures Concat(Words(lower(value))) == digits + SanitizeServerName(lower, value)
    ensures forall c :: c in digits ==> IsDigit(c)
  {
    KeptAreWords(lower(value));
    digits := DroppedAreDigits(KeepWordChars(lower(value)));
  }

  // ── Activity types ─────────────────────────────────────────────────────────

  function ActivityType(server: string, tool: string): string {
    "mcp_" + server + "_" + tool
  }

  /** Where the first underscore is, or the length when there is none. */
  function FirstUnderscore(s: string): (i: nat)
    ensures i <= |s| && '_' !in s[..i] && (i < |s| ==> s[i] == '_')
  {
    if s == "" || s[0] == '_' then 0
    else
      var i := 1 + FirstUnderscore(s[1..]);
      assert s[..i] == [s[0]] + s[1..][..i - 1];
      i
  }

  /** Split after the prefix at the first underscore; without one, both names are the whole rest. */
  function ParseActivityType(activityType: string): (string, string) {
    var rest := activityType[Min(4, |activityType|)..];
    var i := FirstUnderscore(rest);
    if i == |rest| then (rest, rest) else (rest[..i], rest[i + 1..])
  }

  /** Parsing gives the pair back for every tool name exactly when the server name has no underscore. */
  lemma ActivityTypeParses(server: string, tool: string)
    ensures ParseActivityType(ActivityType(server, tool)) == (server, tool) <==> '_' !in server
  {
    var rest := server + "_" + tool;
    assert ActivityType(server, tool)[4..] == rest;
    var i := FirstUnderscore(rest);
    assert rest[|server|] == '_';
    if '_' !in server {
      assert i == |server|;
      assert rest[..i] == server && rest[i + 1..] == tool;
    }
  }

  /** So sanitized names are spelled apart, and read back. */
  lemma SanitizedNamesReadBack(lower: string -> string, server: string, tool: string)
    requires Lowercases(lower)
    ensures var s, t := SanitizeServerName(lower, server), SanitizeToolName(lower, tool);
      ParseActivityType(ActivityType(s, t)) == (s, t)
  {
    ServerNameCanonical(lower, server);
    ActivityTypeParses(SanitizeServerName(lower, server), SanitizeToolName(lower, tool));
  }

  lemma SanitizedTypesInjective(lower: string -> string, s1: string, t1: string, s2: string, t2: string)
    requires Lowercases(lower)
    requires ActivityType(SanitizeServerName(lower, s1), SanitizeToolName(lower, t1))
          == ActivityType(SanitizeServerName(lower, s2), SanitizeToolName(lower, t2))
    ensures SanitizeServerName(lower, s1) == SanitizeServerName(lower, s2)
    ensures SanitizeToolName(lower, t1) == SanitizeToolName(lower, t2)
  {
    SanitizedNamesReadBack(lower, s1, t1);
    SanitizedNamesReadBack(lower, s2, t2);
  }
}
