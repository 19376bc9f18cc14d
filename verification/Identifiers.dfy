/**
 Quoting a schema name as a delimited identifier (services/hotmesh-utils.ts,
 quoteSchema), against a reader of delimited identifiers as section 5.2 of
 ISO/IEC 9075-2 lays them out: a double quote, characters with every double
 quote doubled, and a double quote that is not doubled.
 */
module Identifiers {
  import opened Basics

  function DoubleQuotes(s: string): string {
    if s == "" then ""
    else if s[0] == '"' then "\"\"" + DoubleQuotes(s[1..])
    else [s[0]] + DoubleQuotes(s[1..])
  }

  function QuoteSchema(schema: string): string {
    "\"" + DoubleQuotes(schema) + "\""
  }

  /** What a scan reads: the identifier's content, and the text left after it. */
  datatype Scanned = Scanned(content: string, rest: string)

  /** Read from just after the opening quote to the closing one; None when it never comes. */
  function ScanBody(text: string): Option<Scanned> {
    if text == "" then None
    else if text[0] != '"' then Prepend(text[0], ScanBody(text[1..]))
    else if |text| >= 2 && text[1] == '"' then Prepend('"', ScanBody(text[2..]))
    else Some(Scanned("", text[1..]))
  }

  function Prepend(c: char, r: Option<Scanned>): Option<Scanned> {
    match r
    case None => None
    case Some(Scanned(content, rest)) => Some(Scanned([c] + content, rest))
  }

  /** Read one delimited identifier. */
  function Scan(text: string): Option<Scanned> {
    if text == "" || text[0] != '"' then None else ScanBody(text[1..])
  }

  /** A character, doubled if it is a double quote, is read as itself. */
  lemma ScanStep(c: char, tail: string)
    ensures DoubleQuotes([c]) == if c == '"' then "\"\"" else [c]
    ensures ScanBody(DoubleQuotes([c]) + tail) == Prepend(c, ScanBody(tail))
  {
    assert [c][1..] == "";
    var text := DoubleQuotes([c]) + tail;
    assert text[|DoubleQuotes([c])|..] == tail;
  }

  lemma {:induction false} BodyReadsBack(s: string, rest: string)
    ensures rest == "" || rest[0] != '"' ==> ScanBody(DoubleQuotes(s) + "\"" + rest) == Some(Scanned(s, rest))
    ensures rest != "" && rest[0] == '"' ==> ScanBody(DoubleQuotes(s) + "\"" + rest) != Some(Scanned(s, rest))
  {
    var text := DoubleQuotes(s) + "\"" + rest;
    if s == "" {
      assert text == "\"" + rest;
      if rest != "" && rest[0] == '"' && ScanBody(text[2..]).Some? {
        assert ScanBody(text).value.content != "";
      }
    } else {
      BodyReadsBack(s[1..], rest);
      var tail := DoubleQuotes(s[1..]) + "\"" + rest;
      assert s == [s[0]] + s[1..];
      ScanStep(s[0], tail);
      assert text == DoubleQuotes([s[0]]) + tail;
      if ScanBody(tail).Some? && ScanBody(text) == Some(Scanned(s, rest)) {
        assert ([s[0]] + ScanBody(tail).value.content)[1..] == s[1..];
      }
    }
  }

  /**
   In any surrounding text, the quoted name reads back as the name, ending at
   its own last quote, exactly when the next character is not a double quote.
   */
  lemma QuotedNameReadsBack(schema: string, rest: string)
    ensures Scan(QuoteSchema(schema) + rest) == Some(Scanned(schema, rest)) <==> rest == "" || rest[0] != '"'
  {
    BodyReadsBack(schema, rest);
    var text := QuoteSchema(schema) + rest;
    assert text[1..] == DoubleQuotes(schema) + "\"" + rest;
  }
}
