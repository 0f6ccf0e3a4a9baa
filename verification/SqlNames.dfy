/** Quoted identifiers and qualified table names in generated SQL.
  * Models `quote_identifier` and `qualified` of
  * crates/mads-cli/src/database/sql.rs.
  */
module SqlNames {
  import opened Wrappers
  import opened Schema

  const QUOTE: char := '"'

  function DoubleQuotes(s: string): string {
    if s == "" then ""
    else (if s[0] == QUOTE then [QUOTE, QUOTE] else [s[0]]) + DoubleQuotes(s[1..])
  }

  function QuoteIdentifier(identifier: string): string {
    [QUOTE] + DoubleQuotes(identifier) + [QUOTE]
  }

  function Qualified(name: TableName): string {
    QuoteIdentifier(name.schema) + "." + QuoteIdentifier(name.table)
  }

  // ----- reading names back, as SQL does -----

  datatype Scanned = Scanned(identifier: string, rest: string)

  /** Reads up to the first quote that is not doubled. */
  function ScanBody(text: string): Option<Scanned> {
    if text == "" then None
    else if text[0] != QUOTE then
      var tail := ScanBody(text[1..]);
      if tail.None? then None else Some(Scanned([text[0]] + tail.value.identifier, tail.value.rest))
    else if |text| > 1 && text[1] == QUOTE then
      var tail := ScanBody(text[2..]);
      if tail.None? then None else Some(Scanned([QUOTE] + tail.value.identifier, tail.value.rest))
    else Some(Scanned("", text[1..]))
  }

  function ScanIdentifier(text: string): Option<Scanned> {
    if text == "" || text[0] != QUOTE then None else ScanBody(text[1..])
  }

  function ScanQualified(text: string): Option<TableName> {
    var schema := ScanIdentifier(text);
    if schema.None? || schema.value.rest == "" || schema.value.rest[0] != '.' then None
    else
      var table := ScanIdentifier(schema.value.rest[1..]);
      if table.None? || table.value.rest != "" then None
      else Some(TableName(schema.value.identifier, table.value.identifier))
  }

  lemma {:induction false} ScanBodyReads(s: string, rest: string)
    requires rest == "" || rest[0] != QUOTE
    ensures ScanBody(DoubleQuotes(s) + [QUOTE] + rest) == Some(Scanned(s, rest))
  {
    var text := DoubleQuotes(s) + [QUOTE] + rest;
    if s == "" {
      assert text == [QUOTE] + rest;
    } else {
      ScanBodyReads(s[1..], rest);
      var tail := DoubleQuotes(s[1..]) + [QUOTE] + rest;
      if s[0] == QUOTE {
        assert text == [QUOTE, QUOTE] + tail;
        assert text[2..] == tail;
      } else {
        assert text == [s[0]] + tail;
        assert text[1..] == tail;
      }
      assert s == [s[0]] + s[1..];
    }
  }

  lemma ScanIdentifierReads(s: string, rest: string)
    requires rest == "" || rest[0] != QUOTE
    ensures ScanIdentifier(QuoteIdentifier(s) + rest) == Some(Scanned(s, rest))
  {
    ScanBodyReads(s, rest);
    assert (QuoteIdentifier(s) + rest)[1..] == DoubleQuotes(s) + [QUOTE] + rest;
  }

  /** Whatever quotes and dots a name contains, its text reads back as that name. */
  lemma QualifiedReadsBack(name: TableName)
    ensures ScanQualified(Qualified(name)) == Some(name)
  {
    var rest := "." + QuoteIdentifier(name.table);
    assert Qualified(name) == QuoteIdentifier(name.schema) + rest;
    ScanIdentifierReads(name.schema, rest);
    assert rest[1..] == QuoteIdentifier(name.table) + "";
    ScanIdentifierReads(name.table, "");
  }

  lemma QualifiedIsInjective(a: TableName, b: TableName)
    requires Qualified(a) == Qualified(b)
    ensures a == b
  {
    QualifiedReadsBack(a);
    QualifiedReadsBack(b);
  }

  lemma {:induction false} ScanBodyIsDoubled(text: string)
    requires ScanBody(text).Some?
    ensures var scanned := ScanBody(text).value;
            text == DoubleQuotes(scanned.identifier) + [QUOTE] + scanned.rest
  {
    if text[0] != QUOTE {
      ScanBodyIsDoubled(text[1..]);
      var id := ScanBody(text[1..]).value.identifier;
      assert ([text[0]] + id)[1..] == id;
      assert text == [text[0]] + text[1..];
    } else if |text| > 1 && text[1] == QUOTE {
      ScanBodyIsDoubled(text[2..]);
      var id := ScanBody(text[2..]).value.identifier;
      assert ([QUOTE] + id)[1..] == id;
      assert text == [QUOTE, QUOTE] + text[2..];
    } else {
      assert text == [QUOTE] + text[1..];
    }
  }

  lemma ScanIdentifierIsQuoted(text: string)
    requires ScanIdentifier(text).Some?
    ensures text == QuoteIdentifier(ScanIdentifier(text).value.identifier) + ScanIdentifier(text).value.rest
  {
    ScanBodyIsDoubled(text[1..]);
    assert text == [text[0]] + text[1..];
  }

  /** The only text that reads as a name is the one printed for it. */
  lemma ReadsOnlyQualified(text: string)
    requires ScanQualified(text).Some?
    ensures text == Qualified(ScanQualified(text).value)
  {
    ScanIdentifierIsQuoted(text);
    var schema := ScanIdentifier(text).value;
    assert schema.rest == "." + schema.rest[1..];
    ScanIdentifierIsQuoted(schema.rest[1..]);
  }

  lemma {:induction false} NothingToDouble(s: string)
    requires '\"' !in s
    ensures DoubleQuotes(s) == s
  {
    if s != "" {
      NothingToDouble(s[1..]);
      assert s == [s[0]] + s[1..];
    }
  }

  /** A name without double quotes is printed between double quotes as it stands. */
  lemma PlainNamesAreQuoted(name: TableName)
    requires '\"' !in name.schema && '\"' !in name.table
    ensures Qualified(name) == "\"" + name.schema + "\".\"" + name.table + "\""
  {
    NothingToDouble(name.schema);
    NothingToDouble(name.table);
  }
}
