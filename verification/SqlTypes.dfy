/** PostgreSQL types: printed in SQL and parsed from the catalog.
  * Models `PgType::to_sql` of crates/mads-cli/src/database/sql.rs and
  * `parse_catalog_type`, `temporal_type` and `type_length` of
  * crates/mads-cli/src/database/catalog.rs.
  */
module SqlTypes {
  import opened Wrappers
  import opened Decimals
  import opened Schema

  // ----- decimal numbers -----

  /** `str::parse::<u32>`: an optional plus sign, then digits that fit. */
  function ParseU32(s: string): Option<u32> {
    var digits := if s != "" && s[0] == '+' then s[1..] else s;
    if digits == "" || !AllDigits(digits) || Value(digits) >= 0x1_0000_0000 then None else Some(Value(digits))
  }

  lemma ParseOfDecimal(n: u32)
    ensures ParseU32(Decimal(n)) == Some(n)
  {
    ValueOfDecimal(n);
    assert Decimal(n)[0] in Decimal(n);
  }

  // ----- printing -----

  function WithLength(base: string, length: Option<u32>): string {
    if length.None? then base else base + "(" + Decimal(length.value) + ")"
  }

  function ToSql(t: PgType): string {
    match t
    case Bool => "boolean"
    case SmallInt => "smallint"
    case Integer => "integer"
    case BigInt => "bigint"
    case Real => "real"
    case DoublePrecision => "double precision"
    case Numeric => "numeric"
    case Text => "text"
    case VarChar(length) => WithLength("varchar", length)
    case Char(length) => WithLength("char", length)
    case Bytea => "bytea"
    case Date => "date"
    case Time => "time"
    case Timestamp => "timestamp"
    case TimestampWithTimeZone => "timestamp with time zone"
    case Json => "json"
    case Jsonb => "jsonb"
    case Uuid => "uuid"
    case Inet => "inet"
    case Cidr => "cidr"
    case MacAddr => "macaddr"
    case Array(element) => ToSql(element) + "[]"
  }

  /** Which constructor a scalar type has. */
  function Kind(t: PgType): nat {
    match t
    case Bool => 1
    case SmallInt => 2
    case Integer => 3
    case BigInt => 4
    case Real => 5
    case DoublePrecision => 6
    case Numeric => 7
    case Text => 8
    case VarChar(_) => 9
    case Char(_) => 10
    case Bytea => 11
    case Date => 12
    case Time => 13
    case Timestamp => 14
    case TimestampWithTimeZone => 15
    case Json => 16
    case Jsonb => 17
    case Uuid => 18
    case Inet => 19
    case Cidr => 20
    case MacAddr => 21
    case Array(_) => 22
  }

  /** Tells the printed scalar types apart by a few characters. */
  function SqlKind(s: string): nat {
    if |s| < 4 then 0
    else if s[0] == 'b' then (if s[1] == 'o' then 1 else if s[1] == 'i' then 4 else 11)
    else if s[0] == 's' then 2
    else if s[0] == 'i' then (if s[2] == 't' then 3 else 19)
    else if s[0] == 'r' then 5
    else if s[0] == 'd' then (if s[1] == 'o' then 6 else 12)
    else if s[0] == 'n' then 7
    else if s[0] == 't' then (if s[1] == 'e' then 8 else if |s| == 4 then 13 else if |s| == 9 then 14 else 15)
    else if s[0] == 'v' then 9
    else if s[0] == 'c' then (if s[1] == 'h' then 10 else 20)
    else if s[0] == 'j' then (if |s| == 4 then 16 else 17)
    else if s[0] == 'u' then 18
    else 21
  }

  lemma SqlKindIsKind(t: PgType)
    requires !t.Array?
    ensures |ToSql(t)| >= 4 && SqlKind(ToSql(t)) == Kind(t)
  {}

  lemma ScalarHasNoBracket(t: PgType)
    requires !t.Array?
    ensures ToSql(t) != "" && ToSql(t)[|ToSql(t)| - 1] != ']'
  {}

  lemma SqlKindTells(t: PgType)
    requires !t.Array?
    ensures SqlKind(ToSql(t)) == Kind(t)
    ensures |ToSql(t)| >= 4 && ToSql(t)[|ToSql(t)| - 1] != ']'
  {
    SqlKindIsKind(t);
    ScalarHasNoBracket(t);
  }

  lemma WithLengthIsInjective(base: string, a: Option<u32>, b: Option<u32>)
    requires WithLength(base, a) == WithLength(base, b)
    ensures a == b
  {
    if a.Some? && b.Some? {
      var x, y := Decimal(a.value), Decimal(b.value);
      assert WithLength(base, a)[|base| + 1..][..|x|] == x;
      assert WithLength(base, b)[|base| + 1..][..|y|] == y;
      ValueOfDecimal(a.value);
      ValueOfDecimal(b.value);
    }
  }

  lemma SameKind(a: PgType, b: PgType)
    requires Kind(a) == Kind(b) && !a.Array?
    ensures (a.VarChar? && b.VarChar?) || (a.Char? && b.Char?) || a == b
  {}

  lemma ScalarIsInjective(a: PgType, b: PgType)
    requires !a.Array? && !b.Array? && ToSql(a) == ToSql(b)
    ensures a == b
  {
    SqlKindTells(a);
    SqlKindTells(b);
    SameKind(a, b);
    if a.VarChar? { WithLengthIsInjective("varchar", a.length, b.length); }
    if a.Char? { WithLengthIsInjective("char", a.length, b.length); }
  }

  lemma ArrayEnds(element: PgType)
    ensures var s := ToSql(Array(element)); s[|s| - 1] == ']' && s[..|s| - 2] == ToSql(element)
  {}

  /** Different types, arrays nested to any depth, print differently. */
  lemma {:induction false} ToSqlIsInjective(a: PgType, b: PgType)
    requires ToSql(a) == ToSql(b)
    ensures a == b
  {
    if a.Array? {
      ArrayEnds(a.element);
      if b.Array? {
        ArrayEnds(b.element);
        ToSqlIsInjective(a.element, b.element);
      } else {
        SqlKindTells(b);
      }
    } else if b.Array? {
      ArrayEnds(b.element);
      SqlKindTells(a);
    } else {
      ScalarIsInjective(a, b);
    }
  }

  // ----- parsing -----

  function StripPrefix(s: string, prefix: string): Option<string> {
    if prefix <= s then Some(s[|prefix|..]) else None
  }

  function StripSuffix(s: string, suffix: string): Option<string> {
    if |suffix| <= |s| && s[|s| - |suffix|..] == suffix then Some(s[..|s| - |suffix|]) else None
  }

  /** Splits at the first occurrence of a character. */
  function SplitOnce(s: string, c: char): Option<(string, string)> {
    if s == "" then None
    else if s[0] == c then Some(("", s[1..]))
    else
      var tail := SplitOnce(s[1..], c);
      if tail.None? then None else Some(([s[0]] + tail.value.0, tail.value.1))
  }

  function TypeLength(s: string, base: string): Option<Option<u32>> {
    if s == base then Some(None)
    else
      var suffix := StripPrefix(s, base);
      if suffix.None? then None
      else
        var open := StripPrefix(suffix.value, "(");
        if open.None? then None
        else
          var length := StripSuffix(open.value, ")");
          if length.None? then None
          else
            var n := ParseU32(length.value);
            if n.None? then None else Some(Some(n.value))
  }

  predicate TemporalType(s: string, base: string, qualifier: string) {
    var suffix := StripPrefix(s, base);
    if suffix.None? then false
    else if suffix.value == qualifier then true
    else
      var open := StripPrefix(suffix.value, "(");
      if open.None? then false
      else
        var split := SplitOnce(open.value, ')');
        split.Some? && split.value.0 != "" && AllDigits(split.value.0) && split.value.1 == qualifier
  }

  function ParseName(s: string): Option<PgType> {
    if s == "boolean" || s == "bool" then Some(Bool)
    else if s == "smallint" || s == "int2" then Some(SmallInt)
    else if s == "integer" || s == "int4" then Some(Integer)
    else if s == "bigint" || s == "int8" then Some(BigInt)
    else if s == "real" || s == "float4" then Some(Real)
    else if s == "double precision" || s == "float8" then Some(DoublePrecision)
    else if s == "text" then Some(Text)
    else if s == "bytea" then Some(Bytea)
    else if s == "date" then Some(Date)
    else if s == "json" then Some(Json)
    else if s == "jsonb" then Some(Jsonb)
    else if s == "uuid" then Some(Uuid)
    else if s == "inet" then Some(Inet)
    else if s == "cidr" then Some(Cidr)
    else if s == "macaddr" then Some(MacAddr)
    else None
  }

  function ParseScalar(s: string): Option<PgType> {
    var varying := TypeLength(s, "character varying");
    var fixed := TypeLength(s, "character");
    if varying.Some? then Some(VarChar(varying.value))
    else if fixed.Some? then Some(Char(fixed.value))
    else if s == "numeric" || "numeric(" <= s then Some(Numeric)
    else if TemporalType(s, "time", " without time zone") then Some(Time)
    else if TemporalType(s, "timestamp", " without time zone") then Some(Timestamp)
    else if TemporalType(s, "timestamp", " with time zone") then Some(TimestampWithTimeZone)
    else ParseName(s)
  }

  function ParseCatalogType(s: string): Option<PgType> {
    var element := StripSuffix(s, "[]");
    if element.Some? then
      var kind := ParseCatalogType(element.value);
      if kind.None? then None else Some(Array(kind.value))
    else ParseScalar(s)
  }

  // ----- what each catalogue text means -----

  ghost predicate SpellsLength(s: string, base: string, length: Option<u32>) {
    match length
    case None => s == base
    case Some(n) => exists d :: s == base + "(" + d + ")" && ParseU32(d) == Some(n)
  }

  ghost predicate SpellsTemporal(s: string, base: string, qualifier: string) {
    || s == base + qualifier
    || exists d :: d != "" && AllDigits(d) && s == base + "(" + d + ")" + qualifier
  }

  /** `s` is one of the texts for the scalar type `t`. */
  ghost predicate SpellsScalar(s: string, t: PgType) {
    match t
    case Bool => s == "boolean" || s == "bool"
    case SmallInt => s == "smallint" || s == "int2"
    case Integer => s == "integer" || s == "int4"
    case BigInt => s == "bigint" || s == "int8"
    case Real => s == "real" || s == "float4"
    case DoublePrecision => s == "double precision" || s == "float8"
    case Numeric => s == "numeric" || "numeric(" <= s
    case Text => s == "text"
    case VarChar(length) => SpellsLength(s, "character varying", length)
    case Char(length) => SpellsLength(s, "character", length)
    case Bytea => s == "bytea"
    case Date => s == "date"
    case Time => SpellsTemporal(s, "time", " without time zone")
    case Timestamp => SpellsTemporal(s, "timestamp", " without time zone")
    case TimestampWithTimeZone => SpellsTemporal(s, "timestamp", " with time zone")
    case Json => s == "json"
    case Jsonb => s == "jsonb"
    case Uuid => s == "uuid"
    case Inet => s == "inet"
    case Cidr => s == "cidr"
    case MacAddr => s == "macaddr"
    case Array(_) => false
  }

  predicate IsArrayText(s: string) {
    |s| >= 2 && s[|s| - 2..] == "[]"
  }

  /** `s` is a catalogue text for `t`. */
  ghost predicate Spells(s: string, t: PgType) {
    match t
    case Array(element) => IsArrayText(s) && Spells(s[..|s| - 2], element)
    case _ => !IsArrayText(s) && SpellsScalar(s, t)
  }

  lemma TypeLengthReads(s: string, base: string, d: string)
    requires s == base + "(" + d + ")"
    ensures StripPrefix(s, base) == Some("(" + d + ")")
    ensures StripPrefix("(" + d + ")", "(") == Some(d + ")") && StripSuffix(d + ")", ")") == Some(d)
    ensures s != base
  {
    assert |s| > |base|;
    assert s[|base|..] == "(" + d + ")";
    assert ("(" + d + ")")[1..] == d + ")";
  }

  lemma StrippedIs(s: string, base: string)
    ensures StripPrefix(s, base).Some? ==> s == base + StripPrefix(s, base).value
    ensures StripSuffix(s, base).Some? ==> s == StripSuffix(s, base).value + base
  {}

  lemma TypeLengthIsSpelled(s: string, base: string)
    requires TypeLength(s, base).Some?
    ensures SpellsLength(s, base, TypeLength(s, base).value)
  {
    if s != base {
      StrippedIs(s, base);
      var suffix := StripPrefix(s, base).value;
      StrippedIs(suffix, "(");
      var open := StripPrefix(suffix, "(").value;
      StrippedIs(open, ")");
      Reassociate(base, StripSuffix(open, ")").value, "");
    }
  }

  lemma Reassociate(base: string, d: string, rest: string)
    ensures base + ("(" + (d + ")" + rest)) == base + "(" + d + ")" + rest
    ensures base + ("(" + (d + ")")) == base + "(" + d + ")"
  {}

  lemma SpelledLengthIsRead(s: string, base: string, length: Option<u32>)
    requires SpellsLength(s, base, length)
    ensures TypeLength(s, base) == Some(length)
  {
    if length.Some? {
      var d :| s == base + "(" + d + ")" && ParseU32(d) == Some(length.value);
      TypeLengthReads(s, base, d);
    }
  }

  /** `type_length` reads exactly the base name alone or with a length. */
  lemma TypeLengthExactly(s: string, base: string, length: Option<u32>)
    ensures TypeLength(s, base) == Some(length) <==> SpellsLength(s, base, length)
  {
    if TypeLength(s, base).Some? { TypeLengthIsSpelled(s, base); }
    if SpellsLength(s, base, length) { SpelledLengthIsRead(s, base, length); }
  }

  lemma {:induction false} SplitOnceReads(d: string, c: char, rest: string)
    requires c !in d
    ensures SplitOnce(d + [c] + rest, c) == Some((d, rest))
  {
    if d == "" {
      assert d + [c] + rest == [c] + rest;
    } else {
      assert (d + [c] + rest)[1..] == d[1..] + [c] + rest;
      SplitOnceReads(d[1..], c, rest);
      assert d == [d[0]] + d[1..];
    }
  }

  lemma {:induction false} SplitOnceIs(s: string, c: char)
    requires SplitOnce(s, c).Some?
    ensures s == SplitOnce(s, c).value.0 + [c] + SplitOnce(s, c).value.1
  {
    if s[0] != c { SplitOnceIs(s[1..], c); }
    assert s == [s[0]] + s[1..];
  }

  lemma TemporalTypeIsSpelled(s: string, base: string, qualifier: string)
    requires TemporalType(s, base, qualifier)
    ensures SpellsTemporal(s, base, qualifier)
  {
    StrippedIs(s, base);
    var suffix := StripPrefix(s, base).value;
    if suffix != qualifier {
      StrippedIs(suffix, "(");
      var open := StripPrefix(suffix, "(").value;
      SplitOnceIs(open, ')');
      Reassociate(base, SplitOnce(open, ')').value.0, qualifier);
    }
  }

  lemma SpelledTemporalIsRead(s: string, base: string, qualifier: string)
    requires SpellsTemporal(s, base, qualifier) && qualifier != "" && qualifier[0] != '('
    ensures TemporalType(s, base, qualifier)
  {
    if s == base + qualifier {
      assert s[|base|..] == qualifier;
    } else {
      var d :| d != "" && AllDigits(d) && s == base + "(" + d + ")" + qualifier;
      assert s[|base|..] == "(" + (d + ")" + qualifier);
      assert ')' !in d;
      SplitOnceReads(d, ')', qualifier);
    }
  }

  /** `temporal_type` reads exactly the base with its qualifier, a precision between them or not. */
  lemma TemporalTypeExactly(s: string, base: string, qualifier: string)
    requires qualifier != "" && qualifier[0] != '('
    ensures TemporalType(s, base, qualifier) <==> SpellsTemporal(s, base, qualifier)
  {
    if TemporalType(s, base, qualifier) { TemporalTypeIsSpelled(s, base, qualifier); }
    if SpellsTemporal(s, base, qualifier) { SpelledTemporalIsRead(s, base, qualifier); }
  }

  // ----- no text means two types -----

  /** Tells the catalogue texts of scalar types apart by a few characters. */
  function CatalogKind(s: string): nat {
    if |s| < 4 then 0
    else if s[0] == 'b' then (if s[1] == 'o' then 1 else if s[1] == 'i' then 4 else 11)
    else if s[0] == 's' then 2
    else if s[0] == 'i' then (if s[2] == 'e' then 19 else if s[3] == '2' then 2 else if s[3] == '8' then 4 else 3)
    else if s[0] == 'r' then 5
    else if s[0] == 'f' then (if |s| >= 6 && s[5] == '4' then 5 else 6)
    else if s[0] == 'd' then (if s[1] == 'o' then 6 else 12)
    else if s[0] == 'n' then 7
    else if s[0] == 't' then
      (if s[1] == 'e' then 8 else if |s| < 12 then 0
       else if s[4] != 's' then 13 else if s[|s| - 11] == 'h' then 15 else 14)
    else if s[0] == 'c' then (if s[1] == 'i' then 20 else if |s| > 9 && s[9] == ' ' then 9 else 10)
    else if s[0] == 'j' then (if |s| == 4 then 16 else 17)
    else if s[0] == 'u' then 18
    else 21
  }

  lemma TemporalKind(s: string, base: string, qualifier: string)
    requires SpellsTemporal(s, base, qualifier) && |qualifier| >= 11
    ensures |s| >= |base| + |qualifier| && base <= s
    ensures s[|base|] == qualifier[0] || s[|base|] == '('
    ensures s[|s| - 11] == qualifier[|qualifier| - 11]
  {
    if s != base + qualifier {
      var d :| d != "" && AllDigits(d) && s == base + "(" + d + ")" + qualifier;
      assert s[|base|] == '(';
    }
  }

  lemma LengthKind(s: string, base: string, length: Option<u32>)
    requires SpellsLength(s, base, length)
    ensures base <= s && (|s| > |base| ==> s[|base|] == '(')
  {
    if length.Some? {
      var d :| s == base + "(" + d + ")" && ParseU32(d) == Some(length.value);
    }
  }

  lemma NumberNameKind(s: string, t: PgType)
    requires ParseName(s) == Some(t) && Kind(t) <= 7
    ensures CatalogKind(s) == Kind(t)
  {}

  lemma TextNameKind(s: string, t: PgType)
    requires ParseName(s) == Some(t) && Kind(t) > 7
    ensures CatalogKind(s) == Kind(t)
  {}

  lemma NamedKind(s: string, t: PgType)
    requires ParseName(s) == Some(t)
    ensures CatalogKind(s) == Kind(t)
  {
    if Kind(t) <= 7 { NumberNameKind(s, t); } else { TextNameKind(s, t); }
  }

  predicate IsNamed(t: PgType) {
    !t.VarChar? && !t.Char? && !t.Numeric? && !t.Time? && !t.Timestamp? && !t.TimestampWithTimeZone? && !t.Array?
  }

  lemma NamedIsSpelled(s: string, t: PgType)
    requires ParseName(s) == Some(t)
    ensures SpellsScalar(s, t)
  {}

  lemma SpelledIsNamed(s: string, t: PgType)
    requires IsNamed(t) && SpellsScalar(s, t)
    ensures ParseName(s) == Some(t)
  {}

  lemma ScalarKind(s: string, t: PgType)
    requires SpellsScalar(s, t)
    ensures CatalogKind(s) == Kind(t)
  {
    if IsNamed(t) {
      SpelledIsNamed(s, t);
      NamedKind(s, t);
    } else {
      PatternKind(s, t);
    }
  }

  lemma LengthPatternKind(s: string, t: PgType)
    requires SpellsScalar(s, t) && (t.VarChar? || t.Char?)
    ensures CatalogKind(s) == Kind(t)
  {
    if t.VarChar? {
      LengthKind(s, "character varying", t.length);
      assert s[9] == ' ';
    } else {
      LengthKind(s, "character", t.length);
    }
  }

  lemma TimeKind(s: string)
    requires SpellsTemporal(s, "time", " without time zone")
    ensures CatalogKind(s) == 13
  {
    TemporalKind(s, "time", " without time zone");
    assert s[0] == 't' && s[1] == 'i';
  }

  lemma TimestampKind(s: string, qualifier: string, kind: nat)
    requires SpellsTemporal(s, "timestamp", qualifier)
    requires (qualifier == " without time zone" && kind == 14) || (qualifier == " with time zone" && kind == 15)
    ensures CatalogKind(s) == kind
  {
    TemporalKind(s, "timestamp", qualifier);
    assert s[0] == 't' && s[1] == 'i' && s[4] == 's';
  }

  lemma TemporalPatternKind(s: string, t: PgType)
    requires SpellsScalar(s, t) && (t.Time? || t.Timestamp? || t.TimestampWithTimeZone?)
    ensures CatalogKind(s) == Kind(t)
  {
    match t
    case Time => TimeKind(s);
    case Timestamp => TimestampKind(s, " without time zone", 14);
    case TimestampWithTimeZone => TimestampKind(s, " with time zone", 15);
  }

  lemma PatternKind(s: string, t: PgType)
    requires SpellsScalar(s, t) && !IsNamed(t)
    ensures CatalogKind(s) == Kind(t)
  {
    match t
    case VarChar(_) => LengthPatternKind(s, t);
    case Char(_) => LengthPatternKind(s, t);
    case Numeric =>
    case _ => TemporalPatternKind(s, t);
  }

  lemma ScalarSpellsOnce(s: string, a: PgType, b: PgType)
    requires SpellsScalar(s, a) && SpellsScalar(s, b)
    ensures a == b
  {
    ScalarKind(s, a);
    ScalarKind(s, b);
    SameKind(a, b);
    if a.VarChar? {
      TypeLengthExactly(s, "character varying", a.length);
      TypeLengthExactly(s, "character varying", b.length);
    }
    if a.Char? {
      TypeLengthExactly(s, "character", a.length);
      TypeLengthExactly(s, "character", b.length);
    }
  }

  // ----- the parser reads exactly these texts -----

  lemma ParseScalarIsSpelled(s: string)
    requires ParseScalar(s).Some?
    ensures SpellsScalar(s, ParseScalar(s).value)
  {
    if TypeLength(s, "character varying").Some? {
      TypeLengthIsSpelled(s, "character varying");
    } else if TypeLength(s, "character").Some? {
      TypeLengthIsSpelled(s, "character");
    } else if s == "numeric" || "numeric(" <= s {
    } else if TemporalType(s, "time", " without time zone") {
      TemporalTypeIsSpelled(s, "time", " without time zone");
    } else if TemporalType(s, "timestamp", " without time zone") {
      TemporalTypeIsSpelled(s, "timestamp", " without time zone");
    } else if TemporalType(s, "timestamp", " with time zone") {
      TemporalTypeIsSpelled(s, "timestamp", " with time zone");
    } else {
      NamedIsSpelled(s, ParseName(s).value);
    }
  }

  /** Whatever branch comes first, a text of some scalar type is parsed to something. */
  lemma SpelledScalarIsParsed(s: string, t: PgType)
    requires SpellsScalar(s, t)
    ensures ParseScalar(s).Some?
  {
    match t
    case VarChar(length) => SpelledLengthIsRead(s, "character varying", length);
    case Char(length) => SpelledLengthIsRead(s, "character", length);
    case Time => SpelledTemporalIsRead(s, "time", " without time zone");
    case Timestamp => SpelledTemporalIsRead(s, "timestamp", " without time zone");
    case TimestampWithTimeZone => SpelledTemporalIsRead(s, "timestamp", " with time zone");
    case Numeric =>
    case _ => SpelledIsNamed(s, t);
  }

  lemma ParseScalarExactly(s: string, t: PgType)
    ensures ParseScalar(s) == Some(t) <==> SpellsScalar(s, t)
  {
    if ParseScalar(s).Some? { ParseScalarIsSpelled(s); }
    if SpellsScalar(s, t) {
      SpelledScalarIsParsed(s, t);
      ParseScalarIsSpelled(s);
      ScalarSpellsOnce(s, t, ParseScalar(s).value);
    }
  }

  /** The catalogue parser returns `t` for exactly the texts of `t`: no text means two
    * types, so the order of its branches does not matter, and any other text is refused.
    */
  lemma {:induction false} ParseExactly(s: string, t: PgType)
    ensures ParseCatalogType(s) == Some(t) <==> Spells(s, t)
    decreases |s|
  {
    if IsArrayText(s) {
      if t.Array? {
        ParseExactly(s[..|s| - 2], t.element);
      }
    } else {
      ParseScalarExactly(s, t);
    }
  }

  /** The text PostgreSQL's `format_type` shows for a type without precision modifiers. */
  function Spelling(t: PgType): string {
    match t
    case Bool => "boolean"
    case SmallInt => "smallint"
    case Integer => "integer"
    case BigInt => "bigint"
    case Real => "real"
    case DoublePrecision => "double precision"
    case Numeric => "numeric"
    case Text => "text"
    case VarChar(length) => WithLength("character varying", length)
    case Char(length) => WithLength("character", length)
    case Bytea => "bytea"
    case Date => "date"
    case Time => "time without time zone"
    case Timestamp => "timestamp without time zone"
    case TimestampWithTimeZone => "timestamp with time zone"
    case Json => "json"
    case Jsonb => "jsonb"
    case Uuid => "uuid"
    case Inet => "inet"
    case Cidr => "cidr"
    case MacAddr => "macaddr"
    case Array(element) => Spelling(element) + "[]"
  }

  lemma WithLengthSpells(base: string, length: Option<u32>)
    ensures SpellsLength(WithLength(base, length), base, length)
  {
    if length.Some? { ParseOfDecimal(length.value); }
  }

  lemma ScalarSpelling(t: PgType)
    requires !t.Array?
    ensures SpellsScalar(Spelling(t), t)
  {
    match t
    case VarChar(length) => WithLengthSpells("character varying", length);
    case Char(length) => WithLengthSpells("character", length);
    case Time => assert "time without time zone" == "time" + " without time zone";
    case Timestamp => assert "timestamp without time zone" == "timestamp" + " without time zone";
    case TimestampWithTimeZone => assert "timestamp with time zone" == "timestamp" + " with time zone";
    case _ =>
  }

  lemma ArrayTextEnds(s: string)
    ensures IsArrayText(s) ==> s[|s| - 1] == ']'
  {
    if IsArrayText(s) { assert s[|s| - 2..][1] == s[|s| - 1]; }
  }

  lemma ScalarIsNoArrayText(t: PgType)
    requires !t.Array?
    ensures !IsArrayText(Spelling(t))
  {
    var s := Spelling(t);
    assert s[|s| - 1] != ']';
    ArrayTextEnds(s);
  }

  lemma {:induction false} SpellingSpells(t: PgType)
    ensures Spells(Spelling(t), t)
  {
    if t.Array? {
      SpellingSpells(t.element);
      assert Spelling(t)[..|Spelling(t)| - 2] == Spelling(t.element);
    } else {
      ScalarSpelling(t);
      ScalarIsNoArrayText(t);
    }
  }

  /** Every type reads back from its catalogue text, arrays nested to any depth. */
  lemma SpellingReadsBack(t: PgType)
    ensures ParseCatalogType(Spelling(t)) == Some(t)
  {
    SpellingSpells(t);
    ParseExactly(Spelling(t), t);
  }

  // ----- what a printed type means -----

  /** The catalogue name of an SQL type name: PostgreSQL writes four short names in full. */
  function FullName(s: string): string {
    if IsArrayText(s) then FullName(s[..|s| - 2]) + "[]"
    else if s == "varchar" || "varchar(" <= s then "character varying" + s[7..]
    else if s == "char" || "char(" <= s then "character" + s[4..]
    else if s == "time" then "time without time zone"
    else if s == "timestamp" then "timestamp without time zone"
    else s
  }

  predicate HasShortName(t: PgType) {
    t.VarChar? || t.Char? || t.Time? || t.Timestamp?
  }

  lemma KeptInFull(s: string)
    requires !IsArrayText(s) && !("varchar" <= s) && !("char" <= s) && s != "time" && s != "timestamp"
    ensures FullName(s) == s
  {
    ShorterPrefix("varchar", "varchar(", s);
    ShorterPrefix("char", "char(", s);
  }

  lemma ShorterPrefix(short: string, long: string, s: string)
    requires short <= long
    ensures long <= s ==> short <= s
  {}

  lemma PrintsSpelling(t: PgType)
    requires !t.Array? && !HasShortName(t)
    ensures ToSql(t) == Spelling(t)
  {}

  lemma NumberIsLong(t: PgType)
    requires t.Bool? || t.SmallInt? || t.Integer? || t.BigInt? || t.Real? || t.DoublePrecision? || t.Numeric?
    ensures var s := ToSql(t); !("varchar" <= s) && !("char" <= s) && s != "time" && s != "timestamp"
  {
    assert ToSql(t)[0] in "bsirdn";
  }

  lemma OtherIsLong(t: PgType)
    requires t.Bytea? || t.Date? || t.Json? || t.Jsonb? || t.Uuid? || t.Inet? || t.MacAddr?
    ensures var s := ToSql(t); !("varchar" <= s) && !("char" <= s) && s != "time" && s != "timestamp"
  {
    assert ToSql(t)[0] in "bdjuim";
  }

  lemma ThreeAreLong(t: PgType)
    requires t.Text? || t.TimestampWithTimeZone? || t.Cidr?
    ensures var s := ToSql(t); !("varchar" <= s) && !("char" <= s) && s != "time" && s != "timestamp"
  {
    assert t.Cidr? ==> ToSql(t)[1] == 'i';
    assert t.Text? ==> ToSql(t)[1] == 'e';
    assert t.TimestampWithTimeZone? ==> |ToSql(t)| > 9;
    assert !t.Cidr? ==> ToSql(t)[0] == 't';
  }

  lemma LongNameIsFull(t: PgType)
    requires !t.Array? && !HasShortName(t)
    ensures ToSql(t) == Spelling(t) && FullName(ToSql(t)) == ToSql(t)
  {
    PrintsSpelling(t);
    ScalarIsNoArrayText(t);
    if t.Text? || t.TimestampWithTimeZone? || t.Cidr? {
      ThreeAreLong(t);
    } else if t.Bytea? || t.Date? || t.Json? || t.Jsonb? || t.Uuid? || t.Inet? || t.MacAddr? {
      OtherIsLong(t);
    } else {
      NumberIsLong(t);
    }
    KeptInFull(ToSql(t));
  }

  lemma LengthInFull(short: string, full: string, length: Option<u32>)
    ensures short <= WithLength(short, length)
    ensures full + WithLength(short, length)[|short|..] == WithLength(full, length)
    ensures length.Some? ==> short + "(" <= WithLength(short, length)
  {
    var rest := if length.None? then "" else "(" + Decimal(length.value) + ")";
    assert WithLength(short, length) == short + rest && WithLength(full, length) == full + rest;
    if length.Some? {
      assert short + rest == (short + "(") + (Decimal(length.value) + ")");
    }
  }

  lemma LengthIsNoArray(base: string, length: Option<u32>)
    requires base != "" && base[|base| - 1] != ']'
    ensures !IsArrayText(WithLength(base, length))
  {
    ArrayTextEnds(WithLength(base, length));
  }

  lemma VarCharInFull(length: Option<u32>)
    ensures FullName(WithLength("varchar", length)) == WithLength("character varying", length)
  {
    LengthInFull("varchar", "character varying", length);
    LengthIsNoArray("varchar", length);
  }

  lemma CharInFull(length: Option<u32>)
    ensures FullName(WithLength("char", length)) == WithLength("character", length)
  {
    LengthInFull("char", "character", length);
    LengthIsNoArray("char", length);
    assert WithLength("char", length)[0] == 'c';
  }

  lemma TimeInFull(s: string)
    requires s == "time" || s == "timestamp"
    ensures FullName(s) == if s == "time" then "time without time zone" else "timestamp without time zone"
  {
    ArrayTextEnds(s);
    assert s[0] == 't' && s[|s| - 1] != ']';
    assert !("varchar(" <= s) && !("char(" <= s);
  }

  lemma ShortWithLength(t: PgType)
    requires t.VarChar? || t.Char?
    ensures ToSql(t) == WithLength(if t.VarChar? then "varchar" else "char", t.length)
    ensures Spelling(t) == WithLength(if t.VarChar? then "character varying" else "character", t.length)
  {}

  lemma ShortTime(t: PgType)
    requires t.Time? || t.Timestamp?
    ensures ToSql(t) == if t.Time? then "time" else "timestamp"
    ensures Spelling(t) == if t.Time? then "time without time zone" else "timestamp without time zone"
  {}

  lemma ShortNameInFull(t: PgType)
    requires HasShortName(t)
    ensures FullName(ToSql(t)) == Spelling(t)
  {
    if t.VarChar? || t.Char? {
      ShortWithLength(t);
      if t.VarChar? { VarCharInFull(t.length); } else { CharInFull(t.length); }
    } else {
      ShortTime(t);
      TimeInFull(ToSql(t));
    }
  }

  lemma {:induction false} PrintedInFull(t: PgType)
    ensures FullName(ToSql(t)) == Spelling(t)
  {
    if t.Array? {
      PrintedInFull(t.element);
      var s := ToSql(t);
      assert s[|s| - 2..] == "[]" && s[..|s| - 2] == ToSql(t.element);
    } else if HasShortName(t) {
      ShortNameInFull(t);
    } else {
      LongNameIsFull(t);
    }
  }

  /** A printed type is that very type to the catalogue reader: as it stands, or with
    * its short name written in full, arrays nested to any depth included.
    */
  lemma PrintedTypeIsMeant(t: PgType)
    ensures ParseCatalogType(FullName(ToSql(t))) == Some(t)
    ensures !t.Array? && !HasShortName(t) ==> ParseCatalogType(ToSql(t)) == Some(t)
  {
    PrintedInFull(t);
    SpellingReadsBack(t);
    if !t.Array? && !HasShortName(t) { LongNameIsFull(t); }
  }
}
