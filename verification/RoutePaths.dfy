/** Route paths: which are valid, how they join, and which requests they match.
  * Models `validate_path`, `canonical_join`, `canonical_pattern` and
  * `to_axum_path` of crates/mads-common/src/route.rs and their compile-time
  * twins in crates/mads-common-macros/src/routes.rs.
  */
module RoutePaths {
  import opened Wrappers
  import opened Orders

  // ----- splitting at slashes -----

  function Split(s: string): (r: seq<string>)
    ensures r != []
  {
    if s == "" then [""]
    else
      var tail := Split(s[1..]);
      if s[0] == '/' then [""] + tail else [[s[0]] + tail[0]] + tail[1..]
  }

  function Join(parts: seq<string>): string
    requires parts != []
  {
    if |parts| == 1 then parts[0] else parts[0] + "/" + Join(parts[1..])
  }

  ghost predicate Slashless(parts: seq<string>) {
    forall i :: 0 <= i < |parts| ==> '/' !in parts[i]
  }

  lemma {:induction false} SplitIsSlashless(s: string)
    ensures Slashless(Split(s))
  {
    if s != "" { SplitIsSlashless(s[1..]); }
  }

  /** Splitting what follows a slashless first part. */
  lemma {:induction false} SplitPart(part: string, rest: string)
    requires '/' !in part
    ensures Split(part + "/" + rest) == [part] + Split(rest)
  {
    var s := part + "/" + rest;
    if part == "" {
      assert s[1..] == rest;
    } else {
      SplitPart(part[1..], rest);
      assert s[1..] == part[1..] + "/" + rest;
      assert part == [part[0]] + part[1..];
    }
  }

  lemma {:induction false} SplitLast(part: string)
    requires '/' !in part
    ensures Split(part) == [part]
  {
    if part != "" {
      SplitLast(part[1..]);
      assert part == [part[0]] + part[1..];
    }
  }

  lemma {:induction false} SplitOfJoin(parts: seq<string>)
    requires parts != [] && Slashless(parts)
    ensures Split(Join(parts)) == parts
  {
    if |parts| == 1 {
      SplitLast(parts[0]);
    } else {
      SplitOfJoin(parts[1..]);
      SplitPart(parts[0], Join(parts[1..]));
      assert parts == [parts[0]] + parts[1..];
    }
  }

  function Prepend(c: char, parts: seq<string>): seq<string>
    requires parts != []
  {
    if c == '/' then [""] + parts else [[c] + parts[0]] + parts[1..]
  }

  lemma SplitCons(s: string)
    requires s != ""
    ensures Split(s) == Prepend(s[0], Split(s[1..]))
  {}

  lemma PrependConcat(c: char, a: seq<string>, b: seq<string>)
    requires a != []
    ensures Prepend(c, a + b) == Prepend(c, a) + b
  {
    assert (a + b)[1..] == a[1..] + b;
  }

  lemma {:induction false} SplitConcat(a: string, b: string)
    ensures Split(a + "/" + b) == Split(a) + Split(b)
  {
    var s := a + "/" + b;
    if a == "" {
      assert s[1..] == b;
    } else {
      assert s[0] == a[0] && s[1..] == a[1..] + "/" + b;
      SplitConcat(a[1..], b);
      SplitCons(s);
      SplitCons(a);
      PrependConcat(a[0], Split(a[1..]), Split(b));
    }
  }

  lemma {:induction false} SplitChars(s: string, i: nat, c: char)
    requires i < |Split(s)| && c in Split(s)[i]
    ensures c in s
  {
    if s != "" {
      var tail := Split(s[1..]);
      if s[0] == '/' {
        SplitChars(s[1..], i - 1, c);
      } else if i > 0 || c != s[0] {
        SplitChars(s[1..], i, c);
      }
    }
  }

  // ----- characters -----

  /** `char::is_control`: the general category Cc. */
  predicate IsControl(c: char) {
    c as int < 0x20 || 0x7F <= c as int < 0xA0
  }

  /** `char::is_whitespace`: the property White_Space. */
  predicate IsWhitespace(c: char) {
    || 0x09 <= c as int <= 0x0D
    || c as int in {0x20, 0x85, 0xA0, 0x1680, 0x2028, 0x2029, 0x202F, 0x205F, 0x3000}
    || 0x2000 <= c as int <= 0x200A
  }

  predicate IsLetter(c: char) { 'a' <= c <= 'z' || 'A' <= c <= 'Z' }

  predicate IsNameStart(c: char) { c == '_' || IsLetter(c) }

  predicate IsNameChar(c: char) { c == '_' || IsLetter(c) || '0' <= c <= '9' }

  /** By code point: names are made of the letters, digits and underscore of ASCII; White_Space
    * and Cc are listed as in the Unicode Character Database.
    */
  lemma CharactersExactly(c: char)
    ensures IsNameStart(c) <==> c as int == 95 || 65 <= c as int <= 90 || 97 <= c as int <= 122
    ensures IsNameChar(c) <==> IsNameStart(c) || 48 <= c as int <= 57
    ensures IsWhitespace(c) <==> c as int in {9, 10, 11, 12, 13, 32, 133, 160, 5760, 8192, 8193, 8194, 8195, 8196, 8197,
                                              8198, 8199, 8200, 8201, 8202, 8232, 8233, 8239, 8287, 12288}
    ensures !IsControl(c) <==> 32 <= c as int <= 126 || 160 <= c as int
  {}

  // ----- checking a path -----

  datatype PathError =
    | NotRooted | QueryOrFragment | ControlCharacter | ForbiddenCharacter | TrailingSlash
    | DotSegment | RouterSyntax | EmptyParameter | BadParameterName | RepeatedParameter(name: string)
    | PartialParameter | ParameterInPrefix

  predicate StartsWith(s: string, c: char) { s != "" && s[0] == c }

  /** What is wrong with one segment, when `seen` are the parameters before it. */
  function CheckSegment(segment: string, seen: set<string>): Option<PathError> {
    if segment == "" || segment == "." || segment == ".." then Some(DotSegment)
    else if StartsWith(segment, '*') || '{' in segment || '}' in segment then Some(RouterSyntax)
    else if segment[0] == ':' then
      var name := segment[1..];
      if name == "" then Some(EmptyParameter)
      else if !IsNameStart(name[0]) || exists c | c in name[1..] :: !IsNameChar(c) then Some(BadParameterName)
      else if name in seen then Some(RepeatedParameter(name))
      else None
    else if ':' in segment then Some(PartialParameter)
    else None
  }

  function WithParameter(segment: string, seen: set<string>): set<string> {
    if StartsWith(segment, ':') then seen + {segment[1..]} else seen
  }

  function CheckSegments(segments: seq<string>, seen: set<string>): Option<PathError>
    decreases |segments|
  {
    if segments == [] then None
    else
      var error := CheckSegment(segments[0], seen);
      if error.Some? then error else CheckSegments(segments[1..], WithParameter(segments[0], seen))
  }

  /** The checks both twins share; the macro runs them on every path it is given. */
  function CheckRooted(value: string, isPrefix: bool): Option<PathError> {
    if !StartsWith(value, '/') then Some(NotRooted)
    else if '?' in value || '#' in value then Some(QueryOrFragment)
    else if exists c | c in value :: IsControl(c) then Some(ControlCharacter)
    else if '\\' in value || '%' in value || exists c | c in value :: IsWhitespace(c) then Some(ForbiddenCharacter)
    else if value != "/" && value[|value| - 1] == '/' then Some(TrailingSlash)
    else if value == "/" then None
    else
      var error := CheckSegments(Split(value)[1..], {});
      if error.Some? then error
      else if isPrefix && ':' in value then Some(ParameterInPrefix)
      else None
  }

  /** The runtime check, which lets an empty prefix pass. */
  function CheckPath(value: string, isPrefix: bool): Option<PathError> {
    if isPrefix && value == "" then None else CheckRooted(value, isPrefix)
  }

  method ValidatePath(value: string, isPrefix: bool) returns (error: Option<PathError>)
    ensures error == CheckPath(value, isPrefix)
  {
    if isPrefix && value == "" {
      return None;
    }
    if value == "" || value[0] != '/' {
      return Some(NotRooted);
    }
    if '?' in value || '#' in value {
      return Some(QueryOrFragment);
    }
    if exists c | c in value :: IsControl(c) {
      return Some(ControlCharacter);
    }
    if '\\' in value || '%' in value || exists c | c in value :: IsWhitespace(c) {
      return Some(ForbiddenCharacter);
    }
    if value != "/" && value[|value| - 1] == '/' {
      return Some(TrailingSlash);
    }
    if value == "/" {
      return None;
    }
    error := ValidateSegments(Split(value)[1..]);
    if error.None? && isPrefix && ':' in value {
      error := Some(ParameterInPrefix);
    }
  }

  method ValidateSegments(segments: seq<string>) returns (error: Option<PathError>)
    ensures error == CheckSegments(segments, {})
  {
    var parameters: set<string> := {};
    for i := 0 to |segments|
      invariant CheckSegments(segments, {}) == CheckSegments(segments[i..], parameters)
    {
      var segment := segments[i];
      assert segments[i..][1..] == segments[i + 1..];
      error := CheckSegment(segment, parameters);
      if error.Some? {
        return;
      }
      if segment[0] == ':' {
        parameters := parameters + {segment[1..]};
      }
    }
    return None;
  }

  // ----- what a valid path is -----

  predicate IsParameter(segment: string) { StartsWith(segment, ':') }

  ghost predicate ValidName(name: string) {
    name != "" && IsNameStart(name[0]) && forall c :: c in name[1..] ==> IsNameChar(c)
  }

  ghost predicate ValidSegment(segment: string) {
    && segment != "" && segment != "." && segment != ".."
    && segment[0] != '*' && '{' !in segment && '}' !in segment
    && (if IsParameter(segment) then ValidName(segment[1..]) else ':' !in segment)
  }

  ghost predicate CleanChars(value: string) {
    forall c :: c in value ==> c !in "?#\\%" && !IsControl(c) && !IsWhitespace(c)
  }

  ghost predicate DistinctParameters(segments: seq<string>) {
    forall i, j :: 0 <= i < j < |segments| && IsParameter(segments[i]) ==> segments[i] != segments[j]
  }

  /** The segments of a path; the empty prefix and the root have none. */
  function Segments(value: string): seq<string> {
    if value == "" || value == "/" then [] else Split(value)[1..]
  }

  ghost predicate ValidSegments(segments: seq<string>) {
    (forall i :: 0 <= i < |segments| ==> ValidSegment(segments[i])) && DistinctParameters(segments)
  }

  ghost predicate ValidRooted(value: string) {
    StartsWith(value, '/') && CleanChars(value) && ValidSegments(Segments(value))
  }

  ghost predicate ValidPath(value: string, isPrefix: bool) {
    if isPrefix then value == "" || (ValidRooted(value) && ':' !in value) else ValidRooted(value)
  }

  lemma CheckSegmentMeans(segment: string, seen: set<string>)
    ensures CheckSegment(segment, seen).None? <==>
              ValidSegment(segment) && (IsParameter(segment) ==> segment[1..] !in seen)
  {}

  ghost predicate AvoidsSeen(segments: seq<string>, seen: set<string>) {
    forall i :: 0 <= i < |segments| && IsParameter(segments[i]) ==> segments[i][1..] !in seen
  }

  lemma AvoidsMore(segments: seq<string>, seen: set<string>)
    requires segments != []
    ensures AvoidsSeen(segments, seen) && DistinctParameters(segments) <==>
      && (IsParameter(segments[0]) ==> segments[0][1..] !in seen)
      && AvoidsSeen(segments[1..], WithParameter(segments[0], seen)) && DistinctParameters(segments[1..])
  {
    var head, tail := segments[0], segments[1..];
    assert forall i :: 0 <= i < |tail| ==> tail[i] == segments[i + 1];
    if IsParameter(head) {
      forall i | 0 <= i < |tail| && IsParameter(tail[i]) ensures tail[i] == head <==> tail[i][1..] == head[1..] {
        assert tail[i] == [':'] + tail[i][1..] && head == [':'] + head[1..];
      }
    }
    if AvoidsSeen(segments, seen) && DistinctParameters(segments) {
      forall i, j | 0 <= i < j < |tail| && IsParameter(tail[i]) ensures tail[i] != tail[j] {
        assert segments[i + 1] != segments[j + 1];
      }
    }
  }

  lemma {:induction false} CheckSegmentsMeans(segments: seq<string>, seen: set<string>)
    ensures CheckSegments(segments, seen).None? <==> ValidSegments(segments) && AvoidsSeen(segments, seen)
    decreases |segments|
  {
    if segments != [] {
      CheckSegmentMeans(segments[0], seen);
      CheckSegmentsMeans(segments[1..], WithParameter(segments[0], seen));
      AvoidsMore(segments, seen);
      assert forall i :: 0 < i < |segments| ==> segments[i] == segments[1..][i - 1];
    }
  }

  lemma TrailingSlashIsEmptySegment(value: string)
    requires StartsWith(value, '/') && value != "/" && value[|value| - 1] == '/'
    ensures !ValidSegments(Segments(value))
  {
    var n := |value| - 1;
    assert value == value[..n] + "/" + "";
    SplitConcat(value[..n], "");
    var parts := Split(value);
    assert parts == Split(value[..n]) + [""];
    assert value[..n] != "";
    assert |parts| >= 2 && parts[1..][|parts| - 2] == "";
    assert !ValidSegment(Segments(value)[|parts| - 2]);
  }

  /** The runtime check accepts exactly the valid paths. */
  lemma CheckPathExactly(value: string, isPrefix: bool)
    ensures CheckPath(value, isPrefix).None? <==> ValidPath(value, isPrefix)
  {
    if StartsWith(value, '/') {
      CleanCharsMeans(value);
      if value != "/" {
        CheckSegmentsMeans(Split(value)[1..], {});
        if value[|value| - 1] == '/' { TrailingSlashIsEmptySegment(value); }
      }
    }
  }

  lemma CleanCharsMeans(value: string)
    ensures CleanChars(value) <==>
      && '?' !in value && '#' !in value && '\\' !in value && '%' !in value
      && forall c :: c in value ==> !IsControl(c) && !IsWhitespace(c)
  {}

  // ----- joining a prefix and an endpoint path -----

  function CanonicalJoin(prefix: string, path: string): string {
    if prefix == "" || prefix == "/" then path
    else if path == "/" then prefix
    else prefix + path
  }

  lemma SplitJoined(prefix: string, path: string)
    requires path != "" && path[0] == '/'
    ensures Split(prefix + path) == Split(prefix) + Split(path)[1..]
  {
    var rest := path[1..];
    assert prefix + path == prefix + "/" + rest;
    SplitConcat(prefix, rest);
    assert Split(path) == [""] + Split(rest);
  }

  lemma TailOfConcat(a: seq<string>, b: seq<string>)
    requires a != []
    ensures (a + b)[1..] == a[1..] + b
  {}

  lemma JoinedSegments(prefix: string, path: string)
    requires StartsWith(prefix, '/') && StartsWith(path, '/') && prefix != "/" && path != "/"
    ensures Segments(prefix + path) == Segments(prefix) + Segments(path)
  {
    SplitJoined(prefix, path);
    assert |prefix + path| > 1;
    TailOfConcat(Split(prefix), Split(path)[1..]);
  }

  lemma ConcatNothing(a: seq<string>)
    ensures a + [] == a && [] + a == a
  {}

  lemma JoinSegments(prefix: string, path: string)
    requires prefix == "" || StartsWith(prefix, '/')
    requires StartsWith(path, '/')
    ensures Segments(CanonicalJoin(prefix, path)) == Segments(prefix) + Segments(path)
  {
    if prefix == "" || prefix == "/" {
      ConcatNothing(Segments(path));
    } else if path == "/" {
      ConcatNothing(Segments(prefix));
    } else {
      JoinedSegments(prefix, path);
    }
  }

  lemma PrefixHasNoParameters(prefix: string, i: nat)
    requires ':' !in prefix && i < |Segments(prefix)|
    ensures !IsParameter(Segments(prefix)[i])
  {
    if IsParameter(Segments(prefix)[i]) { SplitChars(prefix, i + 1, ':'); }
  }

  lemma ValidSegmentsConcat(a: seq<string>, b: seq<string>)
    requires ValidSegments(a) && ValidSegments(b) && forall i :: 0 <= i < |a| ==> !IsParameter(a[i])
    ensures ValidSegments(a + b)
  {}

  /** A valid parameter-free prefix joined with a valid endpoint path is a valid
    * path, whose segments are those of the prefix and then those of the path.
    */
  lemma JoinIsValid(prefix: string, path: string)
    requires ValidPath(prefix, true) && ValidPath(path, false)
    ensures ValidPath(CanonicalJoin(prefix, path), false)
    ensures Segments(CanonicalJoin(prefix, path)) == Segments(prefix) + Segments(path)
  {
    JoinSegments(prefix, path);
    forall i | 0 <= i < |Segments(prefix)| ensures !IsParameter(Segments(prefix)[i]) {
      PrefixHasNoParameters(prefix, i);
    }
    if prefix != "" { ValidSegmentsConcat(Segments(prefix), Segments(path)); }
  }

  // ----- the compile-time twin -----

  /** What `#[routes]` and a verb attribute accept, and the full path they generate. */
  function MacroRoute(prefix: Option<string>, path: string): Result<string, PathError> {
    var prefixError := if prefix.None? then None else CheckRooted(prefix.value, true);
    var pathError := CheckRooted(path, false);
    if prefixError.Some? then Failure(prefixError.value)
    else if pathError.Some? then Failure(pathError.value)
    else Success(CanonicalJoin(if prefix.None? then "" else prefix.value, path))
  }

  /** The macro accepts exactly what the runtime accepts, prefix and path, except for
    * an empty prefix written out. The full path is then the join that the runtime
    * computes again, and the runtime accepts that too.
    */
  lemma MacroAgreesWithRuntime(prefix: Option<string>, path: string)
    ensures var written := if prefix.None? then "" else prefix.value;
      && (MacroRoute(prefix, path).Success? <==>
            CheckPath(written, true).None? && CheckPath(path, false).None? && prefix != Some(""))
      && (MacroRoute(prefix, path).Success? ==>
            && MacroRoute(prefix, path).value == CanonicalJoin(written, path)
            && CheckPath(MacroRoute(prefix, path).value, false).None?)
  {
    var written := if prefix.None? then "" else prefix.value;
    CheckPathExactly(written, true);
    CheckPathExactly(path, false);
    if ValidPath(written, true) && ValidPath(path, false) {
      JoinIsValid(written, path);
      CheckPathExactly(CanonicalJoin(written, path), false);
    }
  }

  // ----- what is wrong with a path -----

  ghost predicate SegmentErrorIsTrue(segment: string, error: PathError) {
    match error
    case DotSegment => segment in {"", ".", ".."}
    case RouterSyntax => StartsWith(segment, '*') || '{' in segment || '}' in segment
    case EmptyParameter => segment == ":"
    case BadParameterName => IsParameter(segment) && segment != ":" && !ValidName(segment[1..])
    case RepeatedParameter(name) => segment == ":" + name
    case PartialParameter => !IsParameter(segment) && ':' in segment
    case _ => false
  }

  /** Every error says something true of the path it is about. */
  ghost predicate PathErrorIsTrue(value: string, isPrefix: bool, error: PathError) {
    match error
    case NotRooted => !StartsWith(value, '/')
    case QueryOrFragment => '?' in value || '#' in value
    case ControlCharacter => exists c :: c in value && IsControl(c)
    case ForbiddenCharacter => exists c :: c in value && (c == '\\' || c == '%' || IsWhitespace(c))
    case TrailingSlash => value != "/" && value != "" && value[|value| - 1] == '/'
    case ParameterInPrefix => isPrefix && ':' in value
    case RepeatedParameter(name) =>
      exists i, j :: 0 <= i < j < |Split(value)| && Split(value)[i] == Split(value)[j] == ":" + name
    case _ => exists segment :: segment in Split(value)[1..] && SegmentErrorIsTrue(segment, error)
  }

  lemma SegmentErrorHolds(segment: string, seen: set<string>)
    requires CheckSegment(segment, seen).Some?
    ensures SegmentErrorIsTrue(segment, CheckSegment(segment, seen).value)
    ensures CheckSegment(segment, seen).value.RepeatedParameter? ==>
      CheckSegment(segment, seen).value.name in seen && segment == ":" + CheckSegment(segment, seen).value.name
  {}

  ghost predicate SeenBefore(segments: seq<string>, k: nat, seen: set<string>) {
    forall name :: name in seen ==> exists i :: 0 <= i < k && i < |segments| && segments[i] == ":" + name
  }

  lemma {:induction false} SegmentsErrorHolds(segments: seq<string>, k: nat, seen: set<string>) returns (j: nat)
    requires k <= |segments| && SeenBefore(segments, k, seen) && CheckSegments(segments[k..], seen).Some?
    ensures k <= j < |segments| && SegmentErrorIsTrue(segments[j], CheckSegments(segments[k..], seen).value)
    ensures CheckSegments(segments[k..], seen).value.RepeatedParameter? ==>
      exists i :: 0 <= i < j && segments[i] == segments[j] == ":" + CheckSegments(segments[k..], seen).value.name
    decreases |segments| - k
  {
    var rest := segments[k..];
    assert rest != [] && rest[0] == segments[k] && rest[1..] == segments[k + 1..];
    if CheckSegment(segments[k], seen).Some? {
      j := k;
      SegmentErrorHolds(segments[k], seen);
    } else {
      var more := WithParameter(segments[k], seen);
      SeenMoreBefore(segments, k, seen);
      j := SegmentsErrorHolds(segments, k + 1, more);
    }
  }

  lemma SeenMoreBefore(segments: seq<string>, k: nat, seen: set<string>)
    requires k < |segments| && SeenBefore(segments, k, seen)
    ensures SeenBefore(segments, k + 1, WithParameter(segments[k], seen))
  {
    forall name | name in WithParameter(segments[k], seen)
      ensures exists i :: 0 <= i < k + 1 && i < |segments| && segments[i] == ":" + name
    {
      if name !in seen { assert segments[k] == ":" + segments[k][1..]; }
    }
  }

  lemma PathErrorHolds(value: string, isPrefix: bool)
    requires CheckPath(value, isPrefix).Some?
    ensures PathErrorIsTrue(value, isPrefix, CheckPath(value, isPrefix).value)
  {
    var error := CheckPath(value, isPrefix).value;
    var segments := Split(value)[1..];
    assert segments[0..] == segments;
    if StartsWith(value, '/') && value != "/" && CheckSegments(segments, {}) == Some(error) {
      var j := SegmentsErrorHolds(segments, 0, {});
      assert segments[j] in segments;
      if error.RepeatedParameter? {
        var i :| 0 <= i < j && segments[i] == segments[j] == ":" + error.name;
        assert Split(value)[i + 1] == Split(value)[j + 1] == ":" + error.name;
      }
    }
  }

  // ----- what a path matches -----

  /** A parameter matches any non-empty segment, another segment only itself. */
  predicate SegmentMatches(pattern: string, segment: string) {
    if IsParameter(pattern) then segment != "" else pattern == segment
  }

  ghost predicate Matches(path: string, request: string) {
    var patterns, segments := Split(path), Split(request);
    |patterns| == |segments| && forall i :: 0 <= i < |patterns| ==> SegmentMatches(patterns[i], segments[i])
  }

  ghost predicate SameMatches(p: string, q: string) {
    forall request :: Matches(p, request) <==> Matches(q, request)
  }

  function CanonicalSegment(segment: string): string {
    if IsParameter(segment) then ":*" else segment
  }

  function CanonicalSegments(segments: seq<string>): (r: seq<string>)
    ensures |r| == |segments| && forall i :: 0 <= i < |r| ==> r[i] == CanonicalSegment(segments[i])
  {
    seq(|segments|, i requires 0 <= i < |segments| => CanonicalSegment(segments[i]))
  }

  function CanonicalPattern(path: string): string {
    Join(CanonicalSegments(Split(path)))
  }

  lemma SplitOfCanonical(path: string)
    ensures Split(CanonicalPattern(path)) == CanonicalSegments(Split(path))
  {
    SplitIsSlashless(path);
    SplitOfJoin(CanonicalSegments(Split(path)));
  }

  /** Equal canonical patterns match the same requests. */
  lemma SamePatternMatches(p: string, q: string)
    requires CanonicalPattern(p) == CanonicalPattern(q)
    ensures SameMatches(p, q)
  {
    SplitOfCanonical(p);
    SplitOfCanonical(q);
    var ps, qs := Split(p), Split(q);
    assert CanonicalSegments(ps) == CanonicalSegments(qs) && |ps| == |qs|;
    forall i, segment | 0 <= i < |ps| ensures SegmentMatches(ps[i], segment) <==> SegmentMatches(qs[i], segment) {
      assert CanonicalSegment(ps[i]) == CanonicalSegments(ps)[i];
      assert CanonicalSegment(qs[i]) == CanonicalSegments(qs)[i];
    }
  }

  /** A request `p` matches, chosen so that it differs from `q` wherever `p` has a parameter. */
  function Instance(ps: seq<string>, qs: seq<string>): (r: seq<string>)
    ensures |r| == |ps| && forall i :: 0 <= i < |ps| ==> r[i] == InstanceAt(ps, qs, i)
  {
    seq(|ps|, i requires 0 <= i < |ps| => InstanceAt(ps, qs, i))
  }

  function InstanceAt(ps: seq<string>, qs: seq<string>, i: nat): string
    requires i < |ps|
  {
    if !IsParameter(ps[i]) then ps[i] else if i < |qs| && qs[i] == "x" then "y" else "x"
  }

  lemma InstanceMatches(p: string, qs: seq<string>) returns (request: string)
    ensures Split(request) == Instance(Split(p), qs) && Matches(p, request)
  {
    SplitIsSlashless(p);
    SplitOfJoin(Instance(Split(p), qs));
    request := Join(Instance(Split(p), qs));
  }

  /** `pattern` matches whatever `other` does, at one place. */
  predicate AsGeneral(pattern: string, other: string) {
    IsParameter(pattern) || (pattern == other && !IsParameter(other))
  }

  lemma MatchingInstanceIsGeneral(ps: seq<string>, qs: seq<string>, i: nat)
    requires i < |ps| == |qs| && SegmentMatches(qs[i], InstanceAt(ps, qs, i))
    ensures AsGeneral(qs[i], ps[i])
  {}

  /** What `q` must look like to match all that `p` matches. */
  lemma CoveringIsAsGeneral(p: string, q: string)
    requires forall request :: Matches(p, request) ==> Matches(q, request)
    ensures |Split(p)| == |Split(q)|
    ensures forall i :: 0 <= i < |Split(p)| ==> AsGeneral(Split(q)[i], Split(p)[i])
  {
    var request := InstanceMatches(p, Split(q));
    assert Matches(q, request);
    forall i | 0 <= i < |Split(p)| ensures AsGeneral(Split(q)[i], Split(p)[i]) {
      assert SegmentMatches(Split(q)[i], Split(request)[i]);
      MatchingInstanceIsGeneral(Split(p), Split(q), i);
    }
  }

  /** Canonical patterns decide whether two paths match the same requests. */
  lemma PatternsDecideMatches(p: string, q: string)
    ensures CanonicalPattern(p) == CanonicalPattern(q) <==> SameMatches(p, q)
  {
    if CanonicalPattern(p) == CanonicalPattern(q) { SamePatternMatches(p, q); }
    if SameMatches(p, q) {
      CoveringIsAsGeneral(p, q);
      CoveringIsAsGeneral(q, p);
      forall i | 0 <= i < |Split(p)| ensures CanonicalSegment(Split(p)[i]) == CanonicalSegment(Split(q)[i]) {
        assert AsGeneral(Split(q)[i], Split(p)[i]) && AsGeneral(Split(p)[i], Split(q)[i]);
      }
      assert CanonicalSegments(Split(p)) == CanonicalSegments(Split(q));
    }
  }

  // ----- translation to the router's syntax -----

  function AxumSegment(segment: string): string {
    if IsParameter(segment) then "{" + segment[1..] + "}" else segment
  }

  function AxumSegments(segments: seq<string>): (r: seq<string>)
    ensures |r| == |segments| && forall i :: 0 <= i < |r| ==> r[i] == AxumSegment(segments[i])
  {
    seq(|segments|, i requires 0 <= i < |segments| => AxumSegment(segments[i]))
  }

  function ToAxumPath(path: string): string {
    Join(AxumSegments(Split(path)))
  }

  /** The router's own reading: a braced segment captures any non-empty one. */
  predicate AxumSegmentMatches(pattern: string, segment: string) {
    if StartsWith(pattern, '{') && pattern[|pattern| - 1] == '}' then segment != "" else pattern == segment
  }

  ghost predicate AxumMatches(path: string, request: string) {
    var patterns, segments := Split(path), Split(request);
    |patterns| == |segments| && forall i :: 0 <= i < |patterns| ==> AxumSegmentMatches(patterns[i], segments[i])
  }

  lemma ValidSplit(path: string, i: nat)
    requires ValidPath(path, false) && i < |Split(path)|
    ensures Split(path)[i] == "" || ValidSegment(Split(path)[i])
  {
    if path == "/" {
      assert Split("/"[1..]) == [""];
      assert Split("/") == [""] + [""];
    } else if i > 0 {
      assert Split(path)[i] == Segments(path)[i - 1];
    }
  }

  /** Installing a valid path in the router keeps what it matches. */
  lemma AxumKeepsMatches(path: string, request: string)
    requires ValidPath(path, false)
    ensures AxumMatches(ToAxumPath(path), request) <==> Matches(path, request)
  {
    var segments := Split(path);
    SplitIsSlashless(path);
    assert Slashless(AxumSegments(segments));
    SplitOfJoin(AxumSegments(segments));
    forall i, s | 0 <= i < |segments|
      ensures AxumSegmentMatches(AxumSegment(segments[i]), s) <==> SegmentMatches(segments[i], s)
    {
      ValidSplit(path, i);
    }
  }
}
