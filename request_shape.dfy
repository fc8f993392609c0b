/**
  The request shape parsers: the HTTP method and path template from a URI example, the
  path-parameter names of a template, and the form-field names of an example request. Each of the
  source's three regular expressions is written out as a scan over the string.
*/
module RequestShape {
  import opened Wrappers
  import opened Text
  import opened Failures

  /** The methods `parse_uri` accepts, spelled as the source spells them: "OPTION", not "OPTIONS". */
  const Methods: seq<string> := ["GET", "PATCH", "POST", "PUT", "DELETE", "HEAD", "OPTION"]

  // ----- The path component of a URL (`urlparse(url).path`) -----

  /** Drops the leading C0 control characters and spaces, as `urlsplit` does first. */
  function TrimControl(s: string): string {
    if s != [] && s[0] <= ' ' then TrimControl(s[1..]) else s
  }

  /** Drops every tab, carriage return and line feed, as `urlsplit` does next. */
  function RemoveUnsafe(s: string): (r: string)
    ensures '\t' !in r && '\r' !in r && '\n' !in r
    ensures |r| <= |s|
  {
    if s == [] then []
    else (if s[0] in "\t\r\n" then [] else [s[0]]) + RemoveUnsafe(s[1..])
  }

  predicate IsAsciiLetter(c: char) {
    'a' <= c <= 'z' || 'A' <= c <= 'Z'
  }

  predicate IsSchemeChar(c: char) {
    IsAsciiLetter(c) || '0' <= c <= '9' || c == '+' || c == '-' || c == '.'
  }

  /** The length of the URL's scheme, or 0 when the text before the first ':' is not a scheme. */
  function SchemeLength(url: string): (n: nat)
    ensures n <= |url|
    ensures 0 < n ==> n < |url| && url[n] == ':'
  {
    var i := FirstIndex(url, ':');
    if 0 < i < |url| && IsAsciiLetter(url[0]) && forall j :: 0 <= j < i ==> IsSchemeChar(url[j]) then i else 0
  }

  /** The schemes whose URLs carry `;parameters` in the last path segment. */
  const ParamSchemes: seq<string> :=
    ["", "ftp", "hdl", "prospero", "http", "imap", "https", "shttp", "rtsp", "rtsps", "rtspu",
     "sip", "sips", "mms", "sftp", "tel"]

  /** The index of the last `c` in `s`, or 0 when there is none. */
  function LastIndex(s: string, c: char): (k: nat)
    ensures k <= |s|
    ensures c in s ==> k < |s| && s[k] == c && c !in s[k + 1..]
  {
    if s == [] then 0
    else if s[|s| - 1] == c then |s| - 1
    else LastIndex(s[..|s| - 1], c)
  }

  /** Cuts the `;parameters` off the last path segment. */
  function DropParams(url: string): string {
    var start := LastIndex(url, '/');
    var j := start + FirstIndex(url[start..], ';');
    url[..j]
  }

  /** The part after the network location, when `rest` starts with "//"; `rest` otherwise. */
  function AfterNetloc(rest: string): string {
    if StartsWith(rest, "//") then
      var tail := rest[2..];
      tail[Min(Min(FirstIndex(tail, '/'), FirstIndex(tail, '?')), FirstIndex(tail, '#'))..]
    else rest
  }

  /** The text before the fragment and then before the query. */
  function BeforeQuery(p: string): string {
    var noFragment := p[..FirstIndex(p, '#')];
    noFragment[..FirstIndex(noFragment, '?')]
  }

  /** `BeforeQuery` keeps the prefix up to the first '?' or '#'. */
  lemma BeforeQueryFacts(p: string)
    ensures var q := BeforeQuery(p);
      && StartsWith(p, q) && '?' !in q && '#' !in q
      && (|q| < |p| ==> p[|q|] == '?' || p[|q|] == '#')
  {
    var f := p[..FirstIndex(p, '#')];
    var q := f[..FirstIndex(f, '?')];
    assert p[..|q|] == q;
    assert '#' !in f;
    if |q| < |f| {
      assert p[|q|] == f[|q|];
    }
  }

  /**
    `urlparse(url).path`: the URL without scheme, network location, query, fragment and the
    parameters of its last segment.
  */
  function UrlPath(s: string): string {
    var url := RemoveUnsafe(TrimControl(s));
    var n := SchemeLength(url);
    var scheme := if n > 0 then Lower(url[..n]) else [];
    var path := BeforeQuery(AfterNetloc(if n > 0 then url[n + 1..] else url));
    if scheme in ParamSchemes && ';' in path then DropParams(path) else path
  }

  function Min(a: nat, b: nat): nat {
    if a <= b then a else b
  }

  /**
    For a plain absolute path (one leading '/', no tab, line break or ';'), the path component is
    the text before the first '?' or '#'.
  */
  lemma UrlPathOfAbsolutePath(s: string)
    requires StartsWith(s, "/") && !StartsWith(s, "//")
    requires '\t' !in s && '\r' !in s && '\n' !in s && ';' !in s
    ensures var p := UrlPath(s);
      && StartsWith(s, p) && '?' !in p && '#' !in p
      && (|p| < |s| ==> s[|p|] == '?' || s[|p|] == '#')
  {
    assert TrimControl(s) == s;
    RemoveNothing(s);
    assert !IsAsciiLetter(s[0]);
    assert SchemeLength(s) == 0;
    assert AfterNetloc(s) == s;
    BeforeQueryFacts(s);
    var p := BeforeQuery(s);
    assert ';' !in p by {
      assert p == s[..|p|];
    }
  }

  lemma {:induction false} RemoveNothing(s: string)
    requires '\t' !in s && '\r' !in s && '\n' !in s
    ensures RemoveUnsafe(s) == s
  {
    if s != [] {
      assert s == [s[0]] + s[1..];
      assert s[0] !in "\t\r\n" by {
        assert s[0] != '\t' && s[0] != '\r' && s[0] != '\n';
      }
      RemoveNothing(s[1..]);
    }
  }

  // ----- `parse_uri` -----

  /** `example.split("\n")[0]`: the text before the first line feed. */
  function FirstLine(example: string): (line: string)
    ensures line == Split(example, '\n')[0]
  {
    example[..FirstIndex(example, '\n')]
  }

  /** The first line up to its first space: the method token. */
  function MethodToken(example: string): string {
    var line := FirstLine(example);
    line[..FirstIndex(line, ' ')]
  }

  /** The rest of the first line after its first space (empty when it has none). */
  function PathText(example: string): string {
    var line := FirstLine(example);
    var space := FirstIndex(line, ' ');
    if space < |line| then line[space + 1..] else []
  }

  /**
    `parse_uri`: only the first line counts, and it splits at its first space. The token before it
    must be one of `Methods` exactly; a first line without a space then fails too. The path is the
    URL's path component of the rest, with every `:name` run rewritten to `{name}` (see
    `ParseUriCases`).
  */
  function ParseUri(example: string): Outcome<(string, string)> {
    var line := FirstLine(example);
    var space := FirstIndex(line, ' ');
    var token := line[..space];
    if token !in Methods then Err(UnknownMethod(token))
    else if space == |line| then Err(MissingPath)
    else Ok((token, RewriteParams(UrlPath(line[space + 1..]))))
  }

  /** The three outcomes of `parse_uri` and what decides between them. */
  lemma ParseUriCases(example: string)
    ensures var r := ParseUri(example);
      && (MethodToken(example) !in Methods <==> r == Err(UnknownMethod(MethodToken(example))))
      && (r == Err(MissingPath) <==> MethodToken(example) in Methods && ' ' !in FirstLine(example))
      && (r.Ok? ==> r.value.0 == MethodToken(example) && r.value.0 in Methods)
      && (r.Ok? ==> r.value.1 == RewriteParams(UrlPath(PathText(example))))
  {
    FirstIndexFound(FirstLine(example), ' ');
  }

  /** How a line "token rest" splits, for a token without space or line feed and a one-line rest. */
  lemma SplitsAtToken(token: string, rest: string)
    requires ' ' !in token && '\n' !in token && '\n' !in rest
    ensures var x := token + " " + rest;
      FirstLine(x) == x && MethodToken(x) == token && ' ' in FirstLine(x) && PathText(x) == rest
  {
    var x := token + " " + rest;
    assert x == token + (" " + rest);
    FirstIndexAfter(token, " " + rest, ' ');
    assert '\n' !in x;
    FirstIndexAfter(x, [], '\n');
    assert x + [] == x;
    assert x[..|token|] == token;
    assert x[|token| + 1..] == rest;
  }

  /** Lines after the first do not matter to `parse_uri`. */
  lemma OnlyFirstLineCounts(line: string, rest: string)
    requires '\n' !in line
    ensures ParseUri(line + "\n" + rest) == ParseUri(line)
  {
    FirstLineOfLines(line, rest);
  }

  lemma FirstLineOfLines(line: string, rest: string)
    requires '\n' !in line
    ensures FirstLine(line + "\n" + rest) == line
    ensures FirstLine(line) == line
  {
    var text := line + ("\n" + rest);
    assert line + "\n" + rest == text;
    FirstIndexAfter(line, "\n" + rest, '\n');
    assert text[..|line|] == line;
    FirstIndexAfter(line, [], '\n');
    assert line + [] == line;
  }

  /**
    A token outside `Methods` fails whatever follows it: "OPTIONS", "CONNECT" and lower-case
    spellings are all rejected.
  */
  lemma UnknownToken(token: string, rest: string)
    requires token !in Methods && ' ' !in token && '\n' !in token && '\n' !in rest
    ensures ParseUri(token + " " + rest) == Err(UnknownMethod(token))
  {
    SplitsAtToken(token, rest);
  }

  /** A known method without a path fails. */
  lemma MethodWithoutPath(token: string)
    requires token in Methods
    ensures ParseUri(token) == Err(MissingPath)
  {
    assert ' ' !in token && '\n' !in token;
    FirstIndexAfter(token, [], '\n');
    assert token + [] == token;
    assert FirstLine(token) == token;
    FirstIndexAfter(token, [], ' ');
  }

  /**
    A one-line example "METHOD /path" whose path has no query, fragment, parameters or second
    leading '/' yields the method and the rewritten path.
  */
  lemma ParseUriOfPlainPath(token: string, path: string)
    requires token in Methods
    requires StartsWith(path, "/") && !StartsWith(path, "//")
    requires '\t' !in path && '\r' !in path && '\n' !in path
    requires '?' !in path && '#' !in path && ';' !in path
    ensures ParseUri(token + " " + path) == Ok((token, RewriteParams(path)))
  {
    assert ' ' !in token && '\n' !in token;
    SplitsAtToken(token, path);
    PlainUrlPath(path);
  }

  /** Such a path is its own path component. */
  lemma PlainUrlPath(path: string)
    requires StartsWith(path, "/") && !StartsWith(path, "//")
    requires '\t' !in path && '\r' !in path && '\n' !in path
    requires '?' !in path && '#' !in path && ';' !in path
    ensures UrlPath(path) == path
  {
    UrlPathOfAbsolutePath(path);
    var p := UrlPath(path);
    assert path[..|p|] == p;
  }

  // ----- `re.sub(r":([^/]+)", r"{\1}", path)` -----

  /** Every ':' followed by at least one character other than '/' starts a run that ends before the next '/'; each run becomes `{run}`. */
  function RewriteParams(p: string): string
    decreases |p|
  {
    if p == [] then []
    else if p[0] == ':' && |p| > 1 && p[1] != '/' then
      var n := FirstIndex(p[1..], '/');
      "{" + p[1..1 + n] + "}" + RewriteParams(p[1 + n..])
    else [p[0]] + RewriteParams(p[1..])
  }

  /** Text without ':' passes through the rewrite unchanged. */
  lemma {:induction false} RewriteSkipsPlainText(x: string, rest: string)
    requires ':' !in x
    ensures RewriteParams(x + rest) == x + RewriteParams(rest)
    decreases |x|
  {
    if x != [] {
      assert (x + rest)[1..] == x[1..] + rest;
      RewriteSkipsPlainText(x[1..], rest);
      assert x == [x[0]] + x[1..];
    } else {
      assert x + rest == rest;
    }
  }

  // ----- `re.finditer(r"/{([^}]+)}", path)` -----

  /** The names of the `/{name}` occurrences, left to right, repeats kept. */
  function PathParams(p: string): seq<string>
    decreases |p|
  {
    if |p| < 2 then []
    else if p[0] == '/' && p[1] == '{' && 0 < FirstIndex(p[2..], '}') < |p| - 2 then
      var k := FirstIndex(p[2..], '}');
      [p[2..2 + k]] + PathParams(p[3 + k..])
    else PathParams(p[1..])
  }

  /** Every name the scan finds is non-empty and holds no '}'. */
  lemma {:induction false} PathParamsNamed(p: string)
    ensures forall i :: 0 <= i < |PathParams(p)| ==> PathParams(p)[i] != [] && '}' !in PathParams(p)[i]
    decreases |p|
  {
    if |p| >= 2 {
      if p[0] == '/' && p[1] == '{' && 0 < FirstIndex(p[2..], '}') < |p| - 2 {
        var k := FirstIndex(p[2..], '}');
        PathParamsNamed(p[3 + k..]);
        var name := p[2..2 + k];
        assert forall j :: 0 <= j < k ==> name[j] == p[2..][j];
      } else {
        PathParamsNamed(p[1..]);
      }
    }
  }

  /** `parse_path`: collects the match groups one by one, left to right. */
  method ParsePath(path: string) returns (names: seq<string>)
    ensures names == PathParams(path)
  {
    names := [];
    var rest := path;
    while |rest| >= 2
      invariant names + PathParams(rest) == PathParams(path)
      decreases |rest|
    {
      var k := FirstIndex(rest[2..], '}');
      if rest[0] == '/' && rest[1] == '{' && 0 < k < |rest| - 2 {
        ghost var later := PathParams(rest[3 + k..]);
        assert PathParams(rest) == [rest[2..2 + k]] + later;
        assert names + ([rest[2..2 + k]] + later) == (names + [rest[2..2 + k]]) + later;
        names := names + [rest[2..2 + k]];
        rest := rest[3 + k..];
      } else {
        rest := rest[1..];
      }
    }
    assert names + [] == names;
  }

  // ----- Round trip between the rewrite and the parameter scan -----

  /** One path segment as written in the documentation: plain text or a `:name` placeholder. */
  datatype Segment = Literal(text: string) | Placeholder(name: string)

  /**
    A segment both regular expressions read as intended: a literal has no ':' and does not start
    with '{'; a placeholder name is non-empty and has no '}'; neither contains '/'.
  */
  predicate WellFormedSegment(seg: Segment) {
    match seg
    case Literal(t) => ':' !in t && '/' !in t && (t == [] || t[0] != '{')
    case Placeholder(n) => n != [] && '/' !in n && '}' !in n
  }

  function DocumentedText(seg: Segment): string {
    match seg
    case Literal(t) => t
    case Placeholder(n) => ":" + n
  }

  function TemplateText(seg: Segment): string {
    match seg
    case Literal(t) => t
    case Placeholder(n) => "{" + n + "}"
  }

  function SegmentNames(seg: Segment): seq<string> {
    match seg
    case Literal(_) => []
    case Placeholder(n) => [n]
  }

  /** The path as documented: each segment after a '/', placeholders as `:name`. */
  function Documented(segs: seq<Segment>): (p: string)
    ensures p == [] || p[0] == '/'
  {
    if segs == [] then [] else "/" + DocumentedText(segs[0]) + Documented(segs[1..])
  }

  /** The same path as a template: placeholders as `{name}`. */
  function Template(segs: seq<Segment>): (p: string)
    ensures p == [] || p[0] == '/'
  {
    if segs == [] then [] else "/" + TemplateText(segs[0]) + Template(segs[1..])
  }

  function PlaceholderNames(segs: seq<Segment>): seq<string> {
    if segs == [] then [] else SegmentNames(segs[0]) + PlaceholderNames(segs[1..])
  }

  lemma RewriteSlash(x: string)
    ensures RewriteParams("/" + x) == "/" + RewriteParams(x)
  {
    assert ("/" + x)[1..] == x;
  }

  lemma RewritePlaceholder(n: string, rest: string)
    requires n != [] && '/' !in n && (rest == [] || rest[0] == '/')
    ensures RewriteParams(":" + n + rest) == "{" + n + "}" + RewriteParams(rest)
  {
    var x := ":" + n + rest;
    assert x[1..] == n + rest;
    FirstIndexAfter(n, rest, '/');
    assert x[1..1 + |n|] == n;
    assert x[1 + |n|..] == rest;
  }

  lemma RewriteLiteralSegment(t: string, rest: string)
    requires ':' !in t
    ensures RewriteParams("/" + t + rest) == "/" + t + RewriteParams(rest)
  {
    assert "/" + t + rest == "/" + (t + rest);
    RewriteSlash(t + rest);
    RewriteSkipsPlainText(t, rest);
  }

  lemma RewritePlaceholderSegment(n: string, rest: string)
    requires n != [] && '/' !in n && (rest == [] || rest[0] == '/')
    ensures RewriteParams("/" + (":" + n) + rest) == "/" + ("{" + n + "}") + RewriteParams(rest)
  {
    var x := ":" + n + rest;
    assert "/" + (":" + n) + rest == "/" + x;
    RewriteSlash(x);
    RewritePlaceholder(n, rest);
    var t := "{" + n + "}";
    assert "/" + (t + RewriteParams(rest)) == "/" + t + RewriteParams(rest);
  }

  lemma RewriteSegment(seg: Segment, rest: string)
    requires WellFormedSegment(seg) && (rest == [] || rest[0] == '/')
    ensures RewriteParams("/" + DocumentedText(seg) + rest) == "/" + TemplateText(seg) + RewriteParams(rest)
  {
    match seg
    case Literal(t) =>
      RewriteLiteralSegment(t, rest);
    case Placeholder(n) =>
      RewritePlaceholderSegment(n, rest);
  }

  lemma {:induction false} RewriteGivesTemplate(segs: seq<Segment>)
    requires forall i :: 0 <= i < |segs| ==> WellFormedSegment(segs[i])
    ensures RewriteParams(Documented(segs)) == Template(segs)
  {
    if segs != [] {
      RewriteGivesTemplate(segs[1..]);
      RewriteSegment(segs[0], Documented(segs[1..]));
    }
  }

  lemma {:induction false} ScanSkipsPlainText(x: string, rest: string)
    requires '/' !in x && (rest == [] || rest[0] == '/')
    ensures PathParams(x + rest) == PathParams(rest)
    decreases |x|
  {
    if x != [] {
      assert (x + rest)[1..] == x[1..] + rest;
      ScanSkipsPlainText(x[1..], rest);
    } else {
      assert x + rest == rest;
    }
  }

  lemma ScanSlash(x: string)
    requires x == [] || x[0] == '/'
    ensures PathParams("/" + x) == PathParams(x)
  {
    if x != [] {
      assert ("/" + x)[1..] == x;
    }
  }

  lemma ScanPlainSegment(t: string, rest: string)
    requires ':' !in t && '/' !in t && (t == [] || t[0] != '{') && (rest == [] || rest[0] == '/')
    ensures PathParams("/" + t + rest) == PathParams(rest)
  {
    if t == [] {
      assert "/" + t + rest == "/" + rest;
      ScanSlash(rest);
    } else {
      var p := "/" + t + rest;
      assert p[1..] == t + rest;
      ScanSkipsPlainText(t, rest);
    }
  }

  lemma ScanPlaceholder(n: string, rest: string)
    requires n != [] && '}' !in n
    ensures PathParams("/" + ("{" + n + "}") + rest) == [n] + PathParams(rest)
  {
    var p := "/" + ("{" + n + "}") + rest;
    assert p[2..] == n + ("}" + rest);
    FirstIndexAfter(n, "}" + rest, '}');
    assert p[2..2 + |n|] == n;
    assert p[3 + |n|..] == rest;
  }

  lemma ScanSegment(seg: Segment, rest: string)
    requires WellFormedSegment(seg) && (rest == [] || rest[0] == '/')
    ensures PathParams("/" + TemplateText(seg) + rest) == SegmentNames(seg) + PathParams(rest)
  {
    match seg
    case Literal(t) =>
      ScanPlainSegment(t, rest);
      assert [] + PathParams(rest) == PathParams(rest);
    case Placeholder(n) =>
      assert TemplateText(seg) == "{" + n + "}";
      ScanPlaceholder(n, rest);
  }

  lemma {:induction false} ScanReadsTemplate(segs: seq<Segment>)
    requires forall i :: 0 <= i < |segs| ==> WellFormedSegment(segs[i])
    ensures PathParams(Template(segs)) == PlaceholderNames(segs)
  {
    if segs != [] {
      ScanReadsTemplate(segs[1..]);
      ScanSegment(segs[0], Template(segs[1..]));
    }
  }

  /**
    Round trip: rewriting a documented path and scanning the template for `/{name}` gives back the
    placeholder names, in order and with repeats.
  */
  lemma PlaceholderRoundTrip(segs: seq<Segment>)
    requires forall i :: 0 <= i < |segs| ==> WellFormedSegment(segs[i])
    ensures PathParams(RewriteParams(Documented(segs))) == PlaceholderNames(segs)
  {
    RewriteGivesTemplate(segs);
    ScanReadsTemplate(segs);
  }

  // ----- `parse_example_request` -----

  const FormFlag := "--form "

  /** What `'?([^=]+)=` captures right after the flag, if it matches there. */
  function FieldAfterFlag(rest: string): (r: Option<string>)
    ensures r.Some? ==> r.value != [] && '=' !in r.value && |r.value| < |rest|
  {
    if rest != [] && rest[0] == '\'' && 0 < FirstIndex(rest[1..], '=') < |rest| - 1 then
      Some(rest[1..1 + FirstIndex(rest[1..], '=')])
    else if 0 < FirstIndex(rest, '=') < |rest| then
      Some(rest[..FirstIndex(rest, '=')])
    else None
  }

  /** `re.search(r"--form '?([^=]+)=.*'?", line)`: the group of the leftmost match. */
  function SearchFormField(line: string): (r: Option<string>)
    ensures r.Some? ==> r.value != [] && '=' !in r.value
    decreases |line|
  {
    if StartsWith(line, FormFlag) && FieldAfterFlag(line[|FormFlag|..]).Some? then
      FieldAfterFlag(line[|FormFlag|..])
    else if line == [] then None
    else SearchFormField(line[1..])
  }

  /** The field names of the lines, at most one per line, in line order. */
  function FieldsOfLines(lines: seq<string>): (fields: seq<string>)
    ensures |fields| <= |lines|
    ensures forall i :: 0 <= i < |fields| ==> fields[i] != [] && '=' !in fields[i]
  {
    if lines == [] then []
    else
      var last := SearchFormField(lines[|lines| - 1]);
      FieldsOfLines(lines[..|lines| - 1]) + (if last.Some? then [last.value] else [])
  }

  function FormFields(example: Option<string>): seq<string> {
    match example
    case None => []
    case Some(text) => FieldsOfLines(Split(text, '\n'))
  }

  /** The field names of a text are those of its lines taken one after another. */
  lemma {:induction false} FieldsOfLinesAppend(a: seq<string>, b: seq<string>)
    ensures FieldsOfLines(a + b) == FieldsOfLines(a) + FieldsOfLines(b)
    decreases |b|
  {
    if b == [] {
      assert a + b == a;
    } else {
      var ab := a + b;
      assert ab[..|ab| - 1] == a + b[..|b| - 1];
      assert ab[|ab| - 1] == b[|b| - 1];
      FieldsOfLinesAppend(a, b[..|b| - 1]);
    }
  }

  /** After a quote, the name runs up to the first '=': `--form 'name=value'` gives `name`. */
  lemma FieldAfterQuote(name: string, value: string)
    requires name != [] && '=' !in name
    ensures FieldAfterFlag("'" + name + "=" + value) == Some(name)
  {
    var rest := "'" + name + "=" + value;
    assert rest[1..] == name + ("=" + value);
    FirstIndexAfter(name, "=" + value, '=');
    assert rest[1..1 + |name|] == name;
  }

  /** Without a quote the name also runs up to the first '=': `--form name=value` gives `name`. */
  lemma FieldWithoutQuote(name: string, value: string)
    requires name != [] && '=' !in name && name[0] != '\''
    ensures FieldAfterFlag(name + "=" + value) == Some(name)
  {
    var rest := name + "=" + value;
    assert rest == name + ("=" + value) && rest[0] == name[0];
    FirstIndexAfter(name, "=" + value, '=');
    assert rest[..|name|] == name;
  }

  /**
    The optional quote gives way when nothing stands between it and the '=': the quote itself is
    then the captured name.
  */
  lemma QuoteBeforeEquals(value: string)
    ensures FieldAfterFlag("'=" + value) == Some("'")
  {
    var rest := "'=" + value;
    assert rest[1..][0] == '=' && rest[1] == '=';
    assert rest[..1] == "'";
  }

  /** Nothing is captured right after the flag exactly when no '=' follows or the '=' comes first. */
  lemma FieldAfterFlagFails(rest: string)
    ensures FieldAfterFlag(rest).None? <==> '=' !in rest || rest[0] == '='
  {
    FirstIndexFound(rest, '=');
    if rest != [] {
      assert forall c :: c in rest[1..] ==> c in rest;
      FirstIndexFound(rest[1..], '=');
    }
  }

  /** The pattern matches at position `i` of the line: the flag starts there and a field follows it. */
  predicate MatchesAt(line: string, i: nat) {
    i <= |line| && StartsWith(line[i..], FormFlag) && FieldAfterFlag(line[i + |FormFlag|..]).Some?
  }

  lemma MatchesShift(line: string, i: nat)
    requires line != []
    ensures MatchesAt(line, i + 1) <==> MatchesAt(line[1..], i)
  {
    if i + 1 <= |line| {
      assert line[1..][i..] == line[i + 1..];
      if i + 1 + |FormFlag| <= |line| {
        assert line[1..][i + |FormFlag|..] == line[i + 1 + |FormFlag|..];
      }
    }
  }

  /** `re.search` finds a field exactly when the pattern matches at some position of the line. */
  lemma {:induction false} SearchFinds(line: string)
    ensures SearchFormField(line).Some? <==> exists i: nat :: MatchesAt(line, i)
    decreases |line|
  {
    if MatchesAt(line, 0) {
    } else if line != [] {
      var tail := line[1..];
      SearchFinds(tail);
      if exists i: nat :: MatchesAt(line, i) {
        var i: nat :| MatchesAt(line, i);
        MatchesShift(line, i - 1);
      }
      if exists i: nat :: MatchesAt(tail, i) {
        var i: nat :| MatchesAt(tail, i);
        MatchesShift(line, i);
      }
    } else {
      assert forall i: nat :: !MatchesAt(line, i);
    }
  }

  /** The field found is the one captured at the leftmost position where the pattern matches. */
  lemma {:induction false} SearchTakesLeftmost(line: string, i: nat)
    requires MatchesAt(line, i) && forall j: nat :: j < i ==> !MatchesAt(line, j)
    ensures SearchFormField(line) == FieldAfterFlag(line[i + |FormFlag|..])
    decreases i
  {
    if i == 0 {
      assert line[0..] == line;
    } else {
      assert !MatchesAt(line, 0) && line != [];
      var tail := line[1..];
      assert SearchFormField(line) == SearchFormField(tail);
      forall j: nat | j < i - 1 ensures !MatchesAt(tail, j) {
        MatchesShift(line, j);
      }
      MatchesShift(line, i - 1);
      SearchTakesLeftmost(tail, i - 1);
      assert tail[i - 1 + |FormFlag|..] == line[i + |FormFlag|..];
    }
  }

  /** The positions of the lines in which a field is found, in increasing order. */
  function MatchingLines(lines: seq<string>): (idx: seq<nat>)
    ensures forall j :: 0 <= j < |idx| ==> idx[j] < |lines| && SearchFormField(lines[idx[j]]).Some?
    ensures forall j, k :: 0 <= j < k < |idx| ==> idx[j] < idx[k]
    ensures forall i :: 0 <= i < |lines| && SearchFormField(lines[i]).Some? ==> i in idx
  {
    if lines == [] then []
    else
      var front := lines[..|lines| - 1];
      assert forall i :: 0 <= i < |front| ==> front[i] == lines[i];
      MatchingLines(front) + (if SearchFormField(lines[|lines| - 1]).Some? then [|lines| - 1] else [])
  }

  /** The j-th field is the one found in the j-th line that has one: one field per such line, in order. */
  lemma {:induction false} FieldsFromMatchingLines(lines: seq<string>)
    ensures |FieldsOfLines(lines)| == |MatchingLines(lines)|
    ensures forall j :: 0 <= j < |FieldsOfLines(lines)| ==>
      FieldsOfLines(lines)[j] == SearchFormField(lines[MatchingLines(lines)[j]]).value
  {
    if lines != [] {
      var front := lines[..|lines| - 1];
      FieldsFromMatchingLines(front);
      var fields, idx := FieldsOfLines(front), MatchingLines(front);
      forall j | 0 <= j < |fields| ensures FieldsOfLines(lines)[j] == SearchFormField(lines[MatchingLines(lines)[j]]).value {
        assert FieldsOfLines(lines)[j] == fields[j] && MatchingLines(lines)[j] == idx[j];
        assert lines[idx[j]] == front[idx[j]];
      }
    }
  }

  /** `parse_example_request`: no example gives no fields; otherwise one scan per line. */
  method ParseExampleRequest(example: Option<string>) returns (forms: seq<string>)
    ensures forms == FormFields(example)
  {
    forms := [];
    if example.None? {
      return;
    }
    var lines := Split(example.value, '\n');
    var i := 0;
    while i < |lines|
      invariant 0 <= i <= |lines|
      invariant forms == FieldsOfLines(lines[..i])
    {
      var m := SearchFormField(lines[i]);
      assert lines[..i + 1][..i] == lines[..i];
      if m.Some? {
        forms := forms + [m.value];
      }
      i := i + 1;
    }
    assert lines[..i] == lines;
  }
}
