/**
 * `ShaderParser` (shader_parser.cpp): the `#include` preprocessor for shader sources.
 * The file system is a map from a path to the file's lines, and a path is found exactly
 * when it is a key.
 */
module ShaderParser {
  import opened Wrappers

  type FileSystem = map<string, seq<string>>

  const INCLUDE_STRING: string := "#include"

  // ---------------------------------------------------------------------------------
  // Line scanning.

  /** The line has no character other than a space (`find_first_not_of(' ') == npos`). */
  predicate Blank(line: string)
  {
    forall i :: 0 <= i < |line| ==> line[i] == ' '
  }

  predicate OccursAt(line: string, pattern: string, i: int)
  {
    0 <= i && i + |pattern| <= |line| && line[i..i + |pattern|] == pattern
  }

  /** `line.find(pattern, from)`: the first occurrence at or after `from`. */
  function Find(line: string, pattern: string, from: nat): (r: Option<nat>)
    ensures r.Some? ==> from <= r.value && OccursAt(line, pattern, r.value)
    ensures forall j :: from <= j && (r.None? || j < r.value) ==> !OccursAt(line, pattern, j)
    decreases |line| - from
  {
    if from + |pattern| > |line| then None
    else if line[from..from + |pattern|] == pattern then Some(from)
    else Find(line, pattern, from + 1)
  }

  /** `line.find_first_not_of(' ', from)`: the first non-space at or after `from`. */
  function FirstNonSpace(line: string, from: nat): (r: Option<nat>)
    ensures r.Some? ==> from <= r.value < |line| && line[r.value] != ' '
    ensures forall j :: from <= j < |line| && (r.None? || j < r.value) ==> line[j] == ' '
    decreases |line| - from
  {
    if from >= |line| then None
    else if line[from] != ' ' then Some(from)
    else FirstNonSpace(line, from + 1)
  }

  /** A line is copied to the output: it is not blank and has no `#include` anywhere. */
  predicate IsPlain(line: string)
  {
    !Blank(line) && Find(line, INCLUDE_STRING, 0).None?
  }

  // ---------------------------------------------------------------------------------
  // strip_quotes.

  /** Where `strip_quotes` stops: the first `"` after position 0, or the end. */
  function QuoteEnd(token: string, from: nat): (r: nat)
    requires 1 <= from <= |token| || from == |token|
    ensures from <= r <= |token|
    ensures r < |token| ==> token[r] == '"'
    ensures forall j :: from <= j < r ==> token[j] != '"'
    decreases |token| - from
  {
    if from >= |token| then |token| else if token[from] == '"' then from else QuoteEnd(token, from + 1)
  }

  /** The characters of s other than `"`, in order. */
  function RemoveQuotes(s: string): (r: string)
    ensures '"' !in r
    ensures |r| <= |s|
  {
    if s == [] then [] else RemoveQuotes(s[..|s| - 1]) + if s[|s| - 1] == '"' then [] else [s[|s| - 1]]
  }

  /** The file name `strip_quotes` extracts from a token. */
  function StrippedName(token: string): string
  {
    var end := if token == [] then 0 else QuoteEnd(token, 1);
    RemoveQuotes(token[..end])
  }

  /**
   * `strip_quotes(token, result)`: appends to `result` (never clearing it) every
   * character that is not `"`, stopping at the first `"` that is not at position 0.
   */
  method StripQuotes(token: string, result0: string) returns (result: string)
    ensures result == result0 + StrippedName(token)
  {
    var end := if token == [] then 0 else QuoteEnd(token, 1);
    result := result0;
    var finished := false;
    var i := 0;
    while i < |token| && !finished
      invariant 0 <= i <= |token|
      invariant !finished ==> i <= end && result == result0 + RemoveQuotes(token[..i])
      invariant finished ==> end < |token| && i == end + 1 && result == result0 + RemoveQuotes(token[..end])
      decreases |token| - i
    {
      assert token[..i + 1][..i] == token[..i];
      if token[i] == '"' {
        if i != 0 {
          finished := true;
        }
      } else {
        result := result + [token[i]];
      }
      i := i + 1;
    }
  }

  /** An unquoted token is copied whole. */
  lemma {:induction false} UnquotedTokenCopiedWhole(token: string)
    requires '"' !in token
    ensures StrippedName(token) == token
  {
    if token != [] {
      var end := QuoteEnd(token, 1);
      assert end == |token|;
      assert token[..end] == token;
    }
    RemoveQuotesKeepsUnquoted(token);
  }

  lemma {:induction false} RemoveQuotesKeepsUnquoted(s: string)
    requires '"' !in s
    ensures RemoveQuotes(s) == s
  {
    if s != [] {
      RemoveQuotesKeepsUnquoted(s[..|s| - 1]);
    }
  }

  lemma {:induction false} RemoveQuotesAppend(a: string, b: string)
    ensures RemoveQuotes(a + b) == RemoveQuotes(a) + RemoveQuotes(b)
    decreases |b|
  {
    if b == [] {
      assert a + b == a;
    } else {
      assert (a + b)[..|a + b| - 1] == a + b[..|b| - 1];
      RemoveQuotesAppend(a, b[..|b| - 1]);
    }
  }

  /** A quoted name loses its quotes, and anything after the closing quote is dropped. */
  lemma QuotedNameStripped(name: string, rest: string)
    requires '"' !in name
    ensures StrippedName("\"" + name + "\"" + rest) == name
  {
    var token := "\"" + name + "\"" + rest;
    var end := QuoteEnd(token, 1);
    assert token[|name| + 1] == '"';
    assert end == |name| + 1;
    assert token[..end] == "\"" + name;
    RemoveQuotesAppend("\"", name);
    assert RemoveQuotes("\"") == [];
    RemoveQuotesKeepsUnquoted(name);
  }

  // ---------------------------------------------------------------------------------
  // Paths.

  /** The position of the last `/`, if any. */
  function LastSlash(p: string): (r: Option<nat>)
    ensures r.Some? ==> r.value < |p| && p[r.value] == '/' && forall j :: r.value < j < |p| ==> p[j] != '/'
    ensures r.None? ==> '/' !in p
  {
    if p == [] then None
    else if p[|p| - 1] == '/' then Some(|p| - 1)
    else LastSlash(p[..|p| - 1])
  }

  /** `path(p).parent_path()`: everything before the last separator, or the root itself. */
  function ParentPath(p: string): string
  {
    match LastSlash(p)
    case None => ""
    case Some(k) => if k == 0 then "/" else p[..k]
  }

  /**
   * `path(dir).append(name)` of the Filesystem TS: the name is appended to the
   * directory, never replacing it, with a `/` between them only when both are non-empty
   * and neither already supplies one at the seam.
   */
  function Join(dir: string, name: string): (r: string)
    ensures r == dir + name || r == dir + "/" + name
    ensures r == dir + "/" + name <==>
      dir != [] && name != [] && dir[|dir| - 1] != '/' && name[0] != '/'
  {
    if dir == [] || name == [] then dir + name
    else if dir[|dir| - 1] == '/' || name[0] == '/' then dir + name
    else dir + "/" + name
  }

  /** An absolute name is appended below the directory, and an empty name leaves the directory as it is. */
  lemma JoinKeepsDirectory()
    ensures Join("shaders", "/common.glsl") == "shaders/common.glsl"
    ensures Join("shaders", "") == "shaders"
    ensures Join("shaders", "common.glsl") == "shaders/common.glsl"
    ensures Join("shaders/", "common.glsl") == "shaders/common.glsl"
  {
  }

  /** The file a line includes: the stripped token after `#include`, relative to the including file's directory. */
  function IncludedFile(path: string, line: string): Option<string>
  {
    match Find(line, INCLUDE_STRING, 0)
    case None => None
    case Some(pos) =>
      match FirstNonSpace(line, pos + |INCLUDE_STRING|)
      case None => None
      case Some(start) => Some(Join(ParentPath(path), StrippedName(line[start..])))
  }

  // ---------------------------------------------------------------------------------
  // The preprocessor as a definition.

  /**
   * What parsing contributes: the include-once set afterwards, the lines appended (each
   * gets a `'\n'`), and the files whose lines were read, in order.
   */
  datatype Parsed = Parsed(included: set<string>, emitted: seq<string>, spliced: seq<string>)

  /** `done` followed by `rest`. */
  function After(done: Parsed, rest: Result<Parsed, string>): Result<Parsed, string>
  {
    match rest
    case Err(e) => Err(e)
    case Ok(r) => Ok(Parsed(r.included, done.emitted + r.emitted, done.spliced + r.spliced))
  }

  lemma LessLeftToInclude(fs: FileSystem, path: string, included: set<string>, outer: set<string>)
    requires path in fs && outer <= included && path in included && path !in outer
    ensures |fs.Keys - included| < |fs.Keys - outer|
  {
    var left, before := fs.Keys - included, fs.Keys - outer;
    assert left <= before - {path};
    SubsetCardinality(left, before - {path});
  }

  lemma {:induction false} SubsetCardinality(a: set<string>, b: set<string>)
    requires a <= b
    ensures |a| <= |b|
    decreases |a|
  {
    if a != {} {
      var x :| x in a;
      SubsetCardinality(a - {x}, b - {x});
    }
  }

  /**
   * `parse_recursively(file_path, files_already_included, ...)`: a missing file fails
   * first, even one already included; an included file contributes nothing; otherwise
   * the file is marked and its lines are processed.
   */
  function ParseFile(fs: FileSystem, path: string, included: set<string>): (r: Result<Parsed, string>)
    ensures r.Ok? ==> included <= r.value.included
    decreases |fs.Keys - included|, 1, 0
  {
    if path !in fs then Err(path)
    else if path in included then Ok(Parsed(included, [], []))
    else After(Parsed(included + {path}, [], [path]), ParseLines(fs, path, 0, included + {path}, included))
  }

  /**
   * The lines of `path` from line k: blank lines are skipped, an `#include` line is
   * never copied and splices the named file when a name follows, every other line is
   * copied.
   */
  function ParseLines(fs: FileSystem, path: string, k: nat, included: set<string>, outer: set<string>)
    : (r: Result<Parsed, string>)
    requires path in fs && k <= |fs[path]| && outer <= included && path in included && path !in outer
    ensures r.Ok? ==> included <= r.value.included
    decreases |fs.Keys - outer|, 0, |fs[path]| - k
  {
    if k == |fs[path]| then Ok(Parsed(included, [], []))
    else
      var line := fs[path][k];
      if Blank(line) then ParseLines(fs, path, k + 1, included, outer)
      else if Find(line, INCLUDE_STRING, 0).Some? then
        match IncludedFile(path, line)
        case None => ParseLines(fs, path, k + 1, included, outer)
        case Some(child) =>
          LessLeftToInclude(fs, path, included, outer);
          match ParseFile(fs, child, included)
          case Err(e) => Err(e)
          case Ok(p) => After(p, ParseLines(fs, path, k + 1, p.included, outer))
      else After(Parsed(included, [line], []), ParseLines(fs, path, k + 1, included, outer))
  }

  /** The text of the appended lines. */
  function Flatten(lines: seq<string>): string
  {
    if lines == [] then [] else Flatten(lines[..|lines| - 1]) + lines[|lines| - 1] + "\n"
  }

  lemma {:induction false} FlattenAppend(a: seq<string>, b: seq<string>)
    ensures Flatten(a + b) == Flatten(a) + Flatten(b)
    decreases |b|
  {
    if b == [] {
      assert a + b == a;
    } else {
      assert (a + b)[..|a + b| - 1] == a + b[..|b| - 1];
      assert (a + b)[|a + b| - 1] == b[|b| - 1];
      FlattenAppend(a, b[..|b| - 1]);
    }
  }

  /** A blank line, or an `#include` with nothing after it, adds nothing. */
  lemma StepSkip(fs: FileSystem, path: string, k: nat, included: set<string>, outer: set<string>)
    requires path in fs && k < |fs[path]| && outer <= included && path in included && path !in outer
    requires Blank(fs[path][k]) || (Find(fs[path][k], INCLUDE_STRING, 0).Some? && IncludedFile(path, fs[path][k]).None?)
    ensures ParseLines(fs, path, k, included, outer) == ParseLines(fs, path, k + 1, included, outer)
  {
  }

  /** A plain line is appended. */
  lemma StepPlain(fs: FileSystem, path: string, k: nat, included: set<string>, outer: set<string>, done: Parsed)
    requires path in fs && k < |fs[path]| && outer <= included && path in included && path !in outer
    requires IsPlain(fs[path][k])
    ensures After(done, ParseLines(fs, path, k, included, outer))
         == After(Parsed(included, done.emitted + [fs[path][k]], done.spliced), ParseLines(fs, path, k + 1, included, outer))
  {
    var rest := ParseLines(fs, path, k + 1, included, outer);
    if rest.Ok? {
      assert done.emitted + ([fs[path][k]] + rest.value.emitted) == done.emitted + [fs[path][k]] + rest.value.emitted;
      assert done.spliced + ([] + rest.value.spliced) == done.spliced + rest.value.spliced;
    }
  }

  /** An `#include` line splices the named file, or fails with it. */
  lemma StepInclude(fs: FileSystem, path: string, k: nat, included: set<string>, outer: set<string>, done: Parsed,
                    child: string)
    requires path in fs && k < |fs[path]| && outer <= included && path in included && path !in outer
    requires !Blank(fs[path][k]) && IncludedFile(path, fs[path][k]) == Some(child)
    ensures ParseFile(fs, child, included).Err? ==>
      ParseLines(fs, path, k, included, outer) == Err(ParseFile(fs, child, included).error)
    ensures ParseFile(fs, child, included).Ok? ==>
      var p := ParseFile(fs, child, included).value;
      After(done, ParseLines(fs, path, k, included, outer))
        == After(Parsed(p.included, done.emitted + p.emitted, done.spliced + p.spliced),
                 ParseLines(fs, path, k + 1, p.included, outer))
  {
    var r := ParseFile(fs, child, included);
    if r.Ok? {
      var p := r.value;
      var rest := ParseLines(fs, path, k + 1, p.included, outer);
      if rest.Ok? {
        assert done.emitted + (p.emitted + rest.value.emitted) == done.emitted + p.emitted + rest.value.emitted;
        assert done.spliced + (p.spliced + rest.value.spliced) == done.spliced + p.spliced + rest.value.spliced;
      }
    }
  }

  // ---------------------------------------------------------------------------------
  // Properties of the preprocessor.

  /** A missing file fails, even when its path is already in the include-once set. */
  lemma MissingFileFailsFirst(fs: FileSystem, path: string, included: set<string>)
    requires path !in fs
    ensures ParseFile(fs, path, included) == Err(path)
  {
  }

  /** An already included file contributes nothing and leaves the set as it was. */
  lemma IncludedFileContributesNothing(fs: FileSystem, path: string, included: set<string>)
    requires path in fs && path in included
    ensures ParseFile(fs, path, included) == Ok(Parsed(included, [], []))
  {
  }

  ghost predicate Distinct(s: seq<string>)
  {
    forall i, j :: 0 <= i < j < |s| ==> s[i] != s[j]
  }

  /** Every emitted line is a plain line of one of the files. */
  ghost predicate LinesFrom(fs: FileSystem, emitted: seq<string>, files: seq<string>)
  {
    forall l :: l in emitted ==> IsPlain(l) && exists f :: f in files && f in fs && l in fs[f]
  }

  /**
   * What a parse that started from `included` leaves is sound: each spliced file was
   * new and is spliced once, the set grows by exactly the spliced files, and every
   * emitted line is a plain line of a spliced file (or of `current`).
   */
  ghost predicate Sound(fs: FileSystem, included: set<string>, p: Parsed, current: seq<string>)
  {
    && Distinct(p.spliced)
    && included <= p.included
    && (forall f :: f in p.spliced <==> f in p.included && f !in included)
    && LinesFrom(fs, p.emitted, current + p.spliced)
  }

  lemma DistinctAppend(a: seq<string>, b: seq<string>)
    requires Distinct(a) && Distinct(b) && forall f :: f in a ==> f !in b
    ensures Distinct(a + b)
  {
    forall i, j | 0 <= i < j < |a + b|
      ensures (a + b)[i] != (a + b)[j]
    {
      if i < |a| && j >= |a| {
        assert (a + b)[i] in a && (a + b)[j] in b;
      }
    }
  }

  lemma LinesFromWiden(fs: FileSystem, emitted: seq<string>, files: seq<string>, wider: seq<string>)
    requires LinesFrom(fs, emitted, files) && forall f :: f in files ==> f in wider
    ensures LinesFrom(fs, emitted, wider)
  {
  }

  lemma LinesFromAppend(fs: FileSystem, a: seq<string>, b: seq<string>, files: seq<string>)
    requires LinesFrom(fs, a, files) && LinesFrom(fs, b, files)
    ensures LinesFrom(fs, a + b, files)
  {
  }

  /** Parsing a file is sound: include-once holds and nothing but plain lines is emitted. */
  lemma {:induction false} ParseFileSound(fs: FileSystem, path: string, included: set<string>)
    ensures ParseFile(fs, path, included).Ok? ==> Sound(fs, included, ParseFile(fs, path, included).value, [])
    decreases |fs.Keys - included|, 1, 0
  {
    if path in fs && path !in included {
      var start := included + {path};
      var rest := ParseLines(fs, path, 0, start, included);
      ParseLinesSound(fs, path, 0, start, included);
      if rest.Ok? {
        var q := rest.value;
        var p := ParseFile(fs, path, included).value;
        assert p == Parsed(q.included, q.emitted, [path] + q.spliced);
        DistinctAppend([path], q.spliced);
        LinesFromWiden(fs, q.emitted, [path] + q.spliced, [] + p.spliced);
      }
    }
  }

  lemma {:induction false} ParseLinesSound(fs: FileSystem, path: string, k: nat, included: set<string>, outer: set<string>)
    requires path in fs && k <= |fs[path]| && outer <= included && path in included && path !in outer
    ensures ParseLines(fs, path, k, included, outer).Ok? ==>
      Sound(fs, included, ParseLines(fs, path, k, included, outer).value, [path])
    decreases |fs.Keys - outer|, 0, |fs[path]| - k
  {
    if k < |fs[path]| {
      var line := fs[path][k];
      if Blank(line) {
        ParseLinesSound(fs, path, k + 1, included, outer);
      } else if Find(line, INCLUDE_STRING, 0).Some? {
        match IncludedFile(path, line)
        case None =>
          ParseLinesSound(fs, path, k + 1, included, outer);
        case Some(child) =>
          LessLeftToInclude(fs, path, included, outer);
          var r := ParseFile(fs, child, included);
          ParseFileSound(fs, child, included);
          if r.Ok? {
            var p := r.value;
            var rest := ParseLines(fs, path, k + 1, p.included, outer);
            ParseLinesSound(fs, path, k + 1, p.included, outer);
            if rest.Ok? {
              var q := rest.value;
              DistinctAppend(p.spliced, q.spliced);
              LinesFromWiden(fs, p.emitted, [] + p.spliced, [path] + (p.spliced + q.spliced));
              LinesFromWiden(fs, q.emitted, [path] + q.spliced, [path] + (p.spliced + q.spliced));
              LinesFromAppend(fs, p.emitted, q.emitted, [path] + (p.spliced + q.spliced));
            }
          }
      } else {
        var rest := ParseLines(fs, path, k + 1, included, outer);
        ParseLinesSound(fs, path, k + 1, included, outer);
        if rest.Ok? {
          var q := rest.value;
          assert line in fs[path];
          assert LinesFrom(fs, [line], [path] + q.spliced);
          LinesFromAppend(fs, [line], q.emitted, [path] + q.spliced);
        }
      }
    }
  }

  /** The plain lines of `lines` from position k, in order. */
  function PlainLines(lines: seq<string>, k: nat): seq<string>
    requires k <= |lines|
    decreases |lines| - k
  {
    if k == |lines| then [] else (if IsPlain(lines[k]) then [lines[k]] else []) + PlainLines(lines, k + 1)
  }

  /** A file without `#include` lines emits exactly its plain lines, in order, and includes only itself. */
  lemma NoIncludesCopiesPlainLines(fs: FileSystem, path: string)
    requires path in fs && forall k :: 0 <= k < |fs[path]| ==> Find(fs[path][k], INCLUDE_STRING, 0).None?
    ensures ParseFile(fs, path, {}) == Ok(Parsed({path}, PlainLines(fs[path], 0), [path]))
  {
    assert {} + {path} == {path};
    NoIncludeLines(fs, path, 0, {path}, {});
    var lines := PlainLines(fs[path], 0);
    assert [] + lines == lines && [path] + [] == [path];
  }

  lemma {:induction false} NoIncludeLines(fs: FileSystem, path: string, k: nat, included: set<string>, outer: set<string>)
    requires path in fs && k <= |fs[path]| && outer <= included && path in included && path !in outer
    requires forall j :: k <= j < |fs[path]| ==> Find(fs[path][j], INCLUDE_STRING, 0).None?
    ensures ParseLines(fs, path, k, included, outer) == Ok(Parsed(included, PlainLines(fs[path], k), []))
    decreases |fs[path]| - k
  {
    if k < |fs[path]| {
      NoIncludeLines(fs, path, k + 1, included, outer);
      var line := fs[path][k];
      var rest := PlainLines(fs[path], k + 1);
      if IsPlain(line) {
        assert PlainLines(fs[path], k) == [line] + rest;
        var none: seq<string> := [];
        assert none + none == none;
      } else {
        assert Blank(line);
        assert PlainLines(fs[path], k) == [] + rest == rest;
      }
    }
  }

  // ---------------------------------------------------------------------------------
  // The methods.

  /**
   * `parse_recursively`: the include-once set and the output string are in/out
   * parameters; a missing file ends the whole parse with its path as the error, leaving
   * what was already appended.
   */
  method ParseRecursively(fs: FileSystem, filePath: string, included0: set<string>, out0: string)
    returns (included: set<string>, out: string, err: Option<string>)
    ensures included0 <= included
    ensures var r := ParseFile(fs, filePath, included0);
      && (r.Err? ==> err == Some(r.error) && out0 <= out)
      && (r.Ok? ==> err.None? && included == r.value.included && out == out0 + Flatten(r.value.emitted))
    decreases |fs.Keys - included0|, 2
  {
    included, out, err := included0, out0, None;
    if filePath !in fs {
      err := Some(filePath);
      return;
    }
    if filePath in included {
      return;
    }
    included := included + {filePath};

    var lines := fs[filePath];
    ghost var done := Parsed(included, [], [filePath]);
    assert Flatten(done.emitted) == [] && out == out0 + [];
    var k := 0;
    while k < |lines|
      invariant 0 <= k <= |lines| && included0 + {filePath} <= included && err.None?
      invariant After(done, ParseLines(fs, filePath, k, included, included0)) == ParseFile(fs, filePath, included0)
      invariant out == out0 + Flatten(done.emitted)
    {
      var lineErr;
      included, out, lineErr, done := ProcessLine(fs, filePath, k, included, out, included0, done, out0);
      if lineErr.Some? {
        err := lineErr;
        return;
      }
      k := k + 1;
    }
    assert done.emitted + [] == done.emitted && done.spliced + [] == done.spliced;
  }

  /**
   * The body of the line loop of `parse_recursively` for line k: a blank line is
   * skipped; a line with `#include` is not copied, and the file named after it is
   * parsed in place; any other line is appended with a `'\n'`.
   */
  method ProcessLine(fs: FileSystem, filePath: string, k: nat, included0: set<string>, out0: string,
                     ghost outer: set<string>, ghost done0: Parsed, ghost base: string)
    returns (included: set<string>, out: string, err: Option<string>, ghost done: Parsed)
    requires filePath in fs && k < |fs[filePath]| && outer <= included0 && filePath in included0 && filePath !in outer
    requires out0 == base + Flatten(done0.emitted)
    ensures included0 <= included && base <= out
    ensures err.Some? ==> ParseLines(fs, filePath, k, included0, outer) == Err(err.value)
    ensures err.None? ==>
      && After(done0, ParseLines(fs, filePath, k, included0, outer)) == After(done, ParseLines(fs, filePath, k + 1, included, outer))
      && out == base + Flatten(done.emitted)
    decreases |fs.Keys - outer|, 1
  {
    included, out, err, done := included0, out0, None, done0;
    var line := fs[filePath][k];
    if Blank(line) {
      StepSkip(fs, filePath, k, included, outer);
      return;
    }
    var pos := Find(line, INCLUDE_STRING, 0);
    if pos.None? {
      out, done := AppendLine(fs, filePath, k, included, out, outer, done, base);
      return;
    }
    var child := IncludeTarget(filePath, line, pos.value);
    if child.None? {
      StepSkip(fs, filePath, k, included, outer);
      return;
    }
    included, out, err, done := SpliceInclude(fs, filePath, k, child.value, included, out, outer, done, base);
  }

  /**
   * The name handling of an `#include` line whose directive starts at `pos`: the first
   * non-space after the directive starts the token, whose stripped name is joined to
   * the including file's directory; nothing after the directive means no include.
   */
  method IncludeTarget(filePath: string, line: string, pos: nat) returns (child: Option<string>)
    requires Find(line, INCLUDE_STRING, 0) == Some(pos)
    ensures child == IncludedFile(filePath, line)
  {
    var start := FirstNonSpace(line, pos + |INCLUDE_STRING|);
    if start.None? {
      return None;
    }
    var fileName := StripQuotes(line[start.value..], "");
    assert fileName == StrippedName(line[start.value..]);
    child := Some(Join(ParentPath(filePath), fileName));
  }

  /** A plain line of the loop: it is appended to the output followed by `'\n'`. */
  method AppendLine(fs: FileSystem, filePath: string, k: nat, included: set<string>, out0: string,
                    ghost outer: set<string>, ghost done0: Parsed, ghost base: string)
    returns (out: string, ghost done: Parsed)
    requires filePath in fs && k < |fs[filePath]| && outer <= included && filePath in included && filePath !in outer
    requires IsPlain(fs[filePath][k])
    requires out0 == base + Flatten(done0.emitted)
    ensures base <= out && out == base + Flatten(done.emitted)
    ensures After(done0, ParseLines(fs, filePath, k, included, outer)) == After(done, ParseLines(fs, filePath, k + 1, included, outer))
  {
    var line := fs[filePath][k];
    StepPlain(fs, filePath, k, included, outer, done0);
    FlattenSnoc(base, done0.emitted, line);
    done := Parsed(included, done0.emitted + [line], done0.spliced);
    out := out0 + line + "\n";
  }

  /** Appending one line to the emitted lines appends it and a newline to the text. */
  lemma FlattenSnoc(base: string, emitted: seq<string>, line: string)
    ensures base + Flatten(emitted + [line]) == base + Flatten(emitted) + line + "\n"
    ensures base <= base + Flatten(emitted) + line + "\n"
  {
    var e := emitted + [line];
    assert e[..|e| - 1] == emitted;
  }

  /** The text after a spliced file is the text of both line lists. */
  lemma FlattenSplice(base: string, a: seq<string>, b: seq<string>, out0: string, out: string)
    requires out0 == base + Flatten(a) && out == out0 + Flatten(b)
    ensures out == base + Flatten(a + b) && base <= out
  {
    FlattenAppend(a, b);
  }

  /** Text that extends an extension of `base` extends `base`. */
  lemma PrefixTransitive(base: string, mid: string, out: string)
    requires base <= mid && mid <= out
    ensures base <= out
  {
  }

  /** The `#include` branch of the line loop: the named file is parsed in place. */
  method SpliceInclude(fs: FileSystem, filePath: string, k: nat, child: string, included0: set<string>, out0: string,
                       ghost outer: set<string>, ghost done0: Parsed, ghost base: string)
    returns (included: set<string>, out: string, err: Option<string>, ghost done: Parsed)
    requires filePath in fs && k < |fs[filePath]| && outer <= included0 && filePath in included0 && filePath !in outer
    requires !Blank(fs[filePath][k]) && IncludedFile(filePath, fs[filePath][k]) == Some(child)
    requires out0 == base + Flatten(done0.emitted)
    ensures included0 <= included && base <= out
    ensures err.Some? ==> ParseLines(fs, filePath, k, included0, outer) == Err(err.value)
    ensures err.None? ==>
      && After(done0, ParseLines(fs, filePath, k, included0, outer)) == After(done, ParseLines(fs, filePath, k + 1, included, outer))
      && out == base + Flatten(done.emitted)
    decreases |fs.Keys - outer|, 0
  {
    StepInclude(fs, filePath, k, included0, outer, done0, child);
    LessLeftToInclude(fs, filePath, included0, outer);
    ghost var r := ParseFile(fs, child, included0);
    included, out, err := ParseRecursively(fs, child, included0, out0);
    done := done0;
    if err.Some? {
      PrefixTransitive(base, out0, out);
      return;
    }
    FlattenSplice(base, done0.emitted, r.value.emitted, out0, out);
    done := Parsed(included, done0.emitted + r.value.emitted, done0.spliced + r.value.spliced);
  }

  /**
   * `parse(file_path, parsed_shader_string)`: every call starts with an empty
   * include-once set, so its output depends only on the file system and the path; it
   * is appended to the string passed in.
   */
  method Parse(fs: FileSystem, filePath: string, parsedShaderString: string) returns (out: string, err: Option<string>)
    ensures var r := ParseFile(fs, filePath, {});
      && (r.Err? ==> err == Some(r.error) && parsedShaderString <= out)
      && (r.Ok? ==> err.None? && out == parsedShaderString + Flatten(r.value.emitted))
  {
    var filesAlreadyIncluded: set<string> := {};
    filesAlreadyIncluded, out, err := ParseRecursively(fs, filePath, filesAlreadyIncluded, parsedShaderString);
  }
}
