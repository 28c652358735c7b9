/**
 * The requirements-file reader `get_requirements` (stanza/lib/parser.py).
 *
 * A file is read line by line. Each line is stripped; blank lines and
 * `#` comments are skipped; a line starting with `-r` includes another
 * file, whose records are yielded in place, depth-first; every other line
 * goes to the requirement parser as one requirement (`-e` lines included).
 * The generator is modelled by the Stream it produces. Include depth is
 * bounded by `depth`, standing for Python's recursion limit: nothing in
 * the reader stops an include cycle, so a cycle ends in RecursionLimit.
 */
module Parser {
  import opened Wrappers
  import opened PyStr
  import opened Paths
  import opened Streams

  /** `pkg_resources.Requirement.parse` (foreign): a record, or the message of the ValueError it raises. */
  type RequirementParser = string -> Result<Requirement, string>

  /** What the reader can see: each file's lines as text-mode iteration yields them, and the parser. */
  datatype Env = Env(files: map<Path, seq<string>>, parse: RequirementParser)

  const IncludeMarker := "-r"

  /** The branch the reader takes for a line; each kind carries the stripped line. */
  datatype LineKind = Blank | Comment | Include(line: string) | Spec(text: string)

  function Classify(line: string): LineKind {
    var l := Strip(line);
    if |l| == 0 then Blank
    else if l[0] == '#' then Comment
    else if |l| >= 2 && l[0] == '-' && l[1] == 'r' then Include(l)
    else Spec(l)
  }

  /** The classification, stated with Python's tests on the stripped line. */
  lemma ClassifyCases(line: string)
    ensures (forall k :: 0 <= k < |line| ==> IsSpace(line[k])) <==> Classify(line) == Blank
    ensures StartsWith(Strip(line), "#") ==> Classify(line) == Comment
    ensures StartsWith(Strip(line), IncludeMarker) ==> Classify(line) == Include(Strip(line))
    ensures Strip(line) != [] && !StartsWith(Strip(line), "#") && !StartsWith(Strip(line), IncludeMarker)
            ==> Classify(line) == Spec(Strip(line))
  {
    var l := Strip(line);
    StripSpec(line);
    if |l| >= 2 {
      assert StartsWith(l, IncludeMarker) <==> l[0] == '-' && l[1] == 'r' by {
        assert l[..2] == [l[0], l[1]];
      }
    }
    if |l| >= 1 {
      assert StartsWith(l, "#") <==> l[0] == '#' by {
        assert l[..1] == [l[0]];
      }
    }
  }

  /** The file an include names: the stripped line with every `-r` removed, stripped again. */
  function IncludeTarget(l: string): string {
    Strip(RemoveAll(l, IncludeMarker))
  }

  /**
   * The file an include target names: an absolute target as it stands,
   * any other target relative to the including file's directory.
   */
  function IncludeSource(dir: Path, target: string): (p: Path)
    ensures IsAbsolute(target) ==> p == target
  {
    // parser.py:27 hands the bare string to get_requirements; the intended
    // reading (an absolute path used as it is) is modelled here
    if IsAbsolute(target) then target else JoinPath(dir, target)
  }

  /** A relative one-component target names a file in the including file's directory. */
  lemma RelativeIncludeBesideIncluder(dir: Path, target: string)
    requires !IsAbsolute(target) && dir != "" && target != "" && target != "." && '/' !in target
    ensures Parent(IncludeSource(dir, target)) == dir && Name(IncludeSource(dir, target)) == target
  {
    JoinPathParentName(dir, target);
  }

  /**
   * Lines 25-31 as written: an absolute target is passed on as a `str`, and
   * the recursive call fails on `str.open` with an AttributeError.
   */
  function IncludeSourceAsWritten(dir: Path, target: string): (r: Result<Path, Error>)
    ensures r.Err? <==> IsAbsolute(target)
    ensures r.Ok? ==> r.value == IncludeSource(dir, target)
  {
    if IsAbsolute(target) then Err(AttributeError("'str' object has no attribute 'open'"))
    else Ok(JoinPath(dir, target))
  }

  /** One requirement line: one record, or the parser's error unwrapped. */
  function ParseOne(parse: RequirementParser, text: string): Stream {
    match parse(text)
    case Ok(r) => Stream([r], None)
    case Err(m) => Stream([], Some(InvalidRequirement(m)))
  }

  /** `except ValueError as err: raise Exception("Parsing line ...", l, err)` around an include. */
  function WrapValueError(line: string, s: Stream): Stream {
    if s.error.Some? && s.error.value.IsValueError()
    then Stream(s.records, Some(IncludeFailed(line, s.error.value)))
    else s
  }

  /** `get_requirements(path)` */
  function GetRequirements(env: Env, path: Path, depth: nat): Stream
    decreases depth, 2, 0
  {
    if path !in env.files then Stream([], Some(OSError(path)))
    else ProcessLines(env, Parent(path), env.files[path], depth)
  }

  /** The loop over the lines of a file in directory `dir`. */
  function ProcessLines(env: Env, dir: Path, lines: seq<string>, depth: nat): Stream
    decreases depth, 1, |lines|
  {
    if lines == [] then Empty
    else Then(HandleLine(env, dir, Classify(lines[0]), depth), ProcessLines(env, dir, lines[1..], depth))
  }

  /** One iteration of that loop, for a line already classified. */
  function HandleLine(env: Env, dir: Path, kind: LineKind, depth: nat): Stream
    decreases depth, 0, 0
  {
    match kind
    case Blank => Empty
    case Comment => Empty
    case Spec(text) => ParseOne(env.parse, text)
    case Include(l) =>
      if depth == 0 then Stream([], Some(RecursionLimit))
      else WrapValueError(l, GetRequirements(env, IncludeSource(dir, IncludeTarget(l)), depth - 1))
  }

  // ---------------------------------------------------------------------
  // Reference definition: the requirement texts of a file with every include
  // expanded depth-first, in place; None when a file is missing or the
  // includes nest deeper than `depth`. Parsing is kept apart.

  function Expand(files: map<Path, seq<string>>, path: Path, depth: nat): Option<seq<string>>
    decreases depth, 2, 0
  {
    if path !in files then None
    else ExpandLines(files, Parent(path), files[path], depth)
  }

  function ExpandLines(files: map<Path, seq<string>>, dir: Path, lines: seq<string>, depth: nat): Option<seq<string>>
    decreases depth, 1, |lines|
  {
    if lines == [] then Some([])
    else
      match (ExpandLine(files, dir, Classify(lines[0]), depth), ExpandLines(files, dir, lines[1..], depth))
      case (Some(head), Some(tail)) => Some(head + tail)
      case _ => None
  }

  function ExpandLine(files: map<Path, seq<string>>, dir: Path, kind: LineKind, depth: nat): Option<seq<string>>
    decreases depth, 0, 0
  {
    match kind
    case Blank => Some([])
    case Comment => Some([])
    case Spec(text) => Some([text])
    case Include(l) =>
      if depth == 0 then None else Expand(files, IncludeSource(dir, IncludeTarget(l)), depth - 1)
  }

  /** Parsing every text: the records in order, or None if any text fails to parse. */
  function ParseEach(parse: RequirementParser, texts: seq<string>): (r: Option<seq<Requirement>>)
    ensures r.Some? <==> forall i :: 0 <= i < |texts| ==> parse(texts[i]).Ok?
    ensures r.Some? ==> |r.value| == |texts| && forall i :: 0 <= i < |texts| ==> parse(texts[i]) == Ok(r.value[i])
    decreases |texts|
  {
    if texts == [] then Some([])
    else
      match parse(texts[0])
      case Err(_) => None
      case Ok(rec) =>
        match ParseEach(parse, texts[1..])
        case None => None
        case Some(rest) => Some([rec] + rest)
  }

  lemma {:induction false} ParseEachAppend(parse: RequirementParser, a: seq<string>, b: seq<string>)
    ensures ParseEach(parse, a + b).Some? <==> ParseEach(parse, a).Some? && ParseEach(parse, b).Some?
    ensures ParseEach(parse, a + b).Some? ==>
              ParseEach(parse, a + b).value == ParseEach(parse, a).value + ParseEach(parse, b).value
  {
    var ab := ParseEach(parse, a + b);
    if ab.Some? {
      var pa, pb := ParseEach(parse, a), ParseEach(parse, b);
      assert forall i :: 0 <= i < |a| ==> parse(a[i]).Ok? by {
        forall i | 0 <= i < |a| ensures parse(a[i]).Ok? { assert a[i] == (a + b)[i]; }
      }
      assert forall i :: 0 <= i < |b| ==> parse(b[i]).Ok? by {
        forall i | 0 <= i < |b| ensures parse(b[i]).Ok? { assert b[i] == (a + b)[|a| + i]; }
      }
      var joined := pa.value + pb.value;
      assert |ab.value| == |joined|;
      forall i | 0 <= i < |joined| ensures ab.value[i] == joined[i] {
        if i < |a| {
          assert (a + b)[i] == a[i];
        } else {
          assert (a + b)[i] == b[i - |a|];
        }
      }
    } else {
      var i :| 0 <= i < |a + b| && !parse((a + b)[i]).Ok?;
      if i < |a| {
        assert (a + b)[i] == a[i];
      } else {
        assert (a + b)[i] == b[i - |a|];
      }
    }
  }

  /**
   * The reader agrees with the reference: it runs to the end exactly when
   * every file exists, includes nest at most `depth` deep and every
   * requirement text parses, and then it yields one record per requirement
   * line of the expansion, in order, with nothing merged or dropped.
   */
  lemma {:induction false} GetRequirementsMatchesExpansion(env: Env, path: Path, depth: nat)
    ensures var s := GetRequirements(env, path, depth);
            var e := Expand(env.files, path, depth);
            (s.error == None <==> e.Some? && ParseEach(env.parse, e.value).Some?)
            && (s.error == None ==> s.records == ParseEach(env.parse, e.value).value && |s.records| == |e.value|)
    decreases depth, 2, 0
  {
    if path in env.files {
      ProcessLinesMatchesExpansion(env, Parent(path), env.files[path], depth);
    }
  }

  lemma {:induction false} ProcessLinesMatchesExpansion(env: Env, dir: Path, lines: seq<string>, depth: nat)
    ensures var s := ProcessLines(env, dir, lines, depth);
            var e := ExpandLines(env.files, dir, lines, depth);
            (s.error == None <==> e.Some? && ParseEach(env.parse, e.value).Some?)
            && (s.error == None ==> s.records == ParseEach(env.parse, e.value).value)
    decreases depth, 1, |lines|
  {
    if lines != [] {
      var kind := Classify(lines[0]);
      HandleLineMatchesExpansion(env, dir, kind, depth);
      ProcessLinesMatchesExpansion(env, dir, lines[1..], depth);
      var e1 := ExpandLine(env.files, dir, kind, depth);
      var e2 := ExpandLines(env.files, dir, lines[1..], depth);
      if e1.Some? && e2.Some? {
        ParseEachAppend(env.parse, e1.value, e2.value);
      }
    }
  }

  lemma {:induction false} HandleLineMatchesExpansion(env: Env, dir: Path, kind: LineKind, depth: nat)
    ensures var s := HandleLine(env, dir, kind, depth);
            var e := ExpandLine(env.files, dir, kind, depth);
            (s.error == None <==> e.Some? && ParseEach(env.parse, e.value).Some?)
            && (s.error == None ==> s.records == ParseEach(env.parse, e.value).value)
    decreases depth, 0, 0
  {
    match kind
    case Blank =>
    case Comment =>
    case Spec(text) =>
      ParseOneMatches(env.parse, text);
    case Include(l) =>
      if depth > 0 {
        GetRequirementsMatchesExpansion(env, IncludeSource(dir, IncludeTarget(l)), depth - 1);
      }
  }

  lemma ParseOneMatches(parse: RequirementParser, text: string)
    ensures var s := ParseOne(parse, text);
            (s.error == None <==> ParseEach(parse, [text]).Some?)
            && (s.error == None ==> s.records == ParseEach(parse, [text]).value)
  {
    assert [text][0] == text && [text][1..] == [];
  }

  // ---------------------------------------------------------------------
  // Line-by-line behaviour

  /** The reader is a concatenation over the lines: a file read in two parts reads as the parts in turn. */
  lemma {:induction false} ProcessLinesAppend(env: Env, dir: Path, a: seq<string>, b: seq<string>, depth: nat)
    ensures ProcessLines(env, dir, a + b, depth)
            == Then(ProcessLines(env, dir, a, depth), ProcessLines(env, dir, b, depth))
    decreases |a|
  {
    if a == [] {
      assert a + b == b;
      ThenEmpty(ProcessLines(env, dir, b, depth));
    } else {
      assert (a + b)[0] == a[0];
      assert (a + b)[1..] == a[1..] + b;
      ProcessLinesAppend(env, dir, a[1..], b, depth);
      ThenAssociative(HandleLine(env, dir, Classify(a[0]), depth), ProcessLines(env, dir, a[1..], depth),
                      ProcessLines(env, dir, b, depth));
    }
  }

  /** The stream of the file `a + [line] + b`, split around `line`. */
  lemma AroundLine(env: Env, dir: Path, a: seq<string>, line: string, b: seq<string>, depth: nat)
    ensures ProcessLines(env, dir, a + [line] + b, depth)
            == Then(ProcessLines(env, dir, a, depth),
                    Then(HandleLine(env, dir, Classify(line), depth), ProcessLines(env, dir, b, depth)))
  {
    ProcessLinesAppend(env, dir, a, [line] + b, depth);
    assert a + [line] + b == a + ([line] + b);
    assert ([line] + b)[0] == line && ([line] + b)[1..] == b;
  }

  /**
   * A line that is empty or all whitespace, or whose stripped text starts
   * with `#`, yields nothing: the file reads as if the line were absent.
   */
  lemma SkippedLine(env: Env, dir: Path, a: seq<string>, line: string, b: seq<string>, depth: nat)
    requires (forall k :: 0 <= k < |line| ==> IsSpace(line[k])) || StartsWith(Strip(line), "#")
    ensures ProcessLines(env, dir, a + [line] + b, depth) == ProcessLines(env, dir, a + b, depth)
  {
    ClassifyCases(line);
    AroundLine(env, dir, a, line, b, depth);
    ProcessLinesAppend(env, dir, a, b, depth);
    ThenEmpty(ProcessLines(env, dir, b, depth));
  }

  /**
   * Any other line not starting with `-r` (an `-e` line included) goes to
   * the requirement parser as its stripped text: its record comes out
   * between those of the lines before and after it, or the parser's error
   * ends the stream unwrapped.
   */
  lemma RequirementLineInPlace(env: Env, dir: Path, a: seq<string>, line: string, b: seq<string>, depth: nat)
    requires Strip(line) != [] && !StartsWith(Strip(line), "#") && !StartsWith(Strip(line), IncludeMarker)
    requires ProcessLines(env, dir, a, depth).error == None
    ensures var before, after := ProcessLines(env, dir, a, depth), ProcessLines(env, dir, b, depth);
            var all := ProcessLines(env, dir, a + [line] + b, depth);
            var parsed := env.parse(Strip(line));
            (parsed.Ok? ==> all == Stream(before.records + [parsed.value] + after.records, after.error))
            && (parsed.Err? ==> all == Stream(before.records, Some(InvalidRequirement(parsed.error))))
  {
    ClassifyCases(line);
    AroundLine(env, dir, a, line, b, depth);
    var before, after := ProcessLines(env, dir, a, depth), ProcessLines(env, dir, b, depth);
    var parsed := env.parse(Strip(line));
    assert HandleLine(env, dir, Classify(line), depth) == ParseOne(env.parse, Strip(line));
    if parsed.Ok? {
      assert before.records + [parsed.value] + after.records == before.records + ([parsed.value] + after.records);
    } else {
      assert before.records + [] == before.records;
    }
  }

  /**
   * A `-r` line of the file at `path`: its target is the stripped line with
   * every `-r` removed, stripped again; an absolute target is read as it
   * stands and any other one next to the including file. The included
   * file's records come out where the line stands, before every later
   * line. A ValueError from the included file is re-raised wrapped in a
   * generic error naming the line; any other error passes unchanged.
   */
  lemma IncludeExpandsInPlace(env: Env, path: Path, a: seq<string>, line: string, b: seq<string>, depth: nat)
    requires path in env.files && env.files[path] == a + [line] + b
    requires StartsWith(Strip(line), IncludeMarker) && depth > 0
    requires ProcessLines(env, Parent(path), a, depth).error == None
    ensures var dir := Parent(path);
            var l := Strip(line);
            var target := Strip(RemoveAll(l, "-r"));
            var inner := GetRequirements(env, if IsAbsolute(target) then target else JoinPath(dir, target), depth - 1);
            var before, after := ProcessLines(env, dir, a, depth), ProcessLines(env, dir, b, depth);
            var all := GetRequirements(env, path, depth);
            (inner.error == None ==> all == Stream(before.records + inner.records + after.records, after.error))
            && (inner.error.Some? ==>
                  all == Stream(before.records + inner.records,
                                Some(if inner.error.value.IsValueError()
                                     then IncludeFailed(l, inner.error.value) else inner.error.value)))
  {
    var dir := Parent(path);
    ClassifyCases(line);
    AroundLine(env, dir, a, line, b, depth);
    var l := Strip(line);
    var inner := GetRequirements(env, IncludeSource(dir, IncludeTarget(l)), depth - 1);
    assert HandleLine(env, dir, Classify(line), depth) == WrapValueError(l, inner);
    var before, after := ProcessLines(env, dir, a, depth), ProcessLines(env, dir, b, depth);
    if inner.error == None {
      assert before.records + inner.records + after.records == before.records + (inner.records + after.records);
    }
  }

  // ---------------------------------------------------------------------
  // What the reader can raise

  /**
   * The exceptions `get_requirements` can end with: the parser's error
   * (unwrapped), a missing file, the recursion limit, or the parser's error
   * wrapped once, by the include line of the file that includes the file
   * holding the bad line.
   */
  predicate Raisable(e: Error) {
    e.InvalidRequirement? || e.OSError? || e.RecursionLimit?
    || (e.IncludeFailed? && e.cause.InvalidRequirement?)
  }

  lemma {:induction false} GetRequirementsRaises(env: Env, path: Path, depth: nat)
    ensures var s := GetRequirements(env, path, depth); s.error.Some? ==> Raisable(s.error.value)
    decreases depth, 2, 0
  {
    if path in env.files {
      ProcessLinesRaises(env, Parent(path), env.files[path], depth);
    }
  }

  lemma {:induction false} ProcessLinesRaises(env: Env, dir: Path, lines: seq<string>, depth: nat)
    ensures var s := ProcessLines(env, dir, lines, depth); s.error.Some? ==> Raisable(s.error.value)
    decreases depth, 1, |lines|
  {
    if lines != [] {
      HandleLineRaises(env, dir, Classify(lines[0]), depth);
      ProcessLinesRaises(env, dir, lines[1..], depth);
    }
  }

  lemma {:induction false} HandleLineRaises(env: Env, dir: Path, kind: LineKind, depth: nat)
    ensures var s := HandleLine(env, dir, kind, depth); s.error.Some? ==> Raisable(s.error.value)
    decreases depth, 0, 0
  {
    if kind.Include? && depth > 0 {
      GetRequirementsRaises(env, IncludeSource(dir, IncludeTarget(kind.line)), depth - 1);
    }
  }

  // ---------------------------------------------------------------------
  // Worked cases

  /** A line that is `-r` and more, with no whitespace around it, is an include of that whole line. */
  lemma IncludeLine(rest: string)
    requires rest != [] && !IsSpace(rest[|rest| - 1])
    ensures Classify(IncludeMarker + rest) == Include(IncludeMarker + rest)
  {
    StripUnchanged(IncludeMarker + rest);
  }

  /**
   * Every `-r` goes from an include line, not only the leading one:
   * `-r my-reqs.txt` (x = `my`, y = `eqs.txt`) includes `myeqs.txt`.
   */
  lemma IncludeTargetLosesEveryMarker(x: string, y: string)
    requires x != [] && y != [] && !IsSpace(x[0]) && !IsSpace(y[|y| - 1])
    requires '-' !in x && '-' !in y
    ensures var line := IncludeMarker + " " + x + IncludeMarker + y;
            Classify(line) == Include(line) && IncludeTarget(line) == x + y
  {
    var rest := [' '] + (x + (IncludeMarker + y));
    assert IncludeMarker + " " + x + IncludeMarker + y == IncludeMarker + rest;
    IncludeLine(rest);
    MarkersRemoved(x, y);
    StripLeadingSpace(' ', x + y);
    StripUnchanged(x + y);
  }

  lemma MarkersRemoved(x: string, y: string)
    requires '-' !in x && '-' !in y
    ensures RemoveAll(IncludeMarker + ([' '] + (x + (IncludeMarker + y))), IncludeMarker) == [' '] + (x + y)
  {
    RemoveAllLeading(IncludeMarker, [' '] + (x + (IncludeMarker + y)));
    RemoveAllKeep(' ', x + (IncludeMarker + y), IncludeMarker);
    RemoveAllKeepPrefix(x, IncludeMarker + y, IncludeMarker);
    RemoveAllLeading(IncludeMarker, y);
    RemoveAllWithoutLead(y, IncludeMarker);
  }

  /** An editable line (`-e <target>`) is not skipped: it reaches the requirement parser whole. */
  lemma EditableLineIsParsed(target: string)
    requires target != [] && !IsSpace(target[|target| - 1])
    ensures Classify("-e " + target) == Spec("-e " + target)
  {
    StripUnchanged("-e " + target);
  }

  /** An absolute include target: the code as written fails where the intended reading opens the file. */
  lemma AbsoluteIncludeAsWritten()
    ensures IncludeSourceAsWritten("reqs", "/etc/base.txt").Err?
    ensures IncludeSource("reqs", "/etc/base.txt") == "/etc/base.txt"
  {
  }

  /**
   * A file whose first line includes the file itself (`-r loop.txt` in
   * `loop.txt`): nothing stops the cycle, and the reader ends in the
   * recursion limit with no record at every depth.
   */
  lemma {:induction false} SelfIncludeHitsLimit(env: Env, path: Path, l: string, depth: nat)
    requires path in env.files && env.files[path] != [] && Classify(env.files[path][0]) == Include(l)
    requires IncludeSource(Parent(path), IncludeTarget(l)) == path
    ensures GetRequirements(env, path, depth) == Stream([], Some(RecursionLimit))
  {
    var lines := env.files[path];
    var first := HandleLine(env, Parent(path), Include(l), depth);
    if depth > 0 {
      SelfIncludeHitsLimit(env, path, l, depth - 1);
      assert first == GetRequirements(env, path, depth - 1);
    }
    assert first == Stream([], Some(RecursionLimit));
    assert ProcessLines(env, Parent(path), lines, depth)
           == Then(first, ProcessLines(env, Parent(path), lines[1..], depth));
  }

  /** The same, for a file that names itself by its own name in its own directory. */
  lemma SelfIncludeByName(env: Env, dir: Path, name: string, depth: nat)
    requires dir != "" && name != "" && name != "." && '/' !in name && '-' !in name && !IsAbsolute(name)
    requires !IsSpace(name[0]) && !IsSpace(name[|name| - 1])
    requires JoinPath(dir, name) in env.files && env.files[JoinPath(dir, name)] != []
    requires env.files[JoinPath(dir, name)][0] == IncludeMarker + " " + name
    ensures GetRequirements(env, JoinPath(dir, name), depth) == Stream([], Some(RecursionLimit))
  {
    var line := IncludeMarker + " " + name;
    assert line == IncludeMarker + ([' '] + name);
    IncludeLine([' '] + name);
    RemoveAllLeading(IncludeMarker, [' '] + name);
    RemoveAllWithoutLead([' '] + name, IncludeMarker);
    StripLeadingSpace(' ', name);
    StripUnchanged(name);
    JoinPathParentName(dir, name);
    SelfIncludeHitsLimit(env, JoinPath(dir, name), line, depth);
  }
}
