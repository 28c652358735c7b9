/**
 * The setup-source rewrite (`RE_REPL_SETUP` with `SETUP_REPLACEMENT`,
 * stanza/lib/core.py): the intended call is
 * `re.sub(r"^setup\(", "_setup_kwargs = dict(", src)` under `re.MULTILINE`,
 * so that executing the rewritten `setup.py` binds the keyword arguments of
 * its `setup(...)` call instead of running setup. The call at core.py:30
 * passes its two arguments the other way round; `RewriteSetupAsWritten`
 * models that call and `RewriteSetup` the intended one.
 *
 * The rewrite is defined line by line (split on newline, rewrite each
 * line's prefix, join) and proved equal to a left-to-right scan that
 * replaces the pattern wherever `^` can match: at the start of the text and
 * right after each newline.
 */
module SetupRewrite {
  import opened PyStr

  const SetupCall := "setup("
  const SetupReplacement := "_setup_kwargs = dict("

  /** One line: `setup(` at its start becomes the replacement, the rest of the line stays. */
  function RewriteLine(line: string): string {
    if StartsWith(line, SetupCall) then SetupReplacement + line[|SetupCall|..] else line
  }

  /**
   * A line is either left as it is or had exactly its leading `setup(`
   * replaced, with the argument text after it kept; no rewritten line
   * starts with `setup(`, and no newline is introduced.
   */
  lemma RewriteLineCases(line: string)
    ensures StartsWith(line, SetupCall) ==> RewriteLine(line) == SetupReplacement + line[|SetupCall|..]
    ensures !StartsWith(line, SetupCall) ==> RewriteLine(line) == line
    ensures !StartsWith(RewriteLine(line), SetupCall)
    ensures '\n' !in line ==> '\n' !in RewriteLine(line)
  {
    var r := RewriteLine(line);
    if StartsWith(line, SetupCall) {
      assert r[0] == '_';
    }
  }

  /** Rewriting a rewritten line changes nothing. */
  lemma RewriteLineIdempotent(line: string)
    ensures RewriteLine(RewriteLine(line)) == RewriteLine(line)
  {
    RewriteLineCases(line);
  }

  /** Every line of a text, rewritten. */
  function RewriteLines(lines: seq<string>): (r: seq<string>)
    ensures |r| == |lines|
    ensures forall i :: 0 <= i < |lines| ==> r[i] == RewriteLine(lines[i])
    decreases |lines|
  {
    if lines == [] then [] else [RewriteLine(lines[0])] + RewriteLines(lines[1..])
  }

  /** The intended rewrite of core.py:30, `RE_REPL_SETUP(SETUP_REPLACEMENT, src)`: every line rewritten. */
  function RewriteSetup(src: string): string {
    Join(RewriteLines(Split(src, '\n')), '\n')
  }

  /**
   * The rewritten text has as many lines as the source, and each of its
   * lines is the corresponding source line rewritten.
   */
  lemma RewriteSetupLines(src: string)
    ensures Split(RewriteSetup(src), '\n') == RewriteLines(Split(src, '\n'))
    ensures |Split(RewriteSetup(src), '\n')| == |Split(src, '\n')|
  {
    var lines := RewriteLines(Split(src, '\n'));
    forall i | 0 <= i < |lines| ensures '\n' !in lines[i] {
      RewriteLineCases(Split(src, '\n')[i]);
    }
    SplitJoin(lines, '\n');
  }

  /** Rewriting twice is rewriting once. */
  lemma RewriteSetupIdempotent(src: string)
    ensures RewriteSetup(RewriteSetup(src)) == RewriteSetup(src)
  {
    RewriteSetupLines(src);
    var lines := RewriteLines(Split(src, '\n'));
    var again := RewriteLines(lines);
    assert again == lines by {
      forall i | 0 <= i < |lines| ensures again[i] == lines[i] {
        RewriteLineIdempotent(Split(src, '\n')[i]);
      }
    }
  }

  // ---------------------------------------------------------------------
  // Reference: the regular-expression substitution

  /**
   * `re.sub` with `^setup\(` under MULTILINE, replacing each match by
   * `repl`, as a scan: `atLineStart` says whether `^` matches at the
   * current position; after a replacement the scan resumes behind the match.
   */
  function Scan(repl: string, s: string, atLineStart: bool): string
    decreases |s|
  {
    if s == [] then []
    else if atLineStart && StartsWith(s, SetupCall) then repl + Scan(repl, s[|SetupCall|..], false)
    else [s[0]] + Scan(repl, s[1..], s[0] == '\n')
  }

  /** Inside a line the scan copies text that holds no newline. */
  lemma {:induction false} ScanWithinLine(repl: string, x: string, t: string)
    requires '\n' !in x
    ensures Scan(repl, x + t, false) == x + Scan(repl, t, false)
    decreases |x|
  {
    if x == [] {
      assert x + t == t;
    } else {
      assert (x + t)[0] == x[0] && (x + t)[1..] == x[1..] + t;
      ScanWithinLine(repl, x[1..], t);
      assert [x[0]] + (x[1..] + Scan(repl, t, false)) == x + Scan(repl, t, false);
    }
  }

  /** A line that does not start with `setup(` still does not once the rest of the text follows it. */
  lemma NoCallAcrossLineEnd(line: string, t: string)
    requires !StartsWith(line, SetupCall)
    requires t == [] || t[0] == '\n'
    ensures !StartsWith(line + t, SetupCall)
  {
    var s := line + t;
    var n := |SetupCall|;
    if |line| >= n {
      assert s[..n] == line[..n];
    } else if t == [] {
      assert s == line;
    } else if |s| >= n {
      assert s[..n][|line|] == '\n' != SetupCall[|line|];
    }
  }

  /** From the start of a line the scan yields that line rewritten, then goes on behind it. */
  lemma ScanLine(line: string, t: string)
    requires '\n' !in line
    requires t == [] || t[0] == '\n'
    ensures Scan(SetupReplacement, line + t, true) == RewriteLine(line) + Scan(SetupReplacement, t, false)
  {
    if StartsWith(line, SetupCall) {
      ScanCallLine(SetupReplacement, line, t);
    } else {
      ScanPlainLine(SetupReplacement, line, t);
    }
  }

  /** A line that does not start with `setup(`: the scan copies it, whatever the replacement. */
  lemma ScanPlainLine(repl: string, line: string, t: string)
    requires '\n' !in line && !StartsWith(line, SetupCall)
    requires t == [] || t[0] == '\n'
    ensures Scan(repl, line + t, true) == line + Scan(repl, t, false)
  {
    NoCallAcrossLineEnd(line, t);
    var s := line + t;
    if line == [] {
      assert s == t;
    } else {
      assert s[0] == line[0] && s[1..] == line[1..] + t;
      ScanWithinLine(repl, line[1..], t);
      assert [line[0]] + (line[1..] + Scan(repl, t, false)) == line + Scan(repl, t, false);
    }
  }

  /** A line that starts with `setup(`: the scan puts the replacement there and copies the rest of the line. */
  lemma ScanCallLine(repl: string, line: string, t: string)
    requires '\n' !in line && StartsWith(line, SetupCall)
    ensures Scan(repl, line + t, true) == repl + line[|SetupCall|..] + Scan(repl, t, false)
  {
    var s := line + t;
    var n := |SetupCall|;
    assert s[..n] == line[..n];
    assert s[n..] == line[n..] + t;
    ScanWithinLine(repl, line[n..], t);
    assert repl + (line[n..] + Scan(repl, t, false)) == repl + line[n..] + Scan(repl, t, false);
  }

  /** Over whole lines, the scan and the line-by-line rewrite agree. */
  lemma {:induction false} ScanJoin(lines: seq<string>)
    requires |lines| >= 1
    requires forall i :: 0 <= i < |lines| ==> '\n' !in lines[i]
    ensures Scan(SetupReplacement, Join(lines, '\n'), true) == Join(RewriteLines(lines), '\n')
    decreases |lines|
  {
    if |lines| == 1 {
      ScanLine(lines[0], []);
      assert lines[0] + [] == lines[0];
    } else {
      var rest := Join(lines[1..], '\n');
      var tail := ['\n'] + rest;
      assert Join(lines, '\n') == lines[0] + tail;
      ScanLine(lines[0], tail);
      assert tail[1..] == rest;
      assert Scan(SetupReplacement, tail, false) == ['\n'] + Scan(SetupReplacement, rest, true);
      ScanJoin(lines[1..]);
      var out := RewriteLines(lines);
      assert out[1..] == RewriteLines(lines[1..]);
      assert Join(out, '\n') == out[0] + ['\n'] + Join(out[1..], '\n');
    }
  }

  /**
   * The line-by-line rewrite is the regular-expression substitution
   * `RE_REPL_SETUP(SETUP_REPLACEMENT, src)`: `setup(` is replaced exactly
   * where it starts the text or follows a newline, and every other
   * character is copied.
   */
  lemma RewriteSetupIsScan(src: string)
    ensures RewriteSetup(src) == Scan(SetupReplacement, src, true)
  {
    JoinSplit(src, '\n');
    ScanJoin(Split(src, '\n'));
  }

  // ---------------------------------------------------------------------
  // The call as written

  /**
   * `RE_REPL_SETUP(setup_code, SETUP_REPLACEMENT)` as core.py:30 writes it:
   * the bound `sub` takes the replacement first and the text second, so the
   * setup source is the replacement and the constant is the text searched.
   */
  function RewriteSetupAsWritten(src: string): (r: string)
    ensures r == SetupReplacement
  {
    var r := Scan(src, SetupReplacement, true);
    ScanPlainLine(src, SetupReplacement, []);
    assert SetupReplacement + [] == SetupReplacement;
    r
  }

  /**
   * The call as written loses the setup source: for any `setup.py` whose
   * `setup(` call has arguments, it hands `exec` a different text than the
   * intended rewrite, namely the bare constant, which is not valid Python.
   */
  lemma RewriteAsWrittenDiffers(src: string)
    requires StartsWith(src, SetupCall) && |src| > |SetupCall|
    ensures RewriteSetupAsWritten(src) == SetupReplacement
    ensures RewriteSetup(src) != RewriteSetupAsWritten(src)
  {
    RewriteSetupIsScan(src);
    var n := |SetupCall|;
    assert Scan(SetupReplacement, src, true) == SetupReplacement + Scan(SetupReplacement, src[n..], false);
    assert |Scan(SetupReplacement, src[n..], false)| > 0;
  }
}
