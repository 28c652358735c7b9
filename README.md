# stanza: requirements reader and converter, modelled in Dafny

stanza turns a project's `requirements.txt` files and its `setup.py` into a
`pyproject.toml`. This project models the two pieces of logic under that
plumbing and proves what they promise.

- **The requirements reader** is `get_requirements` (module `Parser`). Each
  line is stripped. Blank lines and `#` comments are skipped. A `-r` line
  includes another file, and that file's records are yielded in place,
  depth-first. Every other line, `-e` lines included, is handed to the
  requirement parser.
  - The generator is modelled by the `Stream` it produces: the records
    yielded, then the exception that ended it, if any (module `Streams`).
  - The reader is compared with a reference: expand the include tree
    into requirement texts, then parse each text. The expansion reuses the
    reader's line classification, include target and include resolution.
    The proof shows two things: the reader ends cleanly exactly when the
    expansion exists and every text parses, and a clean run yields exactly
    the parsed expansion. Failing runs are described by separate lemmas:
    where the exception arises and what it can be.
  - The proofs also show where each line's records land, which exceptions
    get wrapped, and that a self-include ends in the recursion limit.
- **The setup-source rewrite** is `RE_REPL_SETUP` (module `SetupRewrite`).
  The intended call replaces `setup(` at each line start of the source.
  It is defined line by line and proved equal to the regular-expression
  scan. Both line count and argument text are kept, and the rewrite is
  idempotent. The call at stanza/lib/core.py:30 passes its arguments the
  other way round and is modelled as well (see Findings).
- **The `Converter`** is a Dafny class with the source's fields (module
  `Core`). `add_dependencies` is a loop over the parsed requirements. The
  setup, defaults and dump steps are methods, and `convert_command` is a
  method with its loops.
  - Each method is proved against a specification function (`Placed`,
    `SetupOutcome`, `LayoutKwargs`, `Conversion`).
  - Lemmas about those functions state the promises: a project always
    exists at the dump, defaults never override `setup.py`, and the layout
    gets metadata only when setup data exists.

Python's `str` operations (`strip`, `startswith`, `replace(pat, "")`,
`split`, `join`) are in module `PyStr`, with Python's whitespace set.
`pathlib`'s `parent`, `name` and `/` on normalised paths are in module
`Paths`.

Foreign and effectful steps are parameters:

- the filesystem is a map from path to lines (reader) or to text (setup file);
- `pkg_resources.Requirement.parse` is a function to a record or an error message;
- `requirements.parse(str(req_file))` is a function from path to `Stream`;
- `exec` of the rewritten setup source is a function to the bound `_setup_kwargs` or an exception.

Some facts about the code that the model keeps:

- `-e` lines reach the requirement parser like any other line (stanza/lib/parser.py:35-36).
- An include cycle is not detected. It runs on until the recursion limit (stanza/lib/parser.py:21-32).
- `add_dependencies` reads files through `requirements.parse`, not through `get_requirements` (stanza/lib/core.py:36).

## Model

| member | source | states |
|---|---|---|
| PyStr.StripLeftSpec | stanza/lib/parser.py:16 | `lstrip` leaves the suffix starting at the first non-whitespace character; everything dropped is whitespace |
| PyStr.StripRightSpec | stanza/lib/parser.py:16 | `rstrip` leaves the prefix ending at the last non-whitespace character; everything dropped is whitespace |
| PyStr.StripSpec | stanza/lib/parser.py:16 | `strip` is empty iff the line is all whitespace; otherwise it is the slice between the first and last non-whitespace characters, with only whitespace outside it |
| PyStr.StripUnchanged | stanza/lib/parser.py:16 | a text with non-whitespace at both ends is its own `strip` |
| PyStr.StripLeadingSpace | stanza/lib/parser.py:16 | leading whitespace does not survive `strip` |
| PyStr.StripLeftAppend | stanza/lib/parser.py:16 | `lstrip` of a concatenation is the first part's `lstrip` followed by the rest, or the second part's `lstrip` when the first is all whitespace |
| PyStr.StripTrailingSpace | stanza/lib/parser.py:16 | a trailing newline or other whitespace character does not survive `strip`, for every text |
| PyStr.RemoveAll | stanza/lib/parser.py:23 | `replace(pat, "")` never lengthens the text |
| PyStr.RemoveAllAbsent | stanza/lib/parser.py:23 | removing a pattern that does not occur leaves the text unchanged |
| PyStr.RemoveAllLeading | stanza/lib/parser.py:23 | an occurrence at the front is deleted and the scan resumes after it |
| PyStr.RemoveAllKeep | stanza/lib/parser.py:23 | a character that cannot start the pattern is kept |
| PyStr.RemoveAllKeepPrefix | stanza/lib/parser.py:23 | a prefix without the pattern's first character is kept as it is |
| PyStr.RemoveAllWithoutLead | stanza/lib/parser.py:23 | a text without the pattern's first character is unchanged |
| PyStr.Split | stanza/lib/core.py:15 | splitting on newline gives at least one line and no line holds a newline |
| PyStr.JoinSplit | stanza/lib/core.py:15 | joining the split lines gives the text back |
| PyStr.SplitPrefix | stanza/lib/core.py:15 | a newline-free prefix stays in the first line of a split |
| PyStr.SplitJoin | stanza/lib/core.py:15 | splitting joined newline-free lines gives the lines back |
| Paths.LastSlash | stanza/lib/parser.py:31 | the index of the last `/`, with no `/` after it |
| Paths.JoinPathParentName | stanza/lib/parser.py:31 | `dir / name` for a one-component name other than `.` has parent `dir` and name `name` |
| Streams.ThenAssociative | stanza/lib/parser.py:27-32 | yielding the nested generator's records in place composes associatively; after an exception nothing more is yielded |
| Streams.ThenEmpty | stanza/lib/parser.py:17-20 | a step that yields nothing leaves the stream unchanged |
| Parser.ClassifyCases | stanza/lib/parser.py:16-21 | a line is skipped as blank iff it is all whitespace; a stripped line starting with `#` is a comment; one starting with `-r` is an include of the stripped line; any other non-blank line is a requirement of its stripped text |
| Parser.IncludeSource | stanza/lib/parser.py:25-31 | an absolute include target (starting with `/`) is used as it stands |
| Parser.RelativeIncludeBesideIncluder | stanza/lib/parser.py:29-31 | a relative one-component target (other than `.`) names a file in the including file's directory, not the working directory |
| Parser.IncludeSourceAsWritten | stanza/lib/parser.py:25-28 | as written, an absolute target fails (AttributeError on `str.open`) exactly when it starts with `/`; a relative one resolves as intended |
| Parser.ParseEach | stanza/lib/parser.py:35-36 | parsing a list of texts succeeds iff every text parses, with one record per text, in order |
| Parser.ParseEachAppend | stanza/lib/parser.py:35-36 | parsing two runs of texts is parsing each run in turn |
| Parser.GetRequirementsMatchesExpansion | stanza/lib/parser.py:8-36 | the reader runs to the end iff every file exists, includes nest within the depth bound and every requirement text of the expanded include tree parses; it then yields exactly one record per requirement line of the expansion, in order, with nothing merged or dropped |
| Parser.ProcessLinesMatchesExpansion | stanza/lib/parser.py:15-36 | the same agreement for the lines of one file |
| Parser.HandleLineMatchesExpansion | stanza/lib/parser.py:16-36 | the same agreement for one classified line |
| Parser.ParseOneMatches | stanza/lib/parser.py:35-36 | one requirement line yields its parsed record, or the parser's error unwrapped |
| Parser.ProcessLinesAppend | stanza/lib/parser.py:15 | the reader over a file split in two parts yields the first part's stream, then the second's |
| Parser.AroundLine | stanza/lib/parser.py:15 | a file's stream is the stream before a line, then that line's, then the stream after it |
| Parser.SkippedLine | stanza/lib/parser.py:16-20 | a whitespace-only line or a `#` comment yields nothing: the file reads as if the line were absent |
| Parser.RequirementLineInPlace | stanza/lib/parser.py:35-36 | any other line not starting with `-r` yields the record parsed from its stripped text, between the records of the lines before and after it; a parse failure ends the stream with the error unwrapped |
| Parser.IncludeExpandsInPlace | stanza/lib/parser.py:21-34 | a `-r` line's target is the stripped line with every `-r` removed, stripped again, resolved against the including file's directory unless absolute; the included file's records come out where the line stands, before every later line; a ValueError from the included file is re-raised wrapped with the line, any other error passes unchanged |
| Parser.GetRequirementsRaises | stanza/lib/parser.py:33-36 | the reader can only end with a parse error, a missing file, the recursion limit, or a parse error wrapped once by an include line |
| Parser.ProcessLinesRaises | stanza/lib/parser.py:15-36 | the same bound for the lines of one file |
| Parser.HandleLineRaises | stanza/lib/parser.py:21-36 | the same bound for one line |
| Parser.IncludeLine | stanza/lib/parser.py:21 | a line that is `-r` and more, with no surrounding whitespace, is an include of the whole line |
| Parser.MarkersRemoved | stanza/lib/parser.py:23 | every `-r` is removed from an include line, not only the leading one |
| Parser.IncludeTargetLosesEveryMarker | stanza/lib/parser.py:23 | `-r ` + x + `-r` + y includes x + y, so `-r my-reqs.txt` includes `myeqs.txt` |
| Parser.EditableLineIsParsed | stanza/lib/parser.py:35-36 | an `-e` line is not skipped: its whole text reaches the requirement parser |
| Parser.AbsoluteIncludeAsWritten | stanza/lib/parser.py:25-28 | for `/etc/base.txt` the code as written fails where the intended reading uses the path as it stands |
| Parser.SelfIncludeHitsLimit | stanza/lib/parser.py:21-32 | a file whose first line includes itself yields nothing and ends in the recursion limit at every depth: there is no cycle guard |
| Parser.SelfIncludeByName | stanza/lib/parser.py:29-31 | the same for `-r <own name>` in a file's own directory |
| SetupRewrite.RewriteLineCases | stanza/lib/core.py:15 | a line either stays as it is or has exactly its leading `setup(` replaced by `_setup_kwargs = dict(`, with the argument text kept; no rewritten line starts with `setup(` and no newline is added |
| SetupRewrite.RewriteLineIdempotent | stanza/lib/core.py:15 | rewriting a rewritten line changes nothing |
| SetupRewrite.RewriteLines | stanza/lib/core.py:15 | every line is rewritten at its own position |
| SetupRewrite.RewriteSetupLines | stanza/lib/core.py:15 | with the intended argument order, the rewritten source has as many lines as the original, and each line is the original line rewritten |
| SetupRewrite.RewriteSetupIdempotent | stanza/lib/core.py:15 | with the intended argument order, rewriting twice is rewriting once |
| SetupRewrite.RewriteSetupIsScan | stanza/lib/core.py:15 | the line-wise rewrite equals `RE_REPL_SETUP(SETUP_REPLACEMENT, src)`, the `^setup\(` MULTILINE substitution: replaced exactly at the start of the text and after each newline, every other character copied |
| SetupRewrite.ScanWithinLine | stanza/lib/core.py:15 | inside a line the substitution copies text |
| SetupRewrite.NoCallAcrossLineEnd | stanza/lib/core.py:15 | a match of `setup(` cannot straddle a line end |
| SetupRewrite.ScanLine | stanza/lib/core.py:15 | from a line start the substitution yields the rewritten line, then continues after it |
| SetupRewrite.ScanPlainLine | stanza/lib/core.py:15 | a line not starting with `setup(` is copied |
| SetupRewrite.ScanCallLine | stanza/lib/core.py:15 | a line starting with `setup(` gets the replacement, and the rest of the line is copied |
| SetupRewrite.ScanJoin | stanza/lib/core.py:15 | over whole lines the substitution and the line-wise rewrite agree |
| SetupRewrite.RewriteSetupAsWritten | stanza/lib/core.py:30 | the call as written, `RE_REPL_SETUP(setup_code, SETUP_REPLACEMENT)`, searches the constant with the setup source as the replacement; the result is always `_setup_kwargs = dict(`, whatever the source |
| SetupRewrite.RewriteAsWrittenDiffers | stanza/lib/core.py:30 | for a source starting with `setup(` and holding arguments, the call as written hands `exec` a different text than the intended rewrite |
| Core.ToDependenciesAt | stanza/lib/core.py:36-37 | one dependency per requirement, at its own position, with the requirement's name and extras |
| Core.ToDependenciesAppend | stanza/lib/core.py:36-41 | converting requirements read in two parts gives the two conversions in turn |
| Core.PlacedTwice | stanza/lib/core.py:38-41 | appending to one list in two steps is appending both parts in turn |
| Core.ProjectFromSetup | stanza/lib/core.py:33 | the project is named and versioned from the setup data; a missing `name`, then a missing `version`, raises KeyError |
| Core.DefaultProjectNamedAfterDirectory | stanza/lib/core.py:43-46 | a given non-empty name is kept; without a name, or with an empty one, the project is named after the base directory (a single component other than `.`); the version is the given one |
| Core.LayoutAuthor | stanza/lib/core.py:48-52 | None iff the setup data is empty; otherwise `author <author_email>`, or KeyError for `author`, then `author_email` |
| Core.LayoutAuthorRoundTrip | stanza/lib/core.py:52 | the author line keeps both entries: the author name and email are read back unchanged when the name holds no `<` |
| Core.LayoutKwargs | stanza/lib/core.py:58-69 | the layout always gets the project and both dependency lists unchanged; it gets metadata iff the setup data is non-empty, namely version, description, author line and license from the setup data; a KeyError names the first missing key in the order the dict display reads them |
| Core.ReadAllStep | stanza/lib/core.py:78-80 | reading one more file yields what the earlier files gave, then what it gives |
| Core.ReadAllStops | stanza/lib/core.py:78-80 | once a file raises, the later files add nothing |
| Core.ReadOneMore | stanza/lib/core.py:78-83 | after files that read cleanly, one more file's dependencies follow theirs and its exception is the run's exception |
| Core.FinishKeepsDependencies | stanza/lib/core.py:84-94 | the steps after reading hand both dependency lists to the layout unchanged |
| Core.Converter.constructor | stanza/lib/core.py:21-26 | a fresh converter has no project, no dependencies, no setup data and the given base directory |
| Core.Converter.ParseSetupPy | stanza/lib/core.py:28-33 | the new state follows `SetupOutcome`: a missing file raises OSError; the source rewritten with the intended argument order is executed; the setup data is stored whenever execution succeeds, even if the project keys are then missing; the project is set only when `name` and `version` are present; the dependency lists are untouched |
| Core.Converter.AddDependencies | stanza/lib/core.py:35-41 | one dependency per requirement read is appended, in order, to the dev list iff `is_dev` and to the normal list otherwise; the other list, the project and the setup data are unchanged; the reader's exception is returned after the records before it were added |
| Core.Converter.SetProjectByDefaults | stanza/lib/core.py:43-46 | the project becomes the default project (given name or directory name, given version); `name` defaults to none and `version` to `0.1.0`; nothing else changes |
| Core.Converter.DumpToPyprojectToml | stanza/lib/core.py:54-72 | without a project: RuntimeError "No project specified."; otherwise the layout arguments `LayoutKwargs` computes from the current state |
| Core.AddAll | stanza/lib/core.py:78-83 | adding file after file places, in order, the dependencies of everything read into one list and stops at the first exception |
| Core.FinishConversion | stanza/lib/core.py:84-94 | the tail of `convert_command` computes `Finish`: a non-OSError setup failure propagates; the defaults apply only when no project was set; then the dump |
| Core.ConvertCommand | stanza/lib/core.py:74-94 | the command as written computes `Conversion` with the dev files' requirements in the normal list; `name` defaults to none and `version` to `0.1.0` |
| Core.ConvertCommandIntended | stanza/lib/core.py:81-83 | the command with `is_dev=True` for the dev files computes `Conversion` with them in the dev list |
| Core.ConversionProject | stanza/lib/core.py:84-94 | once the files read and the setup step gave a project or raised an OSError, a conversion can fail only on a missing metadata key, never with "No project specified."; a successful conversion has the project `setup.py` names when the setup step succeeded, and the defaults, with no metadata, only when it raised an OSError (a missing `setup.py`, or an OSError from executing it): defaults never override setup data |
| Core.ConversionWithoutSetup | stanza/lib/core.py:84-91 | without `setup.py`, a conversion whose files read cleanly succeeds, with the default project and no metadata |
| Core.ConversionDefaultArguments | stanza/lib/core.py:74 | with the default `name` and `version` and no `setup.py`, the project is named after the base directory and versioned `0.1.0` |
| Core.DevFilesAsWritten | stanza/lib/core.py:81-83 | as written, the dev files' dependencies follow the normal ones in the normal list and the dev list stays empty |
| Core.DevFilesIntended | stanza/lib/core.py:81-83 | as intended, the dev list holds exactly the dev files' dependencies |
| Core.DevFilesMisfiled | stanza/lib/core.py:81-83 | the two disagree on the dev list whenever a dev file yields a requirement |

## Left out

- `exec` of the rewritten setup source (stanza/lib/core.py:31) is the parameter `exec`, which receives exactly the rewritten text. Running arbitrary code is not modelled. Neither is Python 3's rule that `exec` inside a function cannot bind a local that line 32 then reads.
- The setup keyword arguments are modelled as a map from string to string. Non-string values passed to `ProjectPackage` or the layout are not modelled.
- `pkg_resources.Requirement.parse` (stanza/lib/parser.py:36) and its grammar are foreign. They are the parameter `parse`, which returns a record or an error message. Its error is taken to be a ValueError subclass.
- `requirements.parse(str(req_file))` (stanza/lib/core.py:36) is foreign. It is the parameter `read`, one stream per path. It is handed the path's text rather than the file's contents, and what it yields for that is left to the parameter.
- poetry's `ProjectPackage`, `Dependency`, `Layout` and `layout.create` (stanza/lib/core.py:70-72), and the TOML they write, are not modelled. The dump returns the arguments the layout would receive.
- Logging (stanza/lib/core.py:79,82,87,89-90,93; stanza/lib/parser.py:24) has no behaviour and is omitted.
- stanza/cli.py, the click option wiring, is not part of this model.
- `Path.resolve()` defaults (stanza/lib/core.py:21,74) are not modelled. Neither is pathlib's normalisation of `..`, of `.` inside a path and of doubled separators. Paths are normalised strings and the base directory is a parameter. `Name(".")` is empty, as `PurePath(".").name` is.
- Core.Converter.ParseSetupPy: executes the source rewritten with the intended argument order. As written (stanza/lib/core.py:30) `exec` receives `_setup_kwargs = dict(` and raises SyntaxError, which the `except OSError` at stanza/lib/core.py:86 does not catch. A setup source holding a backslash may instead make `re` raise while reading it as a replacement template; template escapes are not modelled (RewriteSetupAsWritten). See Findings.
- Files are given as the lines text-mode iteration yields. Decoding errors and newline translation are not modelled.
- Parser.GetRequirements: Python's recursion limit is modelled by the `depth` bound on nested includes. Running past it gives `RecursionLimit`; the exact interpreter depth is not modelled.
- Core.ProjectFromSetup: stanza/lib/core.py:33 reads the undefined name `setup`, which raises NameError. The model reads the setup data just stored, as intended.
- Core.ToDependency: stanza/lib/core.py:37 passes `optional=optional`, an undefined name. The flag is dropped.
- Core.Converter.DumpToPyprojectToml: stanza/lib/core.py:70 passes the undefined name `project`. The model passes the converter's project.
- Core.FinishConversion: stanza/lib/core.py:85 passes the undefined name `setup_path`. The model uses `setup.py` in the base directory.
- Core.Converter.DumpToPyprojectToml: `if not self.project` is modelled as "no project set". A project object is taken to be truthy.
- stanza/lib/core.py:76 computes `default_name` and never uses it, so there is nothing to model.

## Findings

| source | as written | input that shows it | evidently intended | confidence | as-written member | corrected member |
|---|---|---|---|---|---|---|
| stanza/lib/core.py:81-83 | the dev files are added with `add_dependencies(depfile)`, so `is_dev` is False | any dev file that yields at least one requirement | the dev files' requirements go to `dev_dependencies`, as the loop's log line says | high, not executed | Core.ConvertCommand (with Core.DevFilesAsWritten and Core.DevFilesMisfiled) | Core.ConvertCommandIntended (with Core.DevFilesIntended) |
| stanza/lib/core.py:30 | `RE_REPL_SETUP(setup_code, self.SETUP_REPLACEMENT)` passes the setup source as the replacement and the constant as the text, so the result is always `_setup_kwargs = dict(` | a `setup.py` holding `setup(name="stanza", version="1.0")` | the source is searched and its `setup(` replaced, giving `_setup_kwargs = dict(name="stanza", version="1.0")` | high, not executed | SetupRewrite.RewriteSetupAsWritten (with SetupRewrite.RewriteAsWrittenDiffers) | SetupRewrite.RewriteSetup (used by Core.SetupOutcome and Core.Converter.ParseSetupPy) |
| stanza/lib/parser.py:25-28 | an absolute target is passed on as a `str`, and `get_requirements` calls `.open()` on it | a line `-r /etc/base.txt` | the absolute file is read as it stands | high, not executed | Parser.IncludeSourceAsWritten (with Parser.AbsoluteIncludeAsWritten) | Parser.IncludeSource (used by Parser.HandleLine) |

