/**
 * The converter (stanza/lib/core.py): a `Converter` collects dependencies
 * from requirements files, takes the project and its metadata from
 * `setup.py` (or from defaults when there is none) and hands everything to
 * poetry's layout, which writes `pyproject.toml`. `convert_command` runs
 * these steps in order.
 *
 * Foreign and effectful steps are parameters: `read` is
 * `requirements.parse(str(req_file))` as the stream of what it yields,
 * `files` the text of the files on disk, `exec` the execution of the
 * rewritten setup source, returning the `_setup_kwargs` it binds or the
 * exception it raises. What `dump_to_pyproject_toml` hands to poetry's
 * `Layout` is the result of the dump.
 */
module Core {
  import opened Wrappers
  import opened Paths
  import opened Streams
  import opened SetupRewrite

  /** poetry's `ProjectPackage(name, version)` */
  datatype Project = Project(name: string, version: string)

  /** poetry's `Dependency(req.name, req.extras)`: the extras land in the constraint argument. */
  datatype Dependency = Dependency(name: string, constraint: seq<string>)

  /** The keyword arguments of the `setup(...)` call. */
  type SetupData = map<string, string>

  /** `requirements.parse(str(req_file))` */
  type RequirementReader = Path -> Stream

  /** `exec` of the rewritten setup source: the `_setup_kwargs` it binds, or what it raised. */
  type SetupExec = string -> Result<SetupData, Error>

  const DefaultVersion := "0.1.0"
  const SetupFileName := "setup.py"
  const NoProjectMessage := "No project specified."

  /** The metadata entries the layout takes from the setup data. */
  datatype Metadata = Metadata(version: string, description: string, author: string, license: string)

  /** `Layout(self.project, **layout_kwargs)`: the metadata is there only when setup data was found. */
  datatype LayoutArgs = LayoutArgs(
    project: Project,
    dependencies: seq<Dependency>,
    devDependencies: seq<Dependency>,
    metadata: Option<Metadata>)

  function ToDependency(r: Requirement): Dependency {
    // core.py:37 also passes `optional=optional`, an undefined name; the flag is dropped
    Dependency(r.name, r.extras)
  }

  /** One dependency per requirement, in order. */
  function ToDependencies(rs: seq<Requirement>): seq<Dependency>
    decreases |rs|
  {
    if rs == [] then [] else [ToDependency(rs[0])] + ToDependencies(rs[1..])
  }

  /** Each requirement gives the dependency at its own position: nothing merged, dropped or reordered. */
  lemma {:induction false} ToDependenciesAt(rs: seq<Requirement>)
    ensures |ToDependencies(rs)| == |rs|
    ensures forall i :: 0 <= i < |rs| ==> ToDependencies(rs)[i] == ToDependency(rs[i])
    decreases |rs|
  {
    if rs != [] {
      ToDependenciesAt(rs[1..]);
    }
  }

  /** Converting requirements read in two parts gives the two conversions in turn. */
  lemma {:induction false} ToDependenciesAppend(a: seq<Requirement>, b: seq<Requirement>)
    ensures ToDependencies(a + b) == ToDependencies(a) + ToDependencies(b)
    decreases |a|
  {
    if a == [] {
      assert a + b == b;
    } else {
      assert (a + b)[0] == a[0] && (a + b)[1..] == a[1..] + b;
      ToDependenciesAppend(a[1..], b);
    }
  }

  /**
   * The two dependency lists after `more` is appended to exactly one of
   * them: the dev list when `isDev`, the normal list otherwise.
   */
  function Placed(isDev: bool, deps: seq<Dependency>, devDeps: seq<Dependency>, more: seq<Dependency>)
    : (seq<Dependency>, seq<Dependency>)
  {
    if isDev then (deps, devDeps + more) else (deps + more, devDeps)
  }

  /** Appending in two steps is appending the two parts in turn. */
  lemma PlacedTwice(isDev: bool, deps: seq<Dependency>, devDeps: seq<Dependency>, a: seq<Dependency>, b: seq<Dependency>)
    ensures var mid := Placed(isDev, deps, devDeps, a);
            Placed(isDev, mid.0, mid.1, b) == Placed(isDev, deps, devDeps, a + b)
  {
    assert deps + a + b == deps + (a + b);
    assert devDeps + a + b == devDeps + (a + b);
  }

  /** `ProjectPackage(_setup_data["name"], _setup_data["version"])` */
  function ProjectFromSetup(data: SetupData): (r: Result<Project, Error>)
    ensures r.Ok? <==> "name" in data && "version" in data
    ensures r.Ok? ==> r.value.name == data["name"] && r.value.version == data["version"]
    ensures r.Err? ==> r.error == KeyError(if "name" !in data then "name" else "version")
  {
    // core.py:33 subscripts `setup`, an undefined name; the setup data just stored is meant
    if "name" !in data then Err(KeyError("name"))
    else if "version" !in data then Err(KeyError("version"))
    else Ok(Project(data["name"], data["version"]))
  }

  /** `set_project_by_defaults`: the given name unless it is missing or empty, else the directory's name. */
  function DefaultProject(baseDir: Path, name: Option<string>, version: string): Project {
    Project(if name.Some? && name.value != "" then name.value else Name(baseDir), version)
  }

  /**
   * Without a name, or with an empty one, the project is named after the
   * directory it is converted in; a given name is kept. The version is
   * always the given one.
   */
  lemma DefaultProjectNamedAfterDirectory(parent: Path, dir: string, name: Option<string>, version: string)
    requires parent != "" && dir != "" && dir != "." && '/' !in dir
    ensures name.Some? && name.value != "" ==> DefaultProject(JoinPath(parent, dir), name, version) == Project(name.value, version)
    ensures name == None || name == Some("") ==> DefaultProject(JoinPath(parent, dir), name, version) == Project(dir, version)
  {
    JoinPathParentName(parent, dir);
  }

  /** `layout_author`: None without setup data, else `author <author_email>`; a missing key raises KeyError. */
  function LayoutAuthor(data: SetupData): (r: Result<Option<string>, Error>)
    ensures r == Ok(None) <==> |data| == 0
    ensures r.Ok? && r.value.Some? <==> |data| > 0 && "author" in data && "author_email" in data
    ensures r.Err? ==> r.error == KeyError(if "author" !in data then "author" else "author_email")
  {
    if |data| == 0 then Ok(None)
    else if "author" !in data then Err(KeyError("author"))
    else if "author_email" !in data then Err(KeyError("author_email"))
    else Ok(Some(data["author"] + " <" + data["author_email"] + ">"))
  }

  /** Reading an author line back: the text before the first ` <`, and the text between it and a final `>`. */
  function AuthorParts(line: string): Option<(string, string)> {
    if |line| < 3 || line[|line| - 1] != '>' then None
    else match FirstOpen(line, 0)
      case None => None
      case Some(i) => if i == 0 || line[i - 1] != ' ' then None else Some((line[..i - 1], line[i + 1..|line| - 1]))
  }

  /** Index of the first `<` at or after `from`. */
  function FirstOpen(s: string, from: nat): (r: Option<nat>)
    requires from <= |s|
    ensures r.Some? ==> from <= r.value < |s| && s[r.value] == '<' && forall k :: from <= k < r.value ==> s[k] != '<'
    ensures r.None? ==> forall k :: from <= k < |s| ==> s[k] != '<'
    decreases |s| - from
  {
    if from == |s| then None else if s[from] == '<' then Some(from) else FirstOpen(s, from + 1)
  }

  /**
   * The author line keeps both entries: for an author name without `<`
   * and an email ending before a final `>`, the two are read back
   * unchanged.
   */
  lemma LayoutAuthorRoundTrip(data: SetupData)
    requires "author" in data && "author_email" in data && '<' !in data["author"]
    ensures LayoutAuthor(data).Ok? && LayoutAuthor(data).value.Some?
    ensures AuthorParts(LayoutAuthor(data).value.value) == Some((data["author"], data["author_email"]))
  {
    var a, e := data["author"], data["author_email"];
    var line := a + " <" + e + ">";
    assert |data| > 0 by { assert "author" in data; }
    var i := |a| + 1;
    assert line[i] == '<' && line[i - 1] == ' ';
    assert forall k :: 0 <= k < i ==> line[k] != '<' by {
      forall k | 0 <= k < i ensures line[k] != '<' {
        if k < |a| { assert line[k] == a[k]; }
      }
    }
    var found := FirstOpen(line, 0);
    assert line[..i - 1] == a;
    assert line[i + 1..|line| - 1] == e;
  }

  /** The setup keys the layout arguments read, in the order the dict display reads them. */
  const MetadataKeys: seq<string> := ["version", "description", "author", "author_email", "license"]

  /**
   * The arguments for poetry's layout: always the project and both
   * dependency lists as they stand; version, description, author line and
   * license only when there is setup data, read from it in order, the
   * first missing key raising KeyError.
   */
  function LayoutKwargs(project: Project, deps: seq<Dependency>, devDeps: seq<Dependency>, data: SetupData): (r: Result<LayoutArgs, Error>)
    ensures r.Ok? ==> r.value.project == project && r.value.dependencies == deps && r.value.devDependencies == devDeps
    ensures r.Ok? ==> (r.value.metadata.Some? <==> |data| > 0)
    ensures r.Err? <==> |data| > 0 && exists i :: 0 <= i < |MetadataKeys| && MetadataKeys[i] !in data
    ensures r.Err? ==> exists i :: 0 <= i < |MetadataKeys| && r.error == KeyError(MetadataKeys[i]) && MetadataKeys[i] !in data
                                   && forall j :: 0 <= j < i ==> MetadataKeys[j] in data
    ensures r.Ok? && |data| > 0 ==>
              "version" in data && "description" in data && "author" in data && "author_email" in data && "license" in data
              && r.value.metadata == Some(Metadata(data["version"], data["description"],
                                                   data["author"] + " <" + data["author_email"] + ">", data["license"]))
  {
    if |data| == 0 then Ok(LayoutArgs(project, deps, devDeps, None))
    else if "version" !in data then
      assert MetadataKeys[0] !in data;
      Err(KeyError("version"))
    else if "description" !in data then
      assert MetadataKeys[1] !in data && MetadataKeys[0] in data;
      Err(KeyError("description"))
    else match LayoutAuthor(data)
      case Err(e) =>
        if "author" !in data then
          assert MetadataKeys[2] !in data && MetadataKeys[1] in data && MetadataKeys[0] in data;
          Err(e)
        else
          assert MetadataKeys[3] !in data && MetadataKeys[2] in data && MetadataKeys[1] in data && MetadataKeys[0] in data;
          Err(e)
      case Ok(author) =>
        if "license" !in data then
          assert MetadataKeys[4] !in data && MetadataKeys[3] in data && MetadataKeys[2] in data
                 && MetadataKeys[1] in data && MetadataKeys[0] in data;
          Err(KeyError("license"))
        else
          Ok(LayoutArgs(project, deps, devDeps,
                        Some(Metadata(data["version"], data["description"], author.value, data["license"]))))
  }

  /**
   * `parse_setup_py` as a function of what is on disk: the setup data and
   * the project it names, or the exception it raises. A missing file is an
   * OSError; the rewritten source (intended argument order) is what gets
   * executed.
   */
  function SetupOutcome(files: map<Path, string>, setupPath: Path, exec: SetupExec): Result<(SetupData, Project), Error> {
    if setupPath !in files then Err(OSError(setupPath))
    else match exec(RewriteSetup(files[setupPath]))
      case Err(e) => Err(e)
      case Ok(data) =>
        match ProjectFromSetup(data)
        case Err(e) => Err(e)
        case Ok(p) => Ok((data, p))
  }

  /** `requirements.parse` over several files in turn, stopping at the first exception. */
  function ReadAll(read: RequirementReader, paths: seq<Path>): Stream
    decreases |paths|
  {
    if paths == [] then Empty else Then(ReadAll(read, paths[..|paths| - 1]), read(paths[|paths| - 1]))
  }

  /** Reading one more file: what the files before it gave, then what it gives. */
  lemma ReadAllStep(read: RequirementReader, paths: seq<Path>, i: nat)
    requires i < |paths|
    ensures ReadAll(read, paths[..i + 1]) == Then(ReadAll(read, paths[..i]), read(paths[i]))
  {
    assert paths[..i + 1][..i] == paths[..i];
  }

  /** Once a prefix of the files ends in an exception, reading the rest adds nothing. */
  lemma {:induction false} ReadAllStops(read: RequirementReader, paths: seq<Path>, n: nat)
    requires n <= |paths| && ReadAll(read, paths[..n]).error.Some?
    ensures ReadAll(read, paths) == ReadAll(read, paths[..n])
    decreases |paths| - n
  {
    if n < |paths| {
      assert paths[..n + 1][..n] == paths[..n];
      ReadAllStops(read, paths, n + 1);
    } else {
      assert paths[..n] == paths;
    }
  }

  /**
   * `convert_command` as a function of its inputs. The dependency files are
   * read first, then the dev files; with `devFlag` false (as written at
   * core.py:83) the dev files' requirements join the normal list, with
   * `devFlag` true they go to the dev list. A missing setup file is
   * tolerated and the defaults name the project; any other setup failure
   * propagates.
   */
  function Conversion(depFiles: seq<Path>, devFiles: seq<Path>, baseDir: Path, name: Option<string>, version: string,
                      read: RequirementReader, files: map<Path, string>, exec: SetupExec, devFlag: bool): Result<LayoutArgs, Error>
  {
    var normal := ReadAll(read, depFiles);
    var dev := ReadAll(read, devFiles);
    if normal.error.Some? then Err(normal.error.value)
    else if dev.error.Some? then Err(dev.error.value)
    else
      var deps := if devFlag then ToDependencies(normal.records) else ToDependencies(normal.records + dev.records);
      var devDeps := if devFlag then ToDependencies(dev.records) else [];
      Finish(baseDir, name, version, files, exec, deps, devDeps)
  }

  /** The steps after the dependencies are in: setup, defaults, dump. */
  function Finish(baseDir: Path, name: Option<string>, version: string, files: map<Path, string>, exec: SetupExec,
                  deps: seq<Dependency>, devDeps: seq<Dependency>): Result<LayoutArgs, Error>
  {
    match SetupOutcome(files, JoinPath(baseDir, SetupFileName), exec)
    case Ok((data, project)) => LayoutKwargs(project, deps, devDeps, data)
    case Err(e) =>
      if e.IsOSError() then LayoutKwargs(DefaultProject(baseDir, name, version), deps, devDeps, map[])
      else Err(e)
  }

  /** The steps after the dependencies are in hand both lists to the layout unchanged. */
  lemma FinishKeepsDependencies(baseDir: Path, name: Option<string>, version: string, files: map<Path, string>,
                                exec: SetupExec, deps: seq<Dependency>, devDeps: seq<Dependency>)
    ensures var r := Finish(baseDir, name, version, files, exec, deps, devDeps);
            r.Ok? ==> r.value.dependencies == deps && r.value.devDependencies == devDeps
  {
  }

  /** The converter state of core.py, field by field. */
  class Converter {
    var project: Option<Project>
    var baseDir: Path
    var dependencies: seq<Dependency>
    var devDependencies: seq<Dependency>
    var setupData: SetupData

    /** A fresh converter: no project, no dependencies, no setup data. */
    constructor(baseDir: Path)
      ensures project == None && this.baseDir == baseDir
      ensures dependencies == [] && devDependencies == [] && setupData == map[]
    {
      project := None;
      this.baseDir := baseDir;
      dependencies := [];
      devDependencies := [];
      setupData := map[];
    }

    /** `parse_setup_py(setup_path)` */
    method ParseSetupPy(files: map<Path, string>, setupPath: Path, exec: SetupExec) returns (err: Option<Error>)
      modifies this
      ensures baseDir == old(baseDir) && dependencies == old(dependencies) && devDependencies == old(devDependencies)
      ensures var out := SetupOutcome(files, setupPath, exec);
              (out.Ok? ==> err == None && project == Some(out.value.1) && setupData == out.value.0)
              && (out.Err? ==> err == Some(out.error) && project == old(project))
      ensures setupData == if setupPath in files && exec(RewriteSetup(files[setupPath])).Ok?
                           then exec(RewriteSetup(files[setupPath])).value else old(setupData)
    {
      if setupPath !in files {
        return Some(OSError(setupPath));
      }
      // core.py:30 passes the two arguments of `RE_REPL_SETUP` the other way
      // round (RewriteSetupAsWritten); the intended rewrite is executed here
      var code := RewriteSetup(files[setupPath]);
      var ran := exec(code);
      if ran.Err? {
        return Some(ran.error);
      }
      setupData := ran.value;
      var p := ProjectFromSetup(setupData);
      if p.Err? {
        return Some(p.error);
      }
      project := Some(p.value);
      return None;
    }

    /**
     * `add_dependencies(req_file, is_dev)`: one dependency per requirement
     * read, appended in order to exactly one of the two lists; the other
     * list and the rest of the state are left alone. An exception from the
     * reader ends the loop after what was read before it.
     */
    method AddDependencies(read: RequirementReader, reqFile: Path, isDev: bool) returns (err: Option<Error>)
      modifies this
      ensures err == read(reqFile).error
      ensures (dependencies, devDependencies)
              == Placed(isDev, old(dependencies), old(devDependencies), ToDependencies(read(reqFile).records))
      ensures project == old(project) && baseDir == old(baseDir) && setupData == old(setupData)
    {
      var parsed := read(reqFile);
      var i := 0;
      assert old(dependencies) + [] == old(dependencies) && old(devDependencies) + [] == old(devDependencies);
      while i < |parsed.records|
        invariant 0 <= i <= |parsed.records|
        invariant (dependencies, devDependencies)
                  == Placed(isDev, old(dependencies), old(devDependencies), ToDependencies(parsed.records[..i]))
        invariant project == old(project) && baseDir == old(baseDir) && setupData == old(setupData)
      {
        var dep := ToDependency(parsed.records[i]);
        ToDependenciesAppend(parsed.records[..i], [parsed.records[i]]);
        assert ToDependencies([parsed.records[i]]) == [dep] by {
          assert [parsed.records[i]][1..] == [];
        }
        assert parsed.records[..i + 1] == parsed.records[..i] + [parsed.records[i]];
        PlacedTwice(isDev, old(dependencies), old(devDependencies), ToDependencies(parsed.records[..i]), [dep]);
        if isDev {
          devDependencies := devDependencies + [dep];
        } else {
          dependencies := dependencies + [dep];
        }
        i := i + 1;
      }
      assert parsed.records[..i] == parsed.records;
      return parsed.error;
    }

    /** `set_project_by_defaults(name, version)` */
    method SetProjectByDefaults(name: Option<string> := None, version: string := DefaultVersion)
      modifies this
      ensures project == Some(DefaultProject(baseDir, name, version))
      ensures baseDir == old(baseDir) && dependencies == old(dependencies)
      ensures devDependencies == old(devDependencies) && setupData == old(setupData)
    {
      var defaultName := Name(baseDir);
      var chosen := if name.Some? && name.value != "" then name.value else defaultName;
      project := Some(Project(chosen, version));
    }

    /**
     * `dump_to_pyproject_toml`: refuses to run without a project; otherwise
     * the arguments it hands to poetry's layout.
     */
    method DumpToPyprojectToml() returns (r: Result<LayoutArgs, Error>)
      ensures project.None? ==> r == Err(RuntimeError(NoProjectMessage))
      ensures project.Some? ==> r == LayoutKwargs(project.value, dependencies, devDependencies, setupData)
    {
      if project.None? {
        return Err(RuntimeError(NoProjectMessage));
      }
      // core.py:70 passes `project`, an undefined name; `self.project` is meant
      r := LayoutKwargs(project.value, dependencies, devDependencies, setupData);
    }
  }

  /** `for depfile in files: converter.add_dependencies(depfile, is_dev)` */
  method AddAll(c: Converter, read: RequirementReader, paths: seq<Path>, isDev: bool) returns (err: Option<Error>)
    modifies c
    ensures err == ReadAll(read, paths).error
    ensures (c.dependencies, c.devDependencies)
            == Placed(isDev, old(c.dependencies), old(c.devDependencies), ToDependencies(ReadAll(read, paths).records))
    ensures c.project == old(c.project) && c.baseDir == old(c.baseDir) && c.setupData == old(c.setupData)
  {
    ghost var d0, v0 := c.dependencies, c.devDependencies;
    var i := 0;
    assert d0 + [] == d0 && v0 + [] == v0;
    while i < |paths|
      invariant 0 <= i <= |paths|
      invariant ReadAll(read, paths[..i]).error == None
      invariant (c.dependencies, c.devDependencies) == Placed(isDev, d0, v0, ToDependencies(ReadAll(read, paths[..i]).records))
      invariant c.project == old(c.project) && c.baseDir == old(c.baseDir) && c.setupData == old(c.setupData)
    {
      err := c.AddDependencies(read, paths[i], isDev);
      ReadOneMore(read, paths, i);
      PlacedTwice(isDev, d0, v0, ToDependencies(ReadAll(read, paths[..i]).records), ToDependencies(read(paths[i]).records));
      if err.Some? {
        return;
      }
      i := i + 1;
    }
    assert paths[..i] == paths;
    return None;
  }

  /**
   * One more file read after files that all read cleanly: its
   * dependencies follow theirs, and its exception, if any, is the
   * exception of the whole run.
   */
  lemma ReadOneMore(read: RequirementReader, paths: seq<Path>, i: nat)
    requires i < |paths| && ReadAll(read, paths[..i]).error == None
    ensures ToDependencies(ReadAll(read, paths[..i + 1]).records)
            == ToDependencies(ReadAll(read, paths[..i]).records) + ToDependencies(read(paths[i]).records)
    ensures ReadAll(read, paths[..i + 1]).error == read(paths[i]).error
    ensures read(paths[i]).error.Some? ==> ReadAll(read, paths) == ReadAll(read, paths[..i + 1])
  {
    ReadAllStep(read, paths, i);
    ToDependenciesAppend(ReadAll(read, paths[..i]).records, read(paths[i]).records);
    if read(paths[i]).error.Some? {
      ReadAllStops(read, paths, i + 1);
    }
  }

  /** `try: parse_setup_py ... except OSError`, the defaults when no project was set, then the dump. */
  method FinishConversion(c: Converter, files: map<Path, string>, exec: SetupExec, name: Option<string>, version: string)
    returns (r: Result<LayoutArgs, Error>)
    requires c.project == None && c.setupData == map[]
    modifies c
    ensures r == Finish(old(c.baseDir), name, version, files, exec, old(c.dependencies), old(c.devDependencies))
  {
    // core.py:85 passes `setup_path`, an undefined name; the `setup.py` of the base directory is meant
    var setupPath := JoinPath(c.baseDir, SetupFileName);
    var err := c.ParseSetupPy(files, setupPath, exec);
    if err.Some? && !err.value.IsOSError() {
      return Err(err.value);
    }
    if c.project.None? {
      c.SetProjectByDefaults(name, version);
    }
    r := c.DumpToPyprojectToml();
  }

  /** `convert_command`, as written: the dev files are added without `is_dev=True` (core.py:83). */
  method ConvertCommand(depFiles: seq<Path>, devFiles: seq<Path>, baseDir: Path,
                        read: RequirementReader, files: map<Path, string>, exec: SetupExec,
                        name: Option<string> := None, version: string := DefaultVersion)
    returns (r: Result<LayoutArgs, Error>)
    ensures r == Conversion(depFiles, devFiles, baseDir, name, version, read, files, exec, false)
  {
    var c := new Converter(baseDir);
    var err := AddAll(c, read, depFiles, false);
    if err.Some? {
      return Err(err.value);
    }
    // core.py:83 calls add_dependencies(depfile) for the dev files too, so they join the normal list
    err := AddAll(c, read, devFiles, false);
    if err.Some? {
      return Err(err.value);
    }
    ToDependenciesAppend(ReadAll(read, depFiles).records, ReadAll(read, devFiles).records);
    assert c.dependencies == ToDependencies(ReadAll(read, depFiles).records + ReadAll(read, devFiles).records);
    r := FinishConversion(c, files, exec, name, version);
  }

  /** `convert_command` with the dev files added as dev dependencies, as the loop's log line announces. */
  method ConvertCommandIntended(depFiles: seq<Path>, devFiles: seq<Path>, baseDir: Path,
                                read: RequirementReader, files: map<Path, string>, exec: SetupExec,
                                name: Option<string> := None, version: string := DefaultVersion)
    returns (r: Result<LayoutArgs, Error>)
    ensures r == Conversion(depFiles, devFiles, baseDir, name, version, read, files, exec, true)
  {
    var c := new Converter(baseDir);
    var err := AddAll(c, read, depFiles, false);
    if err.Some? {
      return Err(err.value);
    }
    err := AddAll(c, read, devFiles, true);
    if err.Some? {
      return Err(err.value);
    }
    assert c.dependencies == ToDependencies(ReadAll(read, depFiles).records);
    assert c.devDependencies == ToDependencies(ReadAll(read, devFiles).records);
    r := FinishConversion(c, files, exec, name, version);
  }

  // ---------------------------------------------------------------------
  // What a conversion promises

  /**
   * The dump never meets a converter without a project: once the files
   * are read and `setup.py` has either given a project or is missing, the
   * only way a conversion fails is a missing metadata key, never "No
   * project specified.". A successful conversion has the project that
   * `setup.py` names; only without `setup.py` do the defaults name it, so
   * defaults never override setup data.
   */
  lemma ConversionProject(depFiles: seq<Path>, devFiles: seq<Path>, baseDir: Path, name: Option<string>, version: string,
                          read: RequirementReader, files: map<Path, string>, exec: SetupExec, devFlag: bool)
    ensures var r := Conversion(depFiles, devFiles, baseDir, name, version, read, files, exec, devFlag);
            var setup := SetupOutcome(files, JoinPath(baseDir, SetupFileName), exec);
            var readOk := ReadAll(read, depFiles).error == None && ReadAll(read, devFiles).error == None;
            (readOk && (setup.Ok? || setup.error.IsOSError()) && r.Err? ==> r.error.KeyError?)
            && (r.Ok? && setup.Ok? ==> r.value.project == setup.value.1)
            && (r.Ok? && setup.Err? ==> setup.error.IsOSError() && r.value.project == DefaultProject(baseDir, name, version)
                                        && r.value.metadata == None)
  {
    var normal, dev := ReadAll(read, depFiles), ReadAll(read, devFiles);
    if normal.error == None && dev.error == None {
      var deps := if devFlag then ToDependencies(normal.records) else ToDependencies(normal.records + dev.records);
      var devDeps := if devFlag then ToDependencies(dev.records) else [];
      var setup := SetupOutcome(files, JoinPath(baseDir, SetupFileName), exec);
      if setup.Ok? {
        var kw := LayoutKwargs(setup.value.1, deps, devDeps, setup.value.0);
        assert Finish(baseDir, name, version, files, exec, deps, devDeps) == kw;
      }
    }
  }

  /** Without `setup.py`, a conversion whose files all read succeeds, with the defaults and no metadata. */
  lemma ConversionWithoutSetup(depFiles: seq<Path>, devFiles: seq<Path>, baseDir: Path, name: Option<string>, version: string,
                               read: RequirementReader, files: map<Path, string>, exec: SetupExec, devFlag: bool)
    requires JoinPath(baseDir, SetupFileName) !in files
    requires ReadAll(read, depFiles).error == None && ReadAll(read, devFiles).error == None
    ensures var r := Conversion(depFiles, devFiles, baseDir, name, version, read, files, exec, devFlag);
            r.Ok? && r.value.project == DefaultProject(baseDir, name, version) && r.value.metadata == None
  {
  }

  /**
   * With the default arguments and no `setup.py`, the project is named after
   * the base directory and versioned `0.1.0`.
   */
  lemma ConversionDefaultArguments(depFiles: seq<Path>, devFiles: seq<Path>, baseDir: Path,
                                   read: RequirementReader, files: map<Path, string>, exec: SetupExec, devFlag: bool)
    requires JoinPath(baseDir, SetupFileName) !in files
    requires ReadAll(read, depFiles).error == None && ReadAll(read, devFiles).error == None
    ensures var r := Conversion(depFiles, devFiles, baseDir, None, DefaultVersion, read, files, exec, devFlag);
            r.Ok? && r.value.project == Project(Name(baseDir), "0.1.0") && r.value.metadata == None
  {
    ConversionWithoutSetup(depFiles, devFiles, baseDir, None, DefaultVersion, read, files, exec, devFlag);
  }

  /**
   * As written (core.py:83) the dev files' requirements join the normal
   * dependencies, after the normal files' ones, and the dev list stays
   * empty.
   */
  lemma DevFilesAsWritten(depFiles: seq<Path>, devFiles: seq<Path>, baseDir: Path, name: Option<string>, version: string,
                          read: RequirementReader, files: map<Path, string>, exec: SetupExec)
    ensures var written := Conversion(depFiles, devFiles, baseDir, name, version, read, files, exec, false);
            var normal, dev := ReadAll(read, depFiles).records, ReadAll(read, devFiles).records;
            written.Ok? ==> written.value.dependencies == ToDependencies(normal) + ToDependencies(dev)
                            && written.value.devDependencies == []
  {
    var normal, dev := ReadAll(read, depFiles), ReadAll(read, devFiles);
    ToDependenciesAppend(normal.records, dev.records);
    FinishKeepsDependencies(baseDir, name, version, files, exec, ToDependencies(normal.records + dev.records), []);
  }

  /** As intended, the dev list holds exactly the dev files' requirements and the normal list the others. */
  lemma DevFilesIntended(depFiles: seq<Path>, devFiles: seq<Path>, baseDir: Path, name: Option<string>, version: string,
                         read: RequirementReader, files: map<Path, string>, exec: SetupExec)
    ensures var intended := Conversion(depFiles, devFiles, baseDir, name, version, read, files, exec, true);
            var normal, dev := ReadAll(read, depFiles).records, ReadAll(read, devFiles).records;
            intended.Ok? ==> intended.value.dependencies == ToDependencies(normal)
                             && intended.value.devDependencies == ToDependencies(dev)
  {
    var normal, dev := ReadAll(read, depFiles), ReadAll(read, devFiles);
    FinishKeepsDependencies(baseDir, name, version, files, exec, ToDependencies(normal.records), ToDependencies(dev.records));
  }

  /** The two differ whenever a dev file yields a requirement. */
  lemma DevFilesMisfiled(depFiles: seq<Path>, devFiles: seq<Path>, baseDir: Path, name: Option<string>, version: string,
                         read: RequirementReader, files: map<Path, string>, exec: SetupExec)
    requires ReadAll(read, devFiles).records != []
    ensures var written := Conversion(depFiles, devFiles, baseDir, name, version, read, files, exec, false);
            var intended := Conversion(depFiles, devFiles, baseDir, name, version, read, files, exec, true);
            written.Ok? && intended.Ok? ==> written.value.devDependencies != intended.value.devDependencies
  {
    DevFilesAsWritten(depFiles, devFiles, baseDir, name, version, read, files, exec);
    DevFilesIntended(depFiles, devFiles, baseDir, name, version, read, files, exec);
    ToDependenciesAt(ReadAll(read, devFiles).records);
  }
}
