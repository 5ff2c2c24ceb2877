/** The worker's run: which packages declare tests, their `_obsci` documents,
    the test files, the binaries under test, the dependency repositories, and
    the one call handed to the test environment. Parsing of `_obsci` documents
    and the test environment itself are given from outside. */
module Worker {
  import opened Base
  import opened Files
  import opened Obs

  /** One `{project, package}` entry of a project's `test_packages`. */
  datatype PackageRef = PackageRef(project: string, package: string)

  /** A parsed project-level `_obsci`; `testPackages` is `None` when the key is absent. */
  datatype ProjectConfig = ProjectConfig(testPackages: Option<seq<PackageRef>>)

  /** A parsed package-level `_obsci`: the names of its `tests`, in order. */
  datatype PackageConfig = PackageConfig(testNames: seq<string>)

  /** The two document readers (YAML loading plus schema validation); `None`
      stands for a document they reject. */
  datatype Parsers = Parsers(project: seq<byte> -> Option<ProjectConfig>,
                             package: seq<byte> -> Option<PackageConfig>)

  /** The command line of one run. */
  datatype Args = Args(project: string, repository: string, arch: string, package: string,
                       testenvType: string, testenv: string)

  /** The single `run` call made on the test environment. */
  datatype RunCall = RunCall(testenv: string, repositories: seq<RepoDescriptor>,
                             subjectDir: string, testDir: string, testNames: seq<string>)

  /** What a step returned and the requests it made, in order. */
  datatype Stage<T> = Stage(result: Result<T>, requests: seq<string>)

  /** A whole run: the call handed to the test environment (or the error that
      ended the run), every request in order, and both directories afterwards. */
  datatype Outcome = Outcome(result: Result<RunCall>, requests: seq<string>,
                             testFiles: map<string, FileEntry>, subjectFiles: map<string, FileEntry>)

  /** The only test environment type the worker knows. */
  const ContainerTestenv: string := "container"

  // ---------------------------------------------------------------------------
  // Candidate packages

  /** The packages a project-level config declares; none without a config or
      without a `test_packages` key. */
  function Declared(conf: Option<ProjectConfig>): seq<PackageRef>
  {
    if conf.Some? && conf.value.testPackages.Some? then conf.value.testPackages.value else []
  }

  /** The declared packages, followed by the run's own package unless it is
      already declared. */
  function Candidates(conf: Option<ProjectConfig>, project: string, package: string): (c: seq<PackageRef>)
    ensures PackageRef(project, package) in c
    ensures |Declared(conf)| <= |c| && c[..|Declared(conf)|] == Declared(conf)
    ensures |c| == |Declared(conf)| + (if PackageRef(project, package) in Declared(conf) then 0 else 1)
  {
    var own := PackageRef(project, package);
    var declared := Declared(conf);
    if own in declared then declared else declared + [own]
  }

  /** Only the run's own package gets added, and it ends up present once unless
      the configuration itself lists it several times. */
  lemma CandidateCounts(conf: Option<ProjectConfig>, project: string, package: string, x: PackageRef)
    ensures var c := multiset(Candidates(conf, project, package));
      var d := multiset(Declared(conf));
      c[x] == if x == PackageRef(project, package) && d[x] == 0 then 1 else d[x]
  {
  }

  /** Without a project-level config, or with one lacking `test_packages`, the
      run's own package is the only candidate. */
  lemma OnlyOwnPackage(conf: Option<ProjectConfig>, project: string, package: string)
    requires conf.None? || conf.value.testPackages.None?
    ensures Candidates(conf, project, package) == [PackageRef(project, package)]
  {
  }

  // ---------------------------------------------------------------------------
  // Package configs

  function ConfigUrl(obs: Client, c: PackageRef): string
  {
    obs.FileUrl(c.project, c.package, ConfigFile)
  }

  /** The candidate has an `_obsci` document that the package reader rejects. */
  predicate Rejected(obs: Client, parsers: Parsers, c: PackageRef)
  {
    var f := obs.FileAt(ConfigUrl(obs, c));
    f.Some? && parsers.package(f.value).None?
  }

  /** The configs of the candidates, in candidate order: one request per
      candidate; an absent `_obsci` is skipped, a rejected one ends the walk. */
  function Collect(obs: Client, parsers: Parsers, cands: seq<PackageRef>): Stage<seq<PackageConfig>>
    decreases |cands|
  {
    if cands == [] then Stage(Success([]), [])
    else
      var u := ConfigUrl(obs, cands[0]);
      match obs.FileAt(u)
      case None =>
        var rest := Collect(obs, parsers, cands[1..]);
        Stage(rest.result, [u] + rest.requests)
      case Some(doc) =>
        match parsers.package(doc)
        case None => Stage(Failure(InvalidConfig), [u])
        case Some(pc) =>
          var rest := Collect(obs, parsers, cands[1..]);
          Stage(Extend([pc], rest.result), [u] + rest.requests)
  }

  /** Reference definition: the parsed `_obsci` of every candidate that has one, in order. */
  function Kept(obs: Client, parsers: Parsers, cands: seq<PackageRef>): seq<PackageConfig>
  {
    if cands == [] then []
    else
      var c := cands[|cands| - 1];
      var f := obs.FileAt(ConfigUrl(obs, c));
      Kept(obs, parsers, cands[..|cands| - 1])
        + (if f.Some? && parsers.package(f.value).Some? then [parsers.package(f.value).value] else [])
  }

  function ConfigUrls(obs: Client, cands: seq<PackageRef>): seq<string>
  {
    seq(|cands|, k requires 0 <= k < |cands| => ConfigUrl(obs, cands[k]))
  }

  /** Walking two lists of candidates is walking the first, then (if it did not
      fail) the second. */
  lemma {:induction false} CollectAppend(obs: Client, parsers: Parsers, a: seq<PackageRef>, b: seq<PackageRef>)
    ensures var sa := Collect(obs, parsers, a);
      var sb := Collect(obs, parsers, b);
      Collect(obs, parsers, a + b)
        == if sa.result.Failure? then sa else Stage(Extend(sa.result.value, sb.result), sa.requests + sb.requests)
    decreases |a|
  {
    var sb := Collect(obs, parsers, b);
    if a == [] {
      assert a + b == b;
      assert Extend([], sb.result) == sb.result;
    } else {
      assert (a + b)[0] == a[0];
      assert (a + b)[1..] == a[1..] + b;
      CollectAppend(obs, parsers, a[1..], b);
      var rest := Collect(obs, parsers, a[1..]);
      var u := ConfigUrl(obs, a[0]);
      match obs.FileAt(u)
      case None =>
        assert [u] + (rest.requests + sb.requests) == ([u] + rest.requests) + sb.requests;
      case Some(doc) =>
        match parsers.package(doc)
        case None =>
        case Some(pc) =>
          assert [u] + (rest.requests + sb.requests) == ([u] + rest.requests) + sb.requests;
          if rest.result.Success? {
            ExtendAppend([pc], rest.result.value, sb.result);
          }
    }
  }

  /** The walk fails exactly when some candidate's `_obsci` is rejected;
      otherwise it yields the reference list and has asked once for every
      candidate, in order. */
  lemma {:induction false} CollectMeaning(obs: Client, parsers: Parsers, cands: seq<PackageRef>)
    ensures var s := Collect(obs, parsers, cands);
      && (s.result.Failure? <==> exists k :: 0 <= k < |cands| && Rejected(obs, parsers, cands[k]))
      && (s.result.Failure? ==> s.result.error == InvalidConfig)
      && (s.result.Success? ==> s.result.value == Kept(obs, parsers, cands) && s.requests == ConfigUrls(obs, cands))
  {
    if cands != [] {
      var n := |cands| - 1;
      var front := cands[..n];
      var c := cands[n];
      CollectMeaning(obs, parsers, front);
      assert cands == front + [c];
      CollectAppend(obs, parsers, front, [c]);
      assert [c][1..] == [];
      var sf := Collect(obs, parsers, front);
      var sc := Collect(obs, parsers, [c]);
      if exists k :: 0 <= k < |front| && Rejected(obs, parsers, front[k]) {
        var k :| 0 <= k < |front| && Rejected(obs, parsers, front[k]);
        assert cands[k] == front[k];
      }
      if exists k :: 0 <= k < |cands| && Rejected(obs, parsers, cands[k]) {
        var k :| 0 <= k < |cands| && Rejected(obs, parsers, cands[k]);
        if k < n {
          assert front[k] == cands[k];
        }
      }
      if sf.result.Success? && sc.result.Success? {
        assert ConfigUrls(obs, cands) == ConfigUrls(obs, front) + [ConfigUrl(obs, c)];
      }
    }
  }

  /** The project-level config: absent, parsed, or rejected by its reader. */
  function ProjectConfigAt(obs: Client, parsers: Parsers, project: string): Result<Option<ProjectConfig>>
  {
    match obs.FileAt(obs.FileUrl(project, ProjectPackage, ConfigFile))
    case None => Success(None)
    case Some(doc) =>
      match parsers.project(doc)
      case None => Failure(InvalidConfig)
      case Some(conf) => Success(Some(conf))
  }

  /** `get_config_from_packages` as a whole: the project-level request, then the walk. */
  function ConfigsStage(obs: Client, parsers: Parsers, project: string, package: string): Stage<seq<PackageConfig>>
  {
    var u := obs.FileUrl(project, ProjectPackage, ConfigFile);
    match ProjectConfigAt(obs, parsers, project)
    case Failure(e) => Stage(Failure(e), [u])
    case Success(conf) =>
      var s := Collect(obs, parsers, Candidates(conf, project, package));
      Stage(s.result, [u] + s.requests)
  }

  /** The config lookup fails only on a rejected document. */
  lemma ConfigsStageError(obs: Client, parsers: Parsers, project: string, package: string)
    ensures var s := ConfigsStage(obs, parsers, project, package);
      s.result.Failure? ==> s.result.error == InvalidConfig
  {
    if ProjectConfigAt(obs, parsers, project).Success? {
      CollectMeaning(obs, parsers, Candidates(ProjectConfigAt(obs, parsers, project).value, project, package));
    }
  }

  /** `get_config_from_packages`: the configs of the candidate packages, in
      candidate order, skipping candidates without an `_obsci`. The
      project-level document is looked up in the project's `_project`
      pseudo-package. */
  method GetConfigFromPackages(obs: Client, parsers: Parsers, project: string, package: string)
    returns (r: Result<seq<PackageConfig>>)
    modifies obs.net
    ensures var s := ConfigsStage(obs, parsers, project, package);
      r == s.result && obs.net.requested == old(obs.net.requested) + s.requests
  {
    var candidates: seq<PackageRef> := [];
    ghost var conf: Option<ProjectConfig> := None;
    var projectDoc := obs.GetConfigFromProject(project);
    if projectDoc.Some? {
      var parsed := parsers.project(projectDoc.value);
      if parsed.None? {
        return Failure(InvalidConfig);
      }
      conf := parsed;
      candidates := if parsed.value.testPackages.Some? then parsed.value.testPackages.value else [];
    }
    // the package itself, unless the project config already names it
    if PackageRef(project, package) !in candidates {
      candidates := candidates + [PackageRef(project, package)];
    }
    assert candidates == Candidates(conf, project, package);

    r := CollectConfigs(obs, parsers, candidates);
  }

  /** The loop of `get_config_from_packages` over the candidates. */
  method CollectConfigs(obs: Client, parsers: Parsers, candidates: seq<PackageRef>) returns (r: Result<seq<PackageConfig>>)
    modifies obs.net
    ensures var s := Collect(obs, parsers, candidates);
      r == s.result && obs.net.requested == old(obs.net.requested) + s.requests
  {
    var configs: seq<PackageConfig> := [];
    ghost var log0 := obs.net.requested;
    ghost var sent: seq<string> := [];
    var i := 0;
    while i < |candidates|
      invariant 0 <= i <= |candidates|
      invariant Extend(configs, Collect(obs, parsers, candidates[i..]).result) == Collect(obs, parsers, candidates).result
      invariant obs.net.requested == log0 + sent
      invariant sent + Collect(obs, parsers, candidates[i..]).requests == Collect(obs, parsers, candidates).requests
    {
      var pkg := candidates[i];
      assert candidates[i..][1..] == candidates[i + 1..];
      var rest := Collect(obs, parsers, candidates[i + 1..]);
      var doc := obs.GetConfigFromPackage(pkg.project, pkg.package);
      ghost var prev := sent;
      sent := sent + [ConfigUrl(obs, pkg)];
      ConcatAssoc(prev, [ConfigUrl(obs, pkg)], rest.requests);
      if doc.Some? {
        var parsed := parsers.package(doc.value);
        if parsed.None? {
          return Failure(InvalidConfig);
        }
        ExtendAppend(configs, [parsed.value], rest.result);
        configs := configs + [parsed.value];
      }
      i := i + 1;
    }
    assert candidates[i..] == [];
    assert configs + [] == configs;
    return Success(configs);
  }

  // ---------------------------------------------------------------------------
  // Test names

  /** Every config's test names, config after config, duplicates kept. */
  function AllTestNames(configs: seq<PackageConfig>): seq<string>
  {
    if configs == [] then []
    else AllTestNames(configs[..|configs| - 1]) + configs[|configs| - 1].testNames
  }

  lemma {:induction false} AllTestNamesAppend(a: seq<PackageConfig>, b: seq<PackageConfig>)
    ensures AllTestNames(a + b) == AllTestNames(a) + AllTestNames(b)
    decreases |b|
  {
    if b == [] {
      assert a + b == a;
    } else {
      var n := |b| - 1;
      assert (a + b)[..|a + b| - 1] == a + b[..n];
      AllTestNamesAppend(a, b[..n]);
    }
  }

  /** A name is passed on exactly when some config declares it. */
  lemma {:induction false} AllTestNamesMembers(configs: seq<PackageConfig>, name: string)
    ensures name in AllTestNames(configs) <==> exists i :: 0 <= i < |configs| && name in configs[i].testNames
  {
    if configs != [] {
      var n := |configs| - 1;
      var front := configs[..n];
      AllTestNamesMembers(front, name);
      assert AllTestNames(configs) == AllTestNames(front) + configs[n].testNames;
      if name in AllTestNames(front) {
        var i :| 0 <= i < n && name in front[i].testNames;
        assert configs[i] == front[i];
      }
      if exists i :: 0 <= i < |configs| && name in configs[i].testNames {
        var i :| 0 <= i < |configs| && name in configs[i].testNames;
        if i < n {
          assert front[i] == configs[i];
        }
      }
    }
  }

  /** Duplicates are kept: a name is passed on as often as the configs declare it. */
  lemma {:induction false} AllTestNamesCount(configs: seq<PackageConfig>, name: string)
    ensures multiset(AllTestNames(configs))[name] == NameCount(configs, name)
  {
    if configs != [] {
      var n := |configs| - 1;
      var front := configs[..n];
      AllTestNamesCount(front, name);
      assert AllTestNames(configs) == AllTestNames(front) + configs[n].testNames;
      assert multiset(AllTestNames(front) + configs[n].testNames)
          == multiset(AllTestNames(front)) + multiset(configs[n].testNames);
    }
  }

  /** How often `name` is declared across the configs. */
  function NameCount(configs: seq<PackageConfig>, name: string): nat
  {
    if configs == [] then 0
    else NameCount(configs[..|configs| - 1], name) + multiset(configs[|configs| - 1].testNames)[name]
  }

  /** `testnames += conf.test_names` over the configs. */
  method CollectTestNames(configs: seq<PackageConfig>) returns (names: seq<string>)
    ensures names == AllTestNames(configs)
  {
    names := [];
    var i := 0;
    while i < |configs|
      invariant 0 <= i <= |configs|
      invariant names == AllTestNames(configs[..i])
    {
      assert configs[..i + 1][..i] == configs[..i];
      names := names + configs[i].testNames;
      i := i + 1;
    }
    assert configs[..i] == configs;
  }

  // ---------------------------------------------------------------------------
  // Test files

  function TestUrls(obs: Client, project: string, package: string, names: seq<string>): seq<string>
  {
    seq(|names|, k requires 0 <= k < |names| => obs.FileUrl(project, package, names[k]))
  }

  /** The tests directory after fetching `names` from the run's own package:
      every file found is written whole and made executable; a missing one is
      skipped. */
  function TestWrites(obs: Client, project: string, package: string, files: map<string, FileEntry>, names: seq<string>)
    : map<string, FileEntry>
  {
    if names == [] then files
    else
      var name := names[|names| - 1];
      var prev := TestWrites(obs, project, package, files, names[..|names| - 1]);
      match obs.FileAt(obs.FileUrl(project, package, name))
      case None => prev
      case Some(content) => prev[name := FileEntry(content, Some(Executable))]
  }

  /** The tests directory, name by name: a declared name whose file the run's
      own package serves holds that file, executable; every other file is
      untouched and nothing else appears. */
  lemma {:induction false} TestWritesEntry(obs: Client, project: string, package: string,
                                           files: map<string, FileEntry>, names: seq<string>, n: string)
    ensures var m := TestWrites(obs, project, package, files, names);
      var f := obs.FileAt(obs.FileUrl(project, package, n));
      && (n in m <==> n in files || (n in names && f.Some?))
      && (n in names && f.Some? ==> m[n] == FileEntry(f.value, Some(Executable)))
      && (!(n in names && f.Some?) && n in files ==> m[n] == files[n])
  {
    if names != [] {
      var k := |names| - 1;
      TestWritesEntry(obs, project, package, files, names[..k], n);
      assert names == names[..k] + [names[k]];
    }
  }

  /** One more name: one more request, and at most one more file. */
  lemma TestStep(obs: Client, project: string, package: string, files: map<string, FileEntry>, done: seq<string>, name: string)
    ensures TestUrls(obs, project, package, done + [name])
         == TestUrls(obs, project, package, done) + [obs.FileUrl(project, package, name)]
    ensures var prev := TestWrites(obs, project, package, files, done);
      TestWrites(obs, project, package, files, done + [name])
        == match obs.FileAt(obs.FileUrl(project, package, name))
           case None => prev
           case Some(content) => prev[name := FileEntry(content, Some(Executable))]
  {
    assert (done + [name])[..|done|] == done;
  }

  lemma {:induction false} TestWritesAppend(obs: Client, project: string, package: string,
                                            files: map<string, FileEntry>, a: seq<string>, b: seq<string>)
    ensures TestWrites(obs, project, package, files, a + b)
         == TestWrites(obs, project, package, TestWrites(obs, project, package, files, a), b)
    decreases |b|
  {
    if b == [] {
      assert a + b == a;
    } else {
      var n := |b| - 1;
      assert (a + b)[..|a + b| - 1] == a + b[..n];
      TestWritesAppend(obs, project, package, files, a, b[..n]);
    }
  }

  lemma TestUrlsAppend(obs: Client, project: string, package: string, a: seq<string>, b: seq<string>)
    ensures TestUrls(obs, project, package, a + b) == TestUrls(obs, project, package, a) + TestUrls(obs, project, package, b)
  {
  }

  /** The test-file loop of the run: for each config, for each declared name,
      fetch the file from the run's own package and store it executable. */
  method FetchTestFiles(obs: Client, configs: seq<PackageConfig>, project: string, package: string, tests: Directory)
    modifies obs.net, tests
    ensures tests.files == TestWrites(obs, project, package, old(tests.files), AllTestNames(configs))
    ensures obs.net.requested == old(obs.net.requested) + TestUrls(obs, project, package, AllTestNames(configs))
  {
    var i := 0;
    while i < |configs|
      invariant 0 <= i <= |configs|
      invariant tests.files == TestWrites(obs, project, package, old(tests.files), AllTestNames(configs[..i]))
      invariant obs.net.requested == old(obs.net.requested) + TestUrls(obs, project, package, AllTestNames(configs[..i]))
    {
      ghost var done := AllTestNames(configs[..i]);
      var names := configs[i].testNames;
      assert configs[..i + 1][..i] == configs[..i];
      assert AllTestNames(configs[..i + 1]) == done + names;
      FetchTests(obs, names, project, package, tests);
      TestWritesAppend(obs, project, package, old(tests.files), done, names);
      TestUrlsAppend(obs, project, package, done, names);
      i := i + 1;
    }
    assert configs[..i] == configs;
  }

  /** The inner loop: the files of one config's test names. */
  method FetchTests(obs: Client, names: seq<string>, project: string, package: string, tests: Directory)
    modifies obs.net, tests
    ensures tests.files == TestWrites(obs, project, package, old(tests.files), names)
    ensures obs.net.requested == old(obs.net.requested) + TestUrls(obs, project, package, names)
  {
    var j := 0;
    while j < |names|
      invariant 0 <= j <= |names|
      invariant tests.files == TestWrites(obs, project, package, old(tests.files), names[..j])
      invariant obs.net.requested == old(obs.net.requested) + TestUrls(obs, project, package, names[..j])
    {
      var testfilename := names[j];
      assert names[..j + 1] == names[..j] + [testfilename];
      var testfile := obs.GetTestFromPackage(project, package, testfilename);
      TestStep(obs, project, package, old(tests.files), names[..j], testfilename);
      if testfile.None? {
        // the test file is not there: skip it
        j := j + 1;
        continue;
      }
      tests.Open(testfilename);
      tests.Write(testfilename, testfile.value);
      tests.Chmod(testfilename, Executable);
      assert [] + testfile.value == testfile.value;
      j := j + 1;
    }
    assert names[..j] == names;
  }

  // ---------------------------------------------------------------------------
  // The run

  /** The run from the config lookup to the test environment call: configs,
      test files, binaries, the test environment type, repositories, names. */
  function Pipeline(obs: Client, parsers: Parsers, args: Args, testFiles: map<string, FileEntry>,
                    subjectFiles: map<string, FileEntry>, testDir: string, subjectDir: string): Outcome
  {
    var cs := ConfigsStage(obs, parsers, args.project, args.package);
    match cs.result
    case Failure(e) => Outcome(Failure(e), cs.requests, testFiles, subjectFiles)
    case Success(configs) =>
      var names := AllTestNames(configs);
      var tf := TestWrites(obs, args.project, args.package, testFiles, names);
      var b := obs.Binaries(subjectDir, subjectFiles, obs.ListUrl(args.project, args.repository, args.arch, args.package));
      var log := cs.requests + TestUrls(obs, args.project, args.package, names) + b.requests;
      if b.result.Failure? then Outcome(Failure(b.result.error), log, tf, b.files)
      else if args.testenvType != ContainerTestenv then Outcome(Failure(InvalidTestenv(args.testenvType)), log, tf, b.files)
      else
        var meta := obs.MetaUrl(args.project);
        match obs.ProjectRepositories(args.project, args.repository, args.arch)
        case Failure(e) => Outcome(Failure(e), log + [meta], tf, b.files)
        case Success(repos) => Outcome(Success(RunCall(args.testenv, repos, subjectDir, testDir, names)), log + [meta], tf, b.files)
  }

  /** `main` from the config lookup to `te.run`: returns the call made on the
      test environment, or the error that ended the run. */
  method Run(obs: Client, parsers: Parsers, args: Args, tests: Directory, subject: Directory)
    returns (r: Result<RunCall>)
    requires tests != subject
    modifies obs.net, tests, subject
    ensures var o := Pipeline(obs, parsers, args, old(tests.files), old(subject.files), tests.path, subject.path);
      && r == o.result
      && obs.net.requested == old(obs.net.requested) + o.requests
      && tests.files == o.testFiles
      && subject.files == o.subjectFiles
  {
    ghost var log0 := obs.net.requested;
    ghost var cs := ConfigsStage(obs, parsers, args.project, args.package);
    var configs := GetConfigFromPackages(obs, parsers, args.project, args.package);
    if configs.Failure? {
      return Failure(configs.error);
    }
    ghost var testLog := TestUrls(obs, args.project, args.package, AllTestNames(configs.value));
    FetchTestFiles(obs, configs.value, args.project, args.package, tests);
    ConcatAssoc(log0, cs.requests, testLog);
    ghost var lu := obs.ListUrl(args.project, args.repository, args.arch, args.package);
    ghost var b := obs.Binaries(subject.path, subject.files, lu);
    var binaries := obs.GetBinaries(subject, args.project, args.repository, args.arch, args.package);
    ConcatAssoc(log0, cs.requests + testLog, b.requests);
    if binaries.Failure? {
      return Failure(binaries.error);
    }
    if args.testenvType != ContainerTestenv {
      return Failure(InvalidTestenv(args.testenvType));
    }
    var repos := obs.GetProjectRepositories(args.project, args.repository, args.arch);
    ConcatAssoc(log0, cs.requests + testLog + b.requests, [obs.MetaUrl(args.project)]);
    if repos.Failure? {
      return Failure(repos.error);
    }
    var testnames := CollectTestNames(configs.value);
    return Success(RunCall(args.testenv, repos.value, subject.path, tests.path, testnames));
  }

  // ---------------------------------------------------------------------------
  // Properties of the run

  /** An unknown test environment type is only noticed after the configs, the
      test files and the binaries have been fetched: up to that point the run
      does exactly what a container run does, and it stops just before the
      `_meta` request. */
  lemma TestenvCheckedAfterDownloads(obs: Client, parsers: Parsers, args: Args, testFiles: map<string, FileEntry>,
                                     subjectFiles: map<string, FileEntry>, testDir: string, subjectDir: string)
    requires args.testenvType != ContainerTestenv
    ensures var bad := Pipeline(obs, parsers, args, testFiles, subjectFiles, testDir, subjectDir);
      var good := Pipeline(obs, parsers, args.(testenvType := ContainerTestenv), testFiles, subjectFiles, testDir, subjectDir);
      && bad.result.Failure?
      && bad.testFiles == good.testFiles
      && bad.subjectFiles == good.subjectFiles
      && (bad.result == Failure(InvalidTestenv(args.testenvType)) ==>
            good.requests == bad.requests + [obs.MetaUrl(args.project)])
      && (bad.result != Failure(InvalidTestenv(args.testenvType)) ==> good == bad)
  {
    var args' := args.(testenvType := ContainerTestenv);
    assert args'.project == args.project && args'.package == args.package;
    assert args'.repository == args.repository && args'.arch == args.arch;
    var cs := ConfigsStage(obs, parsers, args.project, args.package);
    if cs.result.Success? {
      var names := AllTestNames(cs.result.value);
      var b := obs.Binaries(subjectDir, subjectFiles, obs.ListUrl(args.project, args.repository, args.arch, args.package));
      var log := cs.requests + TestUrls(obs, args.project, args.package, names) + b.requests;
      if b.result.Success? {
        assert Pipeline(obs, parsers, args', testFiles, subjectFiles, testDir, subjectDir).requests
            == log + [obs.MetaUrl(args.project)];
        assert Pipeline(obs, parsers, args, testFiles, subjectFiles, testDir, subjectDir).requests == log;
      }
    } else {
      ConfigsStageError(obs, parsers, args.project, args.package);
    }
  }

  /** A run that reaches the test environment hands it the container
      environment, the resolved repositories, both directories, and every
      declared test name, in config order, whether or not its file was found;
      and by then every listed binary has been downloaded. */
  lemma {:induction false} RunCallContents(obs: Client, parsers: Parsers, args: Args, testFiles: map<string, FileEntry>,
                                           subjectFiles: map<string, FileEntry>, testDir: string, subjectDir: string)
    requires Pipeline(obs, parsers, args, testFiles, subjectFiles, testDir, subjectDir).result.Success?
    ensures var call := Pipeline(obs, parsers, args, testFiles, subjectFiles, testDir, subjectDir).result.value;
      var configs := ConfigsStage(obs, parsers, args.project, args.package).result;
      var lu := obs.ListUrl(args.project, args.repository, args.arch, args.package);
      && args.testenvType == ContainerTestenv
      && configs.Success?
      && call.testNames == AllTestNames(configs.value)
      && (forall n :: n in call.testNames <==> exists i :: 0 <= i < |configs.value| && n in configs.value[i].testNames)
      && obs.ProjectRepositories(args.project, args.repository, args.arch).Success?
      && call.repositories == obs.ProjectRepositories(args.project, args.repository, args.arch).value
      && call == RunCall(args.testenv, call.repositories, subjectDir, testDir, call.testNames)
      && obs.Listed(lu).Success?
      && obs.FirstFailure(lu, obs.Listed(lu).value) == |obs.Listed(lu).value|
  {
    var configs := ConfigsStage(obs, parsers, args.project, args.package).result.value;
    forall n {
      AllTestNamesMembers(configs, n);
    }
    var lu := obs.ListUrl(args.project, args.repository, args.arch, args.package);
    DownloadResultFirstFailure(obs, subjectDir, lu, obs.Listed(lu).value);
  }

  /** The requests of a run that reaches the test environment, in order: the
      project-level `_obsci`, each candidate's `_obsci`, each declared test
      file from the run's own package, the binary listing, each listed binary,
      and the project's `_meta`. */
  lemma {:induction false} RunRequestsInOrder(obs: Client, parsers: Parsers, args: Args, testFiles: map<string, FileEntry>,
                                              subjectFiles: map<string, FileEntry>, testDir: string, subjectDir: string)
    requires Pipeline(obs, parsers, args, testFiles, subjectFiles, testDir, subjectDir).result.Success?
    ensures ProjectConfigAt(obs, parsers, args.project).Success?
    ensures var conf := ProjectConfigAt(obs, parsers, args.project).value;
      var cands := Candidates(conf, args.project, args.package);
      var lu := obs.ListUrl(args.project, args.repository, args.arch, args.package);
      var rpms := BinaryRpms(obs.net.ListingAt(lu).body);
      Pipeline(obs, parsers, args, testFiles, subjectFiles, testDir, subjectDir).requests
        == [obs.FileUrl(args.project, ProjectPackage, ConfigFile)]
           + ConfigUrls(obs, cands)
           + TestUrls(obs, args.project, args.package, AllTestNames(Kept(obs, parsers, cands)))
           + [lu] + BinaryUrls(lu, rpms)
           + [obs.MetaUrl(args.project)]
  {
    var conf := ProjectConfigAt(obs, parsers, args.project).value;
    var cands := Candidates(conf, args.project, args.package);
    CollectMeaning(obs, parsers, cands);
    var lu := obs.ListUrl(args.project, args.repository, args.arch, args.package);
    var rpms := BinaryRpms(obs.net.ListingAt(lu).body);
    RunCallContents(obs, parsers, args, testFiles, subjectFiles, testDir, subjectDir);
    DownloadLogStopsAtFailure(obs, lu, rpms);
    assert rpms[..|rpms|] == rpms;
  }

  // ---------------------------------------------------------------------------
  // The run as written

  /** The operations `OBSCIObs` defines. */
  const ClientOperations: set<string> := {
    "_get_project_meta", "_get_download_url", "get_project_repositories", "get_binaries_list",
    "get_binaries", "_get_file_from_package", "get_config_from_package", "get_test_from_package"
  }

  /** The operation the config lookup starts with. */
  const ProjectConfigOperation: string := "get_config_from_project"

  /** The run as written: its first step calls `get_config_from_project` on the
      client, which must be one of the client's operations to get anywhere. */
  function PipelineAsWritten(obs: Client, parsers: Parsers, args: Args, testFiles: map<string, FileEntry>,
                             subjectFiles: map<string, FileEntry>, testDir: string, subjectDir: string): Outcome
  {
    if ProjectConfigOperation !in ClientOperations
    then Outcome(Failure(MissingAttribute(ProjectConfigOperation)), [], testFiles, subjectFiles)
    else Pipeline(obs, parsers, args, testFiles, subjectFiles, testDir, subjectDir)
  }

  /** As written, every run stops at its first step, before any request, with
      the directories untouched. */
  lemma AsWrittenAlwaysFails(obs: Client, parsers: Parsers, args: Args, testFiles: map<string, FileEntry>,
                             subjectFiles: map<string, FileEntry>, testDir: string, subjectDir: string)
    ensures PipelineAsWritten(obs, parsers, args, testFiles, subjectFiles, testDir, subjectDir)
         == Outcome(Failure(MissingAttribute("get_config_from_project")), [], testFiles, subjectFiles)
  {
    var name := ProjectConfigOperation;
    assert |name| == 23;
    assert forall op :: op in ClientOperations ==> |op| != 23 || op[17] != name[17];
  }
}
