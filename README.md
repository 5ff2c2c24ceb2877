# obsci worker, modelled in Dafny

obsci runs the tests declared for an Open Build Service (OBS) package
against the binaries OBS built for it. A run of the worker:

1. reads the `_obsci` declarations of the target package and of the
   packages its project lists under `test_packages`;
2. fetches the declared test files from the target package;
3. downloads the binary RPMs built for the target repository and
   architecture;
4. resolves the dependency repositories from the project's `_meta`;
5. hands all of that to a test environment in a single `run` call.

The model has seven modules:

- `Base`: bytes, `Option` and `Result`, and one error constructor per
  place where the worker raises.
- `Text`: Python's `sub in s` and `endswith`, and `replace(':', ':/')`
  with its inverse.
- `Files`: `os.path.join`, and a `Directory` class whose file map is
  updated by `open(…, 'wb')`, `write` and `chmod`.
- `Service`: the build service as a `BuildService` object. It holds fixed
  answer tables for the `_meta`, listing and stream URLs, plus a request
  log that every request appends to.
- `Obs`: the `OBSCIObs` client as a class. Its methods are proved against
  specification functions, and lemmas state what those functions promise.
- `ObsExamples`: the client's behaviour on the inputs its own tests use.
- `Worker`: `get_config_from_packages` and the body of `main` from the
  config lookup to `te.run`. Each is a method proved against a
  specification function, with lemmas about the whole run.

The `_obsci` readers are external. YAML loading and schema validation
become two function values that return `None` for a rejected document.
The test environment is external too: a successful run returns the
`RunCall` it would hand to `te.run`.

## Model

| member | source | states |
|---|---|---|
| Obs.DownloadBase | obsci/worker/obs.py:47-56 | the download base is one of the two known mirrors; an unknown instance fails with its own URL |
| Obs.DownloadBaseTable | obsci/worker/obs.py:50-56 | `opensuse.org` in the URL gives the public mirror, whether or not `suse.de` also occurs; otherwise `suse.de` gives the internal mirror; otherwise the lookup fails (all three as if-and-only-if) |
| Text.ContainsIffOccurs | obsci/worker/obs.py:50-52 | Python's `sub in s` holds exactly when `sub` occurs at some index of `s` |
| Text.ColonSlashLength | obsci/worker/obs.py:72 | `replace(':', ':/')` lengthens the name by exactly its number of colons |
| Text.ColonSlashMarksColons | obsci/worker/obs.py:72 | in the rewritten name, every colon is followed by a slash and none ends it |
| Text.UnslashColonSlash | obsci/worker/obs.py:72 | the colon rewrite loses nothing: undoing it gives back the project name |
| Text.ColonSlashAppend | obsci/worker/obs.py:72 | the rewrite works piece by piece: rewriting a concatenation is concatenating the rewrites |
| Text.ColonSlashNoColon | obsci/worker/obs.py:72 | a name without a colon is left unchanged |
| Text.ColonSlashThreeLevels | obsci/worker/obs.py:72 | `a:b:c` becomes `a:/b:/c` |
| Obs.PublishUrlDecodes | obsci/worker/obs.py:70-74 | a publish URL starts with the download base and ends with `/` plus the repository, and the project can be read back from the part in between |
| Obs.PublishUrlThreeLevels | obsci/worker/obs.py:70-74 | a three-level project `a:b:c` is published under base + `a:/b:/c/` + repository |
| Obs.MatchingPathsAppend | obsci/worker/obs.py:62-69 | paths are collected in document order: a longer document adds to the end of the paths of its prefix |
| Obs.MatchingPathsMembership | obsci/worker/obs.py:62-69 | a path is resolved exactly when a `<repository>` element named `repo` with an `<arch>` equal to `arch` lists it |
| Obs.Resolve | obsci/worker/obs.py:58-78 | no matching path gives `[]` without an error; the result fails exactly when some path matches and the download base is unknown |
| Obs.ResolvedDescriptors | obsci/worker/obs.py:69-77 | one descriptor per matching path, in order, duplicates kept; project and repository are copied unmodified and only the URL gets the colon rewrite |
| Obs.Client.constructor | obsci/worker/obs.py:29-33 | keeps the service URL and credentials; the credentials play no part |
| Obs.Client.GetProjectMeta | obsci/worker/obs.py:35-45 | one `_meta` request; a status other than 200 fails with that status |
| Obs.Client.GetProjectRepositories | obsci/worker/obs.py:58-78 | one `_meta` request, then the result of resolving `_meta` against `repo` and `arch` |
| Obs.BinaryRpmsAppend | obsci/worker/obs.py:90-97 | the filter keeps listing order |
| Obs.BinaryRpmsCount | obsci/worker/obs.py:90-97 | a name is kept exactly when it ends in `.rpm` and not in `.src.rpm`, as many times as it is listed |
| Obs.Client.GetBinariesList | obsci/worker/obs.py:80-97 | one listing request; a status other than 200 fails with that status; otherwise the binary RPMs of the listing, in order |
| Obs.SaveStream | obsci/worker/obs.py:112-114 | the destination file holds the concatenated chunks and keeps any mode it already had |
| Obs.Client.FirstFailure | obsci/worker/obs.py:104-110 | the index of the first name whose download fails: every earlier name downloads, and that one does not |
| Obs.Client.DownloadResult | obsci/worker/obs.py:108-110 | the download step only fails with a failed download |
| Obs.Client.GetBinaries | obsci/worker/obs.py:99-117 | the listing request, then the download loop; the result, the requests and the destination directory equal what the specification function `Obs.Client.Binaries` gives |
| Obs.Client.DownloadListed | obsci/worker/obs.py:104-117 | the loop's result, its requests and the destination directory afterwards |
| Obs.DownloadLogStopsAtFailure | obsci/worker/obs.py:104-110 | downloads are requested in listing order, up to and including the first failing one, and none after it |
| Obs.DownloadResultFirstFailure | obsci/worker/obs.py:104-117 | the step fails with the URL of the first failing download, or returns `dest_dir/name` for every listed name, in order |
| Obs.DownloadedEntry | obsci/worker/obs.py:111-114 | after the downloads, a name fetched before the failure holds its download's bytes and keeps any previous mode; every other file is untouched; nothing else appears |
| Files.PathJoinParts | obsci/worker/obs.py:111 | `os.path.join` ends with the name; an absolute name is returned unchanged; a relative name follows the directory, with a `/` added only when a non-empty directory does not already end in one |
| Service.FlattenAppend | obsci/worker/obs.py:129-131 | splitting a response body into chunks anywhere does not change the joined bytes |
| Service.FlattenLength | obsci/worker/obs.py:129-131 | the joined body is as long as all its chunks together |
| Obs.Client.GetFileFromPackage | obsci/worker/obs.py:119-134 | one request; a status other than 200 gives nothing and never an error; a 200 gives the concatenation of the chunks |
| Obs.Client.GetConfigFromPackage | obsci/worker/obs.py:136-139 | requests exactly `_obsci` from the package |
| Obs.Client.GetTestFromPackage | obsci/worker/obs.py:141-143 | requests the test file name unchanged |
| Obs.Client.GetConfigFromProject | obsci/cmd/worker/__init__.py:69 | requests `_obsci` from the project's `_project` pseudo-package (the corrected first step, see Findings) |
| Service.BuildService.GetMeta | obsci/worker/obs.py:39 | answers from the `_meta` table, defaulting to 404, and logs the request |
| Service.BuildService.GetListing | obsci/worker/obs.py:83 | answers from the listing table, defaulting to 404, and logs the request |
| Service.BuildService.GetStream | obsci/worker/obs.py:107 | answers from the stream table, defaulting to 404, and logs the request |
| Files.Directory.Open | obsci/cmd/worker/__init__.py:117 | `open(…, 'wb')` creates or truncates the file and keeps an existing mode |
| Files.Directory.Write | obsci/cmd/worker/__init__.py:118 | appends the bytes to the open file |
| Files.Directory.Chmod | obsci/cmd/worker/__init__.py:120 | sets the mode and changes nothing else |
| ObsExamples.DownloadBaseOpenSuse | obsci/tests/worker/test_obs.py:70-73 | `http://build.opensuse.org` maps to `https://download.opensuse.org/repositories/` |
| ObsExamples.LeapMatchingPaths | obsci/tests/worker/test_obs.py:32-48 | in the test's `_meta`, only the `openSUSE_Leap_15.1` element contributes for x86_64 |
| ObsExamples.ResolveLeapExample | obsci/tests/worker/test_obs.py:57-68 | resolving the test's `_meta` gives exactly the one descriptor the test expects |
| ObsExamples.LeapPublishUrl | obsci/tests/worker/test_obs.py:66 | the publish URL of `devel:languages:python` / `openSUSE_Leap_15.1` on the public mirror |
| ObsExamples.BinaryRpmsExample | obsci/worker/obs.py:90-97 | a listing of a binary RPM, a source RPM and a non-RPM file keeps only the binary RPM |
| Worker.Candidates | obsci/cmd/worker/__init__.py:67-77 | the run's own package is always a candidate; the declared packages come first, unchanged; the list grows by one exactly when the own package was not declared |
| Worker.CandidateCounts | obsci/cmd/worker/__init__.py:76-77 | only the own package is added; it occurs once unless the project config itself lists it several times, and every other entry keeps its multiplicity |
| Worker.OnlyOwnPackage | obsci/cmd/worker/__init__.py:67-77 | with no project config, or one without `test_packages`, the only candidate is the own package |
| Worker.CollectAppend | obsci/cmd/worker/__init__.py:79-84 | walking two lists of candidates is walking the first and, unless it failed, then the second |
| Worker.CollectMeaning | obsci/cmd/worker/__init__.py:79-84 | the walk fails exactly when some candidate's `_obsci` is rejected; otherwise it returns the parsed configs of the candidates that have one, in candidate order, after one request per candidate |
| Worker.ConfigsStageError | obsci/cmd/worker/__init__.py:72-83 | the config lookup fails only on a rejected document |
| Worker.GetConfigFromPackages | obsci/cmd/worker/__init__.py:66-84 | the project-level request, then the candidate walk; result and requests equal what the specification function `Worker.ConfigsStage` gives |
| Worker.CollectConfigs | obsci/cmd/worker/__init__.py:79-84 | the loop's result and requests match the candidate walk |
| Worker.AllTestNamesAppend | obsci/cmd/worker/__init__.py:144-146 | names are gathered config after config |
| Worker.AllTestNamesMembers | obsci/cmd/worker/__init__.py:144-146 | a name is passed on exactly when some config declares it |
| Worker.AllTestNamesCount | obsci/cmd/worker/__init__.py:144-146 | duplicates are kept: each name is passed on as often as the configs declare it |
| Worker.CollectTestNames | obsci/cmd/worker/__init__.py:144-146 | the `+=` loop yields the config-after-config concatenation |
| Worker.TestWritesEntry | obsci/cmd/worker/__init__.py:107-120 | after the test-file loop, a declared name whose file the run's own package serves holds that file with mode 0o777; every other file is untouched; nothing else appears |
| Worker.TestWritesAppend | obsci/cmd/worker/__init__.py:108-109 | the test files of two name lists are written first for one list, then for the other |
| Worker.FetchTestFiles | obsci/cmd/worker/__init__.py:107-120 | one request per declared name, always to the run's own project and package; the tests directory afterwards equals `Worker.TestWrites` of the declared names, and the requests are `Worker.TestUrls` of them |
| Worker.FetchTests | obsci/cmd/worker/__init__.py:109-120 | the inner loop: a missing file is skipped; a found one is written whole and made executable |
| Worker.Run | obsci/cmd/worker/__init__.py:104-148 | the whole run: the call handed to the test environment (or the error that ended the run), every request, and both directories equal what the specification function `Worker.Pipeline` gives for the same inputs |
| Worker.TestenvCheckedAfterDownloads | obsci/cmd/worker/__init__.py:126-141 | an unknown testenv type always fails the run, after configs, test files and binaries exactly as in a container run, and just before the `_meta` request; any earlier failure is the same as in a container run |
| Worker.RunCallContents | obsci/cmd/worker/__init__.py:126-148 | the one `run` call gets the container environment, the resolved repositories, both directories, and every declared test name in config order, including names whose file was missing; every listed binary has been downloaded |
| Worker.RunRequestsInOrder | obsci/cmd/worker/__init__.py:104-148 | a run that reaches the test environment makes these requests in order: the project `_obsci`, each candidate's `_obsci`, each test file from the own package, the listing, each binary, then `_meta` |
| Worker.AsWrittenAlwaysFails | obsci/cmd/worker/__init__.py:69 | as written, every run stops at its first step with a missing-attribute error, before any request |

## Left out

- Argument parsing, logging and the defaults of the command line (`obsci/cmd/worker/__init__.py:34-63, 88-95`): the run's arguments are an `Args` value. `Args.testenvType` accepts any string, although the command line only admits `container`; `Worker.TestenvCheckedAfterDownloads` therefore describes lines 104-148 of `main` on their own.
- HTTP: `requests`, basic authentication with the username and password, and the 4096-byte chunking. Each request is a lookup in the `BuildService` answer tables plus an entry in its request log. The credentials are kept on the client but play no part. A URL missing from a table answers 404.
- XML parsing and the XPath strings (`obsci/worker/obs.py:44, 62, 65, 88`): `_meta` is given already parsed as `RepoElem` values, and the listing as its `filename` attributes. A malformed document, a missing `project` or `repository` attribute, and a listing entry without `filename` are not modelled.
- YAML loading and schema validation (`obsci/worker/config_base.py`), and the two config classes built on it, are not part of this model. They are the `Parsers` function values. Dictionary entries of `test_packages` with keys other than `project` and `package` are not modelled, so the `not in` test compares the two fields only.
- Worker.GetConfigFromPackages: builds its candidate list as a new sequence. In the source, the list appended to is the parsed config's own list; the aliasing is not observable afterwards and is not modelled.
- `tempfile.TemporaryDirectory`, `os.mkdir` and removal of the directories (`obsci/cmd/worker/__init__.py:98-101, 123-124`): the two directories are `Directory` objects given to `Worker.Run`, distinct from each other. Files are keyed by the name passed to `os.path.join`.
- Worker.FetchTests: test names are taken to be plain file names. The source creates `tests` fresh and no subdirectory in it (`obsci/cmd/worker/__init__.py:100-101`), so a relative name such as `sub/t.sh` makes `open` at line 117 raise `FileNotFoundError`; an empty name, `.` or `..` makes it raise `IsADirectoryError`; and a name such as `../x`, or an absolute one, is written outside `tests`. In all these cases the run ends or writes elsewhere, whereas the model stores an entry under the name and goes on.
- Files.Directory.Chmod: records the mode value (0o777) and does not model file-system errors.
- `testenv_container` and the outcome of `te.run` are not part of this model. The run ends with the `RunCall` it would pass.
- The return value of `get_binaries` is discarded by `main`; the model computes it but the run does not use it.

Two behaviours of the code worth knowing:

- The run's own package can occur more than once among the candidates when the project config lists it twice: both entries stay (`Worker.CandidateCounts`).
- `main` checks the testenv type only after the configs, test files and binaries have been fetched (`Worker.TestenvCheckedAfterDownloads`). From the command line the type is always `container`, because `--testenv-type` only admits that choice (`obsci/cmd/worker/__init__.py:45-49`), so the `ValueError` at lines 134-136 is reachable only when `main`'s body is given another type.

An `_obsci` that is present but empty is still handed to its reader. The fetch returns a `BytesIO`, which Python always treats as true.

## Findings

| source | as written | input that shows it | evidently intended | confidence | as-written member | corrected member |
|---|---|---|---|---|---|---|
| obsci/cmd/worker/__init__.py:69 | `get_config_from_packages` first calls `obs.get_config_from_project(project)`, but `OBSCIObs` (obsci/worker/obs.py:27-143) defines no such method, so the call raises `AttributeError` | any run, e.g. project `home:x`, package `p`: the run stops at line 69 before any request | fetch the project-level `_obsci` (as `get_config_from_package` does for packages), read `test_packages` from it, and continue | high that the call fails; the `_project` location of the project-level file is an assumption; not executed | Worker.AsWrittenAlwaysFails | Obs.Client.GetConfigFromProject, used by Worker.GetConfigFromPackages |
