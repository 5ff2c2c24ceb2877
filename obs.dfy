/** The build-service client: project metadata, repository resolution,
    binary listing and download, and the best-effort file fetch. HTTP is
    reduced to the answers of a BuildService; each request is logged there. */
module Obs {
  import opened Base
  import opened Text
  import opened Files
  import opened Service

  /** Download bases of the two known build-service instances. */
  const OpenSuseDownload: string := "https://download.opensuse.org/repositories/"
  const SuseDownload: string := "http://download.suse.de/ibs/"

  /** The file holding a package's (or project's) test declarations. */
  const ConfigFile: string := "_obsci"

  /** The pseudo-package under which the build service keeps a project's own files. */
  const ProjectPackage: string := "_project"

  /** A resolved dependency repository and the URL it is published under. */
  datatype RepoDescriptor = RepoDescriptor(project: string, repository: string, publishUrl: string)

  /** What a step did: its outcome, the requests it made in order, and the
      destination directory's files afterwards. */
  datatype Effect<T> = Effect(result: Result<T>, requests: seq<string>, files: map<string, FileEntry>)

  // ---------------------------------------------------------------------------
  // Download base

  /** The download base guessed from the service URL: an ordered table keyed on
      substrings of the URL, failing for an unknown instance. */
  function DownloadBase(url: string): (r: Result<string>)
    ensures r.Success? ==> r.value == OpenSuseDownload || r.value == SuseDownload
    ensures r.Failure? ==> r.error == UnknownDownloadUrl(url)
  {
    if Contains(url, "opensuse.org") then Success(OpenSuseDownload)
    else if Contains(url, "suse.de") then Success(SuseDownload)
    else Failure(UnknownDownloadUrl(url))
  }

  /** Which base each URL gets; `opensuse.org` is looked at first, so it wins
      over `suse.de` when both occur. */
  lemma DownloadBaseTable(url: string)
    ensures DownloadBase(url) == Success(OpenSuseDownload) <==> Contains(url, "opensuse.org")
    ensures DownloadBase(url) == Success(SuseDownload)
            <==> !Contains(url, "opensuse.org") && Contains(url, "suse.de")
    ensures DownloadBase(url).Failure? <==> !Contains(url, "opensuse.org") && !Contains(url, "suse.de")
  {
  }

  // ---------------------------------------------------------------------------
  // Repository resolution

  /** The URL a path is published under: the download base, the path's project
      with every `:` written as `:/`, a slash, and the path's repository. */
  function PublishUrl(base: string, p: PathElem): string
  {
    base + ColonSlash(p.project) + "/" + p.repository
  }

  /** A three-level project `a:b:c` is published under `base` + `a:/b:/c/` + repository. */
  lemma PublishUrlThreeLevels(base: string, a: string, b: string, c: string, r: string)
    requires ':' !in a && ':' !in b && ':' !in c
    ensures PublishUrl(base, PathElem(a + ":" + b + ":" + c, r)) == base + a + ":/" + b + ":/" + c + "/" + r
  {
    ColonSlashThreeLevels(a, b, c);
  }

  function Describe(base: string, p: PathElem): RepoDescriptor
  {
    RepoDescriptor(p.project, p.repository, PublishUrl(base, p))
  }

  /** One descriptor per path, in order. */
  function DescribeAll(base: string, paths: seq<PathElem>): seq<RepoDescriptor>
  {
    seq(|paths|, k requires 0 <= k < |paths| => Describe(base, paths[k]))
  }

  lemma DescribeAllSnoc(base: string, paths: seq<PathElem>, p: PathElem)
    ensures DescribeAll(base, paths + [p]) == DescribeAll(base, paths) + [Describe(base, p)]
  {
    assert forall k :: 0 <= k < |paths| ==> (paths + [p])[k] == paths[k];
  }

  /** The publish URL starts with the base, ends with `/repository`, and the
      project can be read back from the part in between. */
  lemma {:induction false} PublishUrlDecodes(base: string, p: PathElem)
    ensures var u := PublishUrl(base, p);
      && StartsWith(u, base)
      && EndsWith(u, "/" + p.repository)
      && Unslash(u[|base|..|u| - |p.repository| - 1]) == p.project
  {
    var u := PublishUrl(base, p);
    var mid := ColonSlash(p.project);
    assert u == base + mid + ("/" + p.repository);
    assert u[|base|..|u| - |p.repository| - 1] == mid;
    UnslashColonSlash(p.project);
  }

  /** A `<repository>` element contributes when its name is `repo` and one of
      its `<arch>` children is `arch`. */
  predicate Selected(r: RepoElem, repo: string, arch: string) {
    r.name == repo && arch in r.archs
  }

  /** The `<path>` children of the contributing repositories, in document order. */
  function MatchingPaths(meta: seq<RepoElem>, repo: string, arch: string): seq<PathElem>
  {
    if meta == [] then []
    else
      var last := meta[|meta| - 1];
      MatchingPaths(meta[..|meta| - 1], repo, arch) + (if Selected(last, repo, arch) then last.paths else [])
  }

  /** Document order: the paths of a longer document extend those of its prefix. */
  lemma {:induction false} MatchingPathsAppend(a: seq<RepoElem>, b: seq<RepoElem>, repo: string, arch: string)
    ensures MatchingPaths(a + b, repo, arch) == MatchingPaths(a, repo, arch) + MatchingPaths(b, repo, arch)
    decreases |b|
  {
    if b == [] {
      assert a + b == a;
    } else {
      var n := |b| - 1;
      assert (a + b)[..|a + b| - 1] == a + b[..n];
      MatchingPathsAppend(a, b[..n], repo, arch);
    }
  }

  /** A path is resolved exactly when a contributing repository lists it. */
  lemma {:induction false} MatchingPathsMembership(meta: seq<RepoElem>, repo: string, arch: string, p: PathElem)
    ensures p in MatchingPaths(meta, repo, arch)
            <==> exists i :: 0 <= i < |meta| && Selected(meta[i], repo, arch) && p in meta[i].paths
  {
    if meta != [] {
      var n := |meta| - 1;
      var front := meta[..n];
      MatchingPathsMembership(front, repo, arch, p);
      if p in MatchingPaths(meta, repo, arch) {
        if p in MatchingPaths(front, repo, arch) {
          var i :| 0 <= i < |front| && Selected(front[i], repo, arch) && p in front[i].paths;
          assert meta[i] == front[i];
        } else {
          assert Selected(meta[n], repo, arch) && p in meta[n].paths;
        }
      }
      if exists i :: 0 <= i < |meta| && Selected(meta[i], repo, arch) && p in meta[i].paths {
        var i :| 0 <= i < |meta| && Selected(meta[i], repo, arch) && p in meta[i].paths;
        if i < n {
          assert front[i] == meta[i];
        }
      }
    }
  }

  /** `get_project_repositories` on an already fetched `_meta`: one descriptor per
      matching path; the download base is only needed, and can only fail, when
      some path matches. */
  function Resolve(url: string, meta: seq<RepoElem>, repo: string, arch: string): (r: Result<seq<RepoDescriptor>>)
    ensures MatchingPaths(meta, repo, arch) == [] ==> r == Success([])
    ensures r.Failure? <==> MatchingPaths(meta, repo, arch) != [] && DownloadBase(url).Failure?
  {
    var paths := MatchingPaths(meta, repo, arch);
    if paths == [] then Success([])
    else
      match DownloadBase(url)
      case Failure(e) => Failure(e)
      case Success(base) => Success(DescribeAll(base, paths))
  }

  /** Each descriptor keeps its path's project and repository unmodified; only the
      URL gets the colon rewrite; order and duplicates follow the matching paths. */
  lemma ResolvedDescriptors(url: string, meta: seq<RepoElem>, repo: string, arch: string)
    requires Resolve(url, meta, repo, arch).Success?
    ensures var ds := Resolve(url, meta, repo, arch).value;
      var paths := MatchingPaths(meta, repo, arch);
      && |ds| == |paths|
      && forall k :: 0 <= k < |ds| ==>
           && ds[k].project == paths[k].project
           && ds[k].repository == paths[k].repository
           && DownloadBase(url).Success?
           && ds[k].publishUrl == PublishUrl(DownloadBase(url).value, paths[k])
  {
  }

  /** A path of a selected element is among the document's matching paths. */
  lemma PathSurvives(root: seq<RepoElem>, i: nat, j: nat, repo: string, arch: string)
    requires i < |root| && Selected(root[i], repo, arch) && j < |root[i].paths|
    ensures MatchingPaths(root, repo, arch) != []
  {
    MatchingPathsMembership(root, repo, arch, root[i].paths[j]);
  }

  // ---------------------------------------------------------------------------
  // Binary listing

  /** A listed file is kept when it is a binary RPM: it ends in `.rpm` and not
      in `.src.rpm`. */
  predicate IsBinaryRpm(name: string) {
    !EndsWith(name, ".src.rpm") && EndsWith(name, ".rpm")
  }

  /** The binary RPMs of a listing, in listing order. */
  function BinaryRpms(names: seq<string>): seq<string>
  {
    if names == [] then []
    else
      var last := names[|names| - 1];
      BinaryRpms(names[..|names| - 1]) + (if IsBinaryRpm(last) then [last] else [])
  }

  /** Listing order is kept: filtering a longer listing extends the filtered prefix. */
  lemma {:induction false} BinaryRpmsAppend(a: seq<string>, b: seq<string>)
    ensures BinaryRpms(a + b) == BinaryRpms(a) + BinaryRpms(b)
    decreases |b|
  {
    if b == [] {
      assert a + b == a;
    } else {
      var n := |b| - 1;
      assert (a + b)[..|a + b| - 1] == a + b[..n];
      BinaryRpmsAppend(a, b[..n]);
    }
  }

  /** Exactly the binary RPMs are kept, each as often as it is listed. */
  lemma {:induction false} BinaryRpmsCount(names: seq<string>, x: string)
    ensures multiset(BinaryRpms(names))[x] == if IsBinaryRpm(x) then multiset(names)[x] else 0
  {
    if names != [] {
      var n := |names| - 1;
      BinaryRpmsCount(names[..n], x);
      assert names == names[..n] + [names[n]];
    }
  }

  function BinaryUrl(listUrl: string, name: string): string
  {
    listUrl + "/" + name
  }

  function BinaryUrls(listUrl: string, names: seq<string>): seq<string>
  {
    seq(|names|, k requires 0 <= k < |names| => BinaryUrl(listUrl, names[k]))
  }

  /** Where each listed binary is written. */
  function DestPaths(destPath: string, names: seq<string>): seq<string>
  {
    seq(|names|, k requires 0 <= k < |names| => PathJoin(destPath, names[k]))
  }

  /** `with open(dest, 'wb') as f: for chunk in ...: f.write(chunk)`. */
  method SaveStream(dest: Directory, name: string, chunks: seq<seq<byte>>)
    modifies dest
    ensures dest.files == Stored(old(dest.files), name, Flatten(chunks))
  {
    dest.Open(name);
    var i := 0;
    while i < |chunks|
      invariant 0 <= i <= |chunks|
      invariant dest.files == Stored(old(dest.files), name, Flatten(chunks[..i]))
    {
      assert chunks[..i + 1][..i] == chunks[..i];
      dest.Write(name, chunks[i]);
      i := i + 1;
    }
    assert chunks[..i] == chunks;
  }

  // ---------------------------------------------------------------------------
  // The client

  /** `OBSCIObs`: a client bound to one service URL and one set of credentials. */
  class Client {
    const url: string
    const username: string
    const password: string
    /** The service the client's requests reach. */
    const net: BuildService

    constructor (url: string, username: string, password: string, net: BuildService)
      ensures this.url == url && this.username == username && this.password == password
      ensures this.net == net
    {
      this.url := url;
      this.username := username;
      this.password := password;
      this.net := net;
    }

    function MetaUrl(project: string): string
    {
      url + "/source/" + project + "/_meta"
    }

    function ListUrl(project: string, repo: string, arch: string, package: string): string
    {
      url + "/build/" + project + "/" + repo + "/" + arch + "/" + package
    }

    function FileUrl(project: string, package: string, filename: string): string
    {
      url + "/source/" + project + "/" + package + "/" + filename
    }

    /** The best-effort fetch's answer: the joined body on 200, nothing otherwise. */
    function FileAt(u: string): Option<seq<byte>>
    {
      var resp := net.StreamAt(u);
      if resp.status == OK then Some(Flatten(resp.body)) else None
    }

    /** The listing step: the binary RPMs listed, or the listing's status as an error. */
    function Listed(listUrl: string): Result<seq<string>>
    {
      var resp := net.ListingAt(listUrl);
      if resp.status == OK then Success(BinaryRpms(resp.body)) else Failure(ListingUnavailable(resp.status))
    }

    predicate Downloadable(u: string)
    {
      net.StreamAt(u).status == OK
    }

    /** The downloads requested for `names`: each in order, up to and including
        the first one that fails. */
    function DownloadLog(listUrl: string, names: seq<string>): seq<string>
    {
      if names == [] then []
      else
        var u := BinaryUrl(listUrl, names[0]);
        [u] + (if Downloadable(u) then DownloadLog(listUrl, names[1..]) else [])
    }

    /** The destination directory after downloading `names` until the first failure. */
    function DownloadWrites(files: map<string, FileEntry>, listUrl: string, names: seq<string>): map<string, FileEntry>
      decreases |names|
    {
      if names == [] then files
      else
        var u := BinaryUrl(listUrl, names[0]);
        if !Downloadable(u) then files
        else DownloadWrites(Stored(files, names[0], Flatten(net.StreamAt(u).body)), listUrl, names[1..])
    }

    /** The paths written for `names`, or the first failed download's URL. */
    function DownloadResult(destPath: string, listUrl: string, names: seq<string>): (r: Result<seq<string>>)
      ensures r.Failure? ==> r.error.DownloadFailed?
    {
      if names == [] then Success([])
      else
        var u := BinaryUrl(listUrl, names[0]);
        if !Downloadable(u) then Failure(DownloadFailed(u))
        else Extend([PathJoin(destPath, names[0])], DownloadResult(destPath, listUrl, names[1..]))
    }

    /** The index of the first name whose download fails, or `|names|`. */
    function FirstFailure(listUrl: string, names: seq<string>): (k: nat)
      ensures k <= |names|
      ensures forall j :: 0 <= j < k ==> Downloadable(BinaryUrl(listUrl, names[j]))
      ensures k < |names| ==> !Downloadable(BinaryUrl(listUrl, names[k]))
    {
      if names == [] || !Downloadable(BinaryUrl(listUrl, names[0])) then 0
      else 1 + FirstFailure(listUrl, names[1..])
    }

    /** `get_binaries` as a whole: the listing request, then the downloads. */
    function Binaries(destPath: string, files: map<string, FileEntry>, listUrl: string): Effect<seq<string>>
    {
      match Listed(listUrl)
      case Failure(e) => Effect(Failure(e), [listUrl], files)
      case Success(names) =>
        Effect(DownloadResult(destPath, listUrl, names),
               [listUrl] + DownloadLog(listUrl, names),
               DownloadWrites(files, listUrl, names))
    }

    /** `get_project_repositories` as a whole: the `_meta` request's outcome, resolved. */
    function ProjectRepositories(project: string, repo: string, arch: string): Result<seq<RepoDescriptor>>
    {
      var resp := net.MetaAt(MetaUrl(project));
      if resp.status == OK then Resolve(url, resp.body, repo, arch) else Failure(MetaUnavailable(resp.status))
    }

    /** `_get_project_meta`: the project's repository elements, or the status as an error. */
    method GetProjectMeta(project: string) returns (r: Result<seq<RepoElem>>)
      modifies net
      ensures net.requested == old(net.requested) + [MetaUrl(project)]
      ensures var resp := net.MetaAt(MetaUrl(project));
        r == if resp.status == OK then Success(resp.body) else Failure(MetaUnavailable(resp.status))
    {
      var resp := net.GetMeta(MetaUrl(project));
      if resp.status != OK {
        return Failure(MetaUnavailable(resp.status));
      }
      return Success(resp.body);
    }

    /** `get_project_repositories`: fetches `_meta` and resolves it against `repo`
        and `arch`. */
    method GetProjectRepositories(project: string, repo: string, arch: string) returns (r: Result<seq<RepoDescriptor>>)
      modifies net
      ensures net.requested == old(net.requested) + [MetaUrl(project)]
      ensures r == ProjectRepositories(project, repo, arch)
    {
      var meta := GetProjectMeta(project);
      if meta.Failure? {
        return Failure(meta.error);
      }
      var root := meta.value;
      var repos: seq<RepoDescriptor> := [];
      ghost var done: seq<PathElem> := [];
      var i := 0;
      while i < |root|
        invariant 0 <= i <= |root|
        invariant net.requested == old(net.requested) + [MetaUrl(project)]
        invariant done == MatchingPaths(root[..i], repo, arch)
        invariant done == [] ==> repos == []
        invariant done != [] ==> DownloadBase(url).Success? && repos == DescribeAll(DownloadBase(url).value, done)
      {
        var r := root[i];
        assert root[..i + 1][..i] == root[..i];
        if r.name == repo && arch in r.archs {
          var j := 0;
          while j < |r.paths|
            invariant 0 <= j <= |r.paths|
            invariant net.requested == old(net.requested) + [MetaUrl(project)]
            invariant done == MatchingPaths(root[..i], repo, arch) + r.paths[..j]
            invariant done == [] ==> repos == []
            invariant done != [] ==> DownloadBase(url).Success? && repos == DescribeAll(DownloadBase(url).value, done)
          {
            var base := DownloadBase(url);
            if base.Failure? {
              PathSurvives(root, i, j, repo, arch);
              return Failure(base.error);
            }
            assert r.paths[..j + 1] == r.paths[..j] + [r.paths[j]];
            DescribeAllSnoc(base.value, done, r.paths[j]);
            repos := repos + [Describe(base.value, r.paths[j])];
            done := done + [r.paths[j]];
            j := j + 1;
          }
          assert r.paths[..j] == r.paths;
        }
        assert MatchingPaths(root[..i + 1], repo, arch)
            == MatchingPaths(root[..i], repo, arch) + (if Selected(r, repo, arch) then r.paths else []);
        i := i + 1;
      }
      assert root[..i] == root;
      return Success(repos);
    }

    /** `get_binaries_list`: the binary RPMs of the listing, in listing order. */
    method GetBinariesList(project: string, repo: string, arch: string, package: string) returns (r: Result<seq<string>>)
      modifies net
      ensures net.requested == old(net.requested) + [ListUrl(project, repo, arch, package)]
      ensures r == Listed(ListUrl(project, repo, arch, package))
    {
      var resp := net.GetListing(ListUrl(project, repo, arch, package));
      if resp.status != OK {
        return Failure(ListingUnavailable(resp.status));
      }
      var names := resp.body;
      var wanted: seq<string> := [];
      var i := 0;
      while i < |names|
        invariant 0 <= i <= |names|
        invariant wanted == BinaryRpms(names[..i])
      {
        var name := names[i];
        assert names[..i + 1][..i] == names[..i];
        if EndsWith(name, ".src.rpm") {
          // source packages are ignored
          i := i + 1;
          continue;
        }
        if EndsWith(name, ".rpm") {
          wanted := wanted + [name];
        }
        i := i + 1;
      }
      assert names[..i] == names;
      return Success(wanted);
    }

    /** `get_binaries`: downloads every listed binary into `dest`, stopping at the
        first download that fails. */
    method GetBinaries(dest: Directory, project: string, repo: string, arch: string, package: string)
      returns (r: Result<seq<string>>)
      modifies net, dest
      ensures var e := Binaries(dest.path, old(dest.files), ListUrl(project, repo, arch, package));
        && r == e.result
        && net.requested == old(net.requested) + e.requests
        && dest.files == e.files
    {
      var lu := ListUrl(project, repo, arch, package);
      var listed := GetBinariesList(project, repo, arch, package);
      if listed.Failure? {
        return Failure(listed.error);
      }
      r := DownloadListed(dest, lu, listed.value);
    }

    /** The download loop of `get_binaries` over the listed names. */
    method DownloadListed(dest: Directory, lu: string, names: seq<string>) returns (r: Result<seq<string>>)
      modifies net, dest
      ensures r == DownloadResult(dest.path, lu, names)
      ensures net.requested == old(net.requested) + DownloadLog(lu, names)
      ensures dest.files == DownloadWrites(old(dest.files), lu, names)
    {
      var downloaded: seq<string> := [];
      ghost var log0 := net.requested;
      ghost var sent: seq<string> := [];
      ghost var files0 := dest.files;
      var i := 0;
      while i < |names|
        invariant 0 <= i <= |names|
        invariant Extend(downloaded, DownloadResult(dest.path, lu, names[i..])) == DownloadResult(dest.path, lu, names)
        invariant net.requested == log0 + sent
        invariant sent + DownloadLog(lu, names[i..]) == DownloadLog(lu, names)
        invariant DownloadWrites(dest.files, lu, names[i..]) == DownloadWrites(files0, lu, names)
      {
        var name := names[i];
        var u := BinaryUrl(lu, name);
        DownloadStep(dest.path, dest.files, lu, names[i..]);
        assert names[i..][1..] == names[i + 1..];
        var resp := net.GetStream(u);
        ghost var prev := sent;
        sent := sent + [u];
        if resp.status != OK {
          return Failure(DownloadFailed(u));
        }
        ConcatAssoc(prev, [u], DownloadLog(lu, names[i + 1..]));
        SaveStream(dest, name, resp.body);
        ExtendAppend(downloaded, [PathJoin(dest.path, name)], DownloadResult(dest.path, lu, names[i + 1..]));
        downloaded := downloaded + [PathJoin(dest.path, name)];
        i := i + 1;
      }
      assert names[i..] == [];
      assert downloaded + [] == downloaded;
      return Success(downloaded);
    }

    /** One step of the download loop: the first name's request, write and path. */
    lemma DownloadStep(destPath: string, files: map<string, FileEntry>, listUrl: string, names: seq<string>)
      requires names != []
      ensures var u := BinaryUrl(listUrl, names[0]);
        if Downloadable(u) then
          && DownloadLog(listUrl, names) == [u] + DownloadLog(listUrl, names[1..])
          && DownloadWrites(files, listUrl, names)
             == DownloadWrites(Stored(files, names[0], Flatten(net.StreamAt(u).body)), listUrl, names[1..])
          && DownloadResult(destPath, listUrl, names)
             == Extend([PathJoin(destPath, names[0])], DownloadResult(destPath, listUrl, names[1..]))
        else
          && DownloadLog(listUrl, names) == [u]
          && DownloadWrites(files, listUrl, names) == files
          && DownloadResult(destPath, listUrl, names) == Failure(DownloadFailed(u))
    {
    }

    /** `_get_file_from_package`: the file's bytes, or nothing on any non-200 status. */
    method GetFileFromPackage(project: string, package: string, filename: string) returns (f: Option<seq<byte>>)
      modifies net
      ensures net.requested == old(net.requested) + [FileUrl(project, package, filename)]
      ensures f == FileAt(FileUrl(project, package, filename))
    {
      var resp := net.GetStream(FileUrl(project, package, filename));
      if resp.status != OK {
        return None;
      }
      var buf: seq<byte> := [];
      var i := 0;
      while i < |resp.body|
        invariant 0 <= i <= |resp.body|
        invariant buf == Flatten(resp.body[..i])
      {
        assert resp.body[..i + 1][..i] == resp.body[..i];
        buf := buf + resp.body[i];
        i := i + 1;
      }
      assert resp.body[..i] == resp.body;
      return Some(buf);
    }

    /** `get_config_from_package`: the package's `_obsci`, if any. */
    method GetConfigFromPackage(project: string, package: string) returns (f: Option<seq<byte>>)
      modifies net
      ensures net.requested == old(net.requested) + [FileUrl(project, package, ConfigFile)]
      ensures f == FileAt(FileUrl(project, package, ConfigFile))
    {
      f := GetFileFromPackage(project, package, ConfigFile);
    }

    /** The project-level `_obsci`, kept in the project's `_project` pseudo-package. */
    method GetConfigFromProject(project: string) returns (f: Option<seq<byte>>)
      modifies net
      ensures net.requested == old(net.requested) + [FileUrl(project, ProjectPackage, ConfigFile)]
      ensures f == FileAt(FileUrl(project, ProjectPackage, ConfigFile))
    {
      f := GetFileFromPackage(project, ProjectPackage, ConfigFile);
    }

    /** `get_test_from_package`: the named test file of the package, if any. */
    method GetTestFromPackage(project: string, package: string, testfilename: string) returns (f: Option<seq<byte>>)
      modifies net
      ensures net.requested == old(net.requested) + [FileUrl(project, package, testfilename)]
      ensures f == FileAt(FileUrl(project, package, testfilename))
    {
      f := GetFileFromPackage(project, package, testfilename);
    }
  }

  // ---------------------------------------------------------------------------
  // Properties of the download loop

  lemma BinaryUrlsCons(listUrl: string, x: string, ys: seq<string>)
    ensures BinaryUrls(listUrl, [x] + ys) == [BinaryUrl(listUrl, x)] + BinaryUrls(listUrl, ys)
  {
    assert forall k :: 0 <= k < |ys| ==> ([x] + ys)[k + 1] == ys[k];
  }

  lemma DestPathsCons(destPath: string, x: string, ys: seq<string>)
    ensures DestPaths(destPath, [x] + ys) == [PathJoin(destPath, x)] + DestPaths(destPath, ys)
  {
    var l := DestPaths(destPath, [x] + ys);
    var r := [PathJoin(destPath, x)] + DestPaths(destPath, ys);
    forall k | 0 <= k < |l|
      ensures l[k] == r[k]
    {
      if k > 0 {
        assert ([x] + ys)[k] == ys[k - 1];
      }
    }
  }

  /** Fail-fast, as requests: the downloads are requested in listing order up to
      and including the first one that fails, and none after it. */
  lemma {:induction false} DownloadLogStopsAtFailure(obs: Client, listUrl: string, names: seq<string>)
    ensures var k := obs.FirstFailure(listUrl, names);
      obs.DownloadLog(listUrl, names) == BinaryUrls(listUrl, names[..if k < |names| then k + 1 else k])
    decreases |names|
  {
    if names != [] {
      var rest := names[1..];
      var k := obs.FirstFailure(listUrl, names);
      if obs.Downloadable(BinaryUrl(listUrl, names[0])) {
        DownloadLogStopsAtFailure(obs, listUrl, rest);
        var k' := obs.FirstFailure(listUrl, rest);
        var d' := if k' < |rest| then k' + 1 else k';
        assert k == k' + 1;
        assert obs.DownloadLog(listUrl, names) == [BinaryUrl(listUrl, names[0])] + obs.DownloadLog(listUrl, rest);
        assert names[..d' + 1] == [names[0]] + rest[..d'];
        BinaryUrlsCons(listUrl, names[0], rest[..d']);
      } else {
        assert k == 0;
        assert names[..1] == [names[0]] + [];
        BinaryUrlsCons(listUrl, names[0], []);
      }
    }
  }

  /** Fail-fast, as outcome: the step fails with the URL of the first failing
      download, or yields every destination path in listing order. */
  lemma {:induction false} DownloadResultFirstFailure(obs: Client, destPath: string, listUrl: string, names: seq<string>)
    ensures var k := obs.FirstFailure(listUrl, names);
      obs.DownloadResult(destPath, listUrl, names)
        == if k < |names| then Failure(DownloadFailed(BinaryUrl(listUrl, names[k])))
           else Success(DestPaths(destPath, names))
    decreases |names|
  {
    if names == [] {
      assert DestPaths(destPath, names) == [];
    } else {
      var rest := names[1..];
      if obs.Downloadable(BinaryUrl(listUrl, names[0])) {
        DownloadResultFirstFailure(obs, destPath, listUrl, rest);
        assert names == [names[0]] + rest;
        DestPathsCons(destPath, names[0], rest);
        var tail := obs.DownloadResult(destPath, listUrl, rest);
        var head := [PathJoin(destPath, names[0])];
        assert obs.DownloadResult(destPath, listUrl, names) == Extend(head, tail);
        var k' := obs.FirstFailure(listUrl, rest);
        assert obs.FirstFailure(listUrl, names) == k' + 1;
        if k' < |rest| {
          assert names[k' + 1] == rest[k'];
          assert tail == Failure(DownloadFailed(BinaryUrl(listUrl, rest[k'])));
        } else {
          assert tail == Success(DestPaths(destPath, rest));
          assert Extend(head, tail).value == head + tail.value;
        }
      }
    }
  }

  /** What the downloads leave in the destination directory, name by name: a
      name downloaded before the first failure holds its download's bytes and
      keeps any mode it had; any other file is untouched; nothing else appears. */
  lemma {:induction false} DownloadedEntry(obs: Client, files: map<string, FileEntry>, listUrl: string, names: seq<string>, n: string)
    ensures var k := obs.FirstFailure(listUrl, names);
      var m := obs.DownloadWrites(files, listUrl, names);
      && (n in m <==> n in files || n in names[..k])
      && (n in names[..k] ==>
            m[n] == FileEntry(Flatten(obs.net.StreamAt(BinaryUrl(listUrl, n)).body),
                              if n in files then files[n].mode else None))
      && (n in files && n !in names[..k] ==> m[n] == files[n])
    decreases |names|
  {
    if names != [] && obs.Downloadable(BinaryUrl(listUrl, names[0])) {
      var rest := names[1..];
      var u := BinaryUrl(listUrl, names[0]);
      var files' := Stored(files, names[0], Flatten(obs.net.StreamAt(u).body));
      DownloadedEntry(obs, files', listUrl, rest, n);
      var k' := obs.FirstFailure(listUrl, rest);
      assert names[..k' + 1] == [names[0]] + rest[..k'];
    }
  }
}
