/** The client's behaviour on the inputs its own tests use: the public
    instance's download base, the repository resolution of a sample project
    `_meta`, and the filtering of a mixed binary listing. */
module ObsExamples {
  import opened Base
  import opened Text
  import opened Service
  import opened Obs

  /** The public instance's API URL maps to the public download mirror. */
  lemma {:induction false} DownloadBaseOpenSuse()
    ensures DownloadBase("http://build.opensuse.org") == Success(OpenSuseDownload)
  {
    var url := "http://build.opensuse.org";
    assert OccursAt(url, "opensuse.org", 13);
    ContainsIffOccurs(url, "opensuse.org");
  }

  /** The project `_meta` used by the client's own tests. */
  const LeapMeta: seq<RepoElem> := [
    RepoElem("openSUSE_Tumbleweed", ["i586", "x86_64"], [PathElem("devel:languages:python", "openSUSE_Tumbleweed")]),
    RepoElem("openSUSE_Leap_15.1", ["x86_64"], [PathElem("devel:languages:python", "openSUSE_Leap_15.1")]),
    RepoElem("SLE_15_SP1", ["x86_64"], [PathElem("devel:languages:python", "SLE_15_SP1")]),
    RepoElem("SLE_12_SP4", ["x86_64"], [PathElem("devel:languages:python", "SLE_12_SP4")])
  ]

  /** Only the `openSUSE_Leap_15.1` element of the test document contributes for x86_64. */
  lemma {:induction false} LeapMatchingPaths()
    ensures MatchingPaths(LeapMeta, "openSUSE_Leap_15.1", "x86_64")
         == [PathElem("devel:languages:python", "openSUSE_Leap_15.1")]
  {
    var leap := PathElem("devel:languages:python", "openSUSE_Leap_15.1");
    var front := [LeapMeta[0], LeapMeta[1]];
    var back := [LeapMeta[2], LeapMeta[3]];
    assert LeapMeta == front + back;
    assert front[..1] == [LeapMeta[0]];
    assert back[..1] == [LeapMeta[2]];
    assert [LeapMeta[0]][..0] == [];
    assert [LeapMeta[2]][..0] == [];
    assert MatchingPaths([LeapMeta[0]], "openSUSE_Leap_15.1", "x86_64") == [];
    assert MatchingPaths(front, "openSUSE_Leap_15.1", "x86_64") == [leap];
    assert MatchingPaths([LeapMeta[2]], "openSUSE_Leap_15.1", "x86_64") == [];
    assert MatchingPaths(back, "openSUSE_Leap_15.1", "x86_64") == [];
    MatchingPathsAppend(front, back, "openSUSE_Leap_15.1", "x86_64");
  }

  /** Resolving `openSUSE_Leap_15.1` for x86_64 on the public instance yields the
      one descriptor the client's test expects. */
  lemma {:induction false} ResolveLeapExample(url: string, meta: seq<RepoElem>)
    requires url == "http://build.opensuse.org" && meta == LeapMeta
    ensures Resolve(url, meta, "openSUSE_Leap_15.1", "x86_64")
         == Success([RepoDescriptor("devel:languages:python", "openSUSE_Leap_15.1",
              "https://download.opensuse.org/repositories/devel:/languages:/python/openSUSE_Leap_15.1")])
  {
    var leap := PathElem("devel:languages:python", "openSUSE_Leap_15.1");
    LeapMatchingPaths();
    DownloadBaseOpenSuse();
    ResolveSingle(url, meta, "openSUSE_Leap_15.1", "x86_64", OpenSuseDownload, leap);
    LeapDescriptor(leap);
  }

  /** A document with one matching path resolves to that path's descriptor. */
  lemma ResolveSingle(url: string, meta: seq<RepoElem>, repo: string, arch: string, base: string, p: PathElem)
    requires MatchingPaths(meta, repo, arch) == [p] && DownloadBase(url) == Success(base)
    ensures Resolve(url, meta, repo, arch) == Success([Describe(base, p)])
  {
    assert DescribeAll(base, [p]) == [Describe(base, p)];
  }

  /** The spelled-out publish URL of the test document's one matching path. */
  lemma LeapUrlSpelledOut(a: string, b: string, c: string, r: string)
    requires a == "devel" && b == "languages" && c == "python" && r == "openSUSE_Leap_15.1"
    ensures OpenSuseDownload + a + ":/" + b + ":/" + c + "/" + r
         == "https://download.opensuse.org/repositories/devel:/languages:/python/openSUSE_Leap_15.1"
  {
  }

  /** The publish URL of the test document's one matching path. */
  lemma {:induction false} LeapPublishUrl(p: PathElem)
    requires p.project == "devel:languages:python" && p.repository == "openSUSE_Leap_15.1"
    ensures PublishUrl(OpenSuseDownload, p)
         == "https://download.opensuse.org/repositories/devel:/languages:/python/openSUSE_Leap_15.1"
  {
    var a, b, c := "devel", "languages", "python";
    assert p == PathElem(a + ":" + b + ":" + c, p.repository);
    PublishUrlThreeLevels(OpenSuseDownload, a, b, c, p.repository);
    LeapUrlSpelledOut(a, b, c, p.repository);
  }

  /** The descriptor of the test document's one matching path. */
  lemma {:induction false} LeapDescriptor(p: PathElem)
    requires p.project == "devel:languages:python" && p.repository == "openSUSE_Leap_15.1"
    ensures Describe(OpenSuseDownload, p)
         == RepoDescriptor("devel:languages:python", "openSUSE_Leap_15.1",
              "https://download.opensuse.org/repositories/devel:/languages:/python/openSUSE_Leap_15.1")
  {
    LeapPublishUrl(p);
  }

  /** A listing mixing a binary, a source and a non-RPM file keeps the binary only. */
  lemma {:induction false} BinaryRpmsExample()
    ensures BinaryRpms(["foo-1.0.x86_64.rpm", "foo-1.0.src.rpm", "_statistics"]) == ["foo-1.0.x86_64.rpm"]
  {
    var names := ["foo-1.0.x86_64.rpm", "foo-1.0.src.rpm", "_statistics"];
    assert names[..2] == ["foo-1.0.x86_64.rpm", "foo-1.0.src.rpm"];
    assert names[..2][..1] == ["foo-1.0.x86_64.rpm"];
    assert ["foo-1.0.x86_64.rpm"][..0] == [];
    assert "_statistics"[|"_statistics"| - 4..] == "tics";
    assert !IsBinaryRpm("_statistics");
    assert "foo-1.0.src.rpm"[|"foo-1.0.src.rpm"| - 8..] == ".src.rpm";
    assert !IsBinaryRpm("foo-1.0.src.rpm");
    assert "foo-1.0.x86_64.rpm"[|"foo-1.0.x86_64.rpm"| - 4..] == ".rpm";
    assert IsBinaryRpm("foo-1.0.x86_64.rpm");
    assert BinaryRpms(["foo-1.0.x86_64.rpm"]) == ["foo-1.0.x86_64.rpm"];
    assert BinaryRpms(names[..2]) == ["foo-1.0.x86_64.rpm"];
  }

}
