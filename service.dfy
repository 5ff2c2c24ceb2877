/** The build service as the client sees it: what each GET request is
    answered with, and the order in which the requests were made. */
module Service {
  import opened Base

  /** The only status the client treats as success. */
  const OK: int := 200

  datatype Response<T> = Response(status: int, body: T)

  /** A `<path project=".." repository=".."/>` child of a `<repository>` element. */
  datatype PathElem = PathElem(project: string, repository: string)

  /** A `<repository name="..">` element of a project's `_meta`, with the texts
      of its `<arch>` children and its `<path>` children, in document order. */
  datatype RepoElem = RepoElem(name: string, archs: seq<string>, paths: seq<PathElem>)

  /** The bytes of a streamed body: its chunks joined in arrival order. */
  function Flatten(chunks: seq<seq<byte>>): seq<byte>
  {
    if chunks == [] then [] else Flatten(chunks[..|chunks| - 1]) + chunks[|chunks| - 1]
  }

  /** Splitting a stream anywhere does not change the joined bytes. */
  lemma {:induction false} FlattenAppend(a: seq<seq<byte>>, b: seq<seq<byte>>)
    ensures Flatten(a + b) == Flatten(a) + Flatten(b)
    decreases |b|
  {
    if b == [] {
      assert a + b == a;
    } else {
      var n := |b| - 1;
      assert (a + b)[..|a + b| - 1] == a + b[..n];
      FlattenAppend(a, b[..n]);
    }
  }

  /** The joined bytes are as long as all chunks together. */
  lemma {:induction false} FlattenLength(chunks: seq<seq<byte>>)
    ensures |Flatten(chunks)| == TotalLength(chunks)
  {
    if chunks != [] {
      FlattenLength(chunks[..|chunks| - 1]);
    }
  }

  function TotalLength(chunks: seq<seq<byte>>): nat
  {
    if chunks == [] then 0 else TotalLength(chunks[..|chunks| - 1]) + |chunks[|chunks| - 1]|
  }

  /** The remote service. Its answers are fixed for the run; a URL the tables do
      not list is answered with 404 and an empty body. Every request made is
      appended to `requested`. */
  class BuildService {
    /** Answers to `GET {base}/source/{project}/_meta`, already parsed. */
    const metas: map<string, Response<seq<RepoElem>>>
    /** Answers to `GET {base}/build/...`: the `filename` attributes of the listing. */
    const listings: map<string, Response<seq<string>>>
    /** Answers to the streamed downloads and the source file fetches. */
    const streams: map<string, Response<seq<seq<byte>>>>
    var requested: seq<string>

    constructor (metas: map<string, Response<seq<RepoElem>>>,
                 listings: map<string, Response<seq<string>>>,
                 streams: map<string, Response<seq<seq<byte>>>>)
      ensures this.metas == metas && this.listings == listings && this.streams == streams
      ensures requested == []
    {
      this.metas := metas;
      this.listings := listings;
      this.streams := streams;
      requested := [];
    }

    function MetaAt(url: string): Response<seq<RepoElem>>
    {
      if url in metas then metas[url] else Response(404, [])
    }

    function ListingAt(url: string): Response<seq<string>>
    {
      if url in listings then listings[url] else Response(404, [])
    }

    function StreamAt(url: string): Response<seq<seq<byte>>>
    {
      if url in streams then streams[url] else Response(404, [])
    }

    method GetMeta(url: string) returns (resp: Response<seq<RepoElem>>)
      modifies this
      ensures resp == MetaAt(url)
      ensures requested == old(requested) + [url]
    {
      resp := MetaAt(url);
      requested := requested + [url];
    }

    method GetListing(url: string) returns (resp: Response<seq<string>>)
      modifies this
      ensures resp == ListingAt(url)
      ensures requested == old(requested) + [url]
    {
      resp := ListingAt(url);
      requested := requested + [url];
    }

    method GetStream(url: string) returns (resp: Response<seq<seq<byte>>>)
      modifies this
      ensures resp == StreamAt(url)
      ensures requested == old(requested) + [url]
    {
      resp := StreamAt(url);
      requested := requested + [url];
    }
  }
}
