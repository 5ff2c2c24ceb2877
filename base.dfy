/** Values shared by the build-service client and the worker: bytes, the
    optional and failure-carrying wrappers, and the run's error kinds. */
module Base {

  newtype byte = x: int | 0 <= x < 256

  datatype Option<+T> = None | Some(value: T)

  /** A step that either yields a value or raises one of the run's errors. */
  datatype Result<+R> = Success(value: R) | Failure(error: Error)

  /** The exceptions the worker raises, one constructor per raise site. */
  datatype Error =
    | MetaUnavailable(status: int)      // project _meta answered with a non-200 status
    | UnknownDownloadUrl(url: string)   // no download base is known for the service URL
    | ListingUnavailable(status: int)   // binary listing answered with a non-200 status
    | DownloadFailed(url: string)       // one binary download answered with a non-200 status
    | InvalidConfig                     // an `_obsci` document failed to parse or validate
    | InvalidTestenv(kind: string)      // the requested test environment type is unknown
    | MissingAttribute(name: string)    // a call to an operation the client does not define

  /** Prepends `acc` to a successful result; a failure passes through. */
  function Extend<T>(acc: seq<T>, r: Result<seq<T>>): (e: Result<seq<T>>)
    ensures e.Failure? <==> r.Failure?
    ensures r.Failure? ==> e.error == r.error
    ensures r.Success? ==> |e.value| == |acc| + |r.value| && e.value[..|acc|] == acc && e.value[|acc|..] == r.value
  {
    match r
    case Success(rest) => Success(acc + rest)
    case Failure(err) => Failure(err)
  }

  /** Prepending in two steps is prepending the concatenation. */
  lemma ExtendAppend<T>(a: seq<T>, b: seq<T>, r: Result<seq<T>>)
    ensures Extend(a + b, r) == Extend(a, Extend(b, r))
  {
    if r.Success? {
      assert (a + b) + r.value == a + (b + r.value);
    }
  }

  lemma ConcatAssoc<T>(a: seq<T>, b: seq<T>, c: seq<T>)
    ensures (a + b) + c == a + (b + c)
  {
  }
}
