/** The errors the reconciliation returns, and the shape of its results. */
module Results {
  import opened Wrappers
  import opened Cloud

  datatype Error =
    | VolumeNotFound             // ErrorVolumeNotFound
    | MultipleVolumes            // "multiple volumes found"
    | NoNicForMac(mac: string)   // "no NIC found for mapped MAC address"
    | MultiplePorts              // "multiple ports found"
    | Upstream(cause: CloudError) // a cloud call's error, returned unchanged

  /** What a read-only part of the reconciliation returns, and the requests it made, in order. */
  datatype Step<T> = Step(result: Result<T, Error>, trace: seq<Request>)

  /** A cloud call's result as the client code returns it. */
  function Lift<T>(r: Result<T, CloudError>): Result<T, Error> {
    match r
    case Ok(v) => Ok(v)
    case Err(e) => Err(Upstream(e))
  }

  /** `done` followed by what the rest of a loop gives, unless the rest fails. */
  function Then<T>(done: seq<T>, rest: Result<seq<T>, Error>): Result<seq<T>, Error> {
    if rest.Ok? then Ok(done + rest.value) else rest
  }

  lemma ThenNothing<T>(rest: Result<seq<T>, Error>)
    ensures Then([], rest) == rest
  {
    if rest.Ok? {
      assert [] + rest.value == rest.value;
    }
  }

  lemma ThenThen<T>(a: seq<T>, b: seq<T>, rest: Result<seq<T>, Error>)
    ensures Then(a, Then(b, rest)) == Then(a + b, rest)
  {
    if rest.Ok? {
      assert a + (b + rest.value) == (a + b) + rest.value;
    }
  }

  /** The log after `first` and then `second` were appended to `start`. */
  lemma LogExtends(start: seq<Request>, first: seq<Request>, middle: seq<Request>, second: seq<Request>, end: seq<Request>)
    requires middle == start + first && end == middle + second
    ensures end == start + (first + second)
  {
    assert start + (first + second) == (start + first) + second;
  }
}
