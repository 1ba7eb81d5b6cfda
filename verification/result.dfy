/** Models uprising/utils/result.ts: a Rust-style success-or-error value with
    its combinators, together with the two methods of option.ts that build a
    result (`okOr`, `okOrElse`), which live here because results refer to
    options and not the other way round. */
module Results {
  import opened Exceptions
  import opened Options

  datatype Result<T, E> = Ok(value: T) | Err(error: E)

  function Map<T, E, U>(r: Result<T, E>, f: T -> U): (s: Result<U, E>)
    ensures r.Ok? ==> s == Ok(f(r.value))
    ensures r.Err? ==> s == Err(r.error)
  {
    match r
    case Ok(v) => Ok(f(v))
    case Err(e) => Err(e)
  }

  function MapErr<T, E, U>(r: Result<T, E>, f: E -> U): (s: Result<T, U>)
    ensures r.Ok? ==> s == Ok(r.value)
    ensures r.Err? ==> s == Err(f(r.error))
  {
    match r
    case Ok(v) => Ok(v)
    case Err(e) => Err(f(e))
  }

  function IsOk<T, E>(r: Result<T, E>): (b: bool)
    ensures b <==> r.Ok?
  {
    match r
    case Ok(_) => true
    case Err(_) => false
  }

  /** As written, `Err.isErr` returns false, so `isErr` is false on every
      result; see `IsErrCorrected` for the evidently intended test. */
  function IsErr<T, E>(r: Result<T, E>): (b: bool)
    ensures !b
  {
    match r
    case Ok(_) => false
    case Err(_) => false
  }

  /** The test `Err.isErr` was evidently meant to perform. */
  function IsErrCorrected<T, E>(r: Result<T, E>): (b: bool)
    ensures b <==> !IsOk(r)
  {
    match r
    case Ok(_) => false
    case Err(_) => true
  }

  /** `ok()`: the success value, if any. */
  function OkValue<T, E>(r: Result<T, E>): (o: Option<T>)
    ensures r.Ok? ==> o == Some(r.value)
    ensures r.Err? ==> o == None
  {
    match r
    case Ok(v) => Some(v)
    case Err(_) => None
  }

  /** `err()`: the error value, if any. */
  function ErrValue<T, E>(r: Result<T, E>): (o: Option<E>)
    ensures r.Ok? ==> o == None
    ensures r.Err? ==> o == Some(r.error)
  {
    match r
    case Ok(_) => None
    case Err(e) => Some(e)
  }

  function And<T, E, U>(r: Result<T, E>, res: Result<U, E>): (s: Result<U, E>)
    ensures r.Ok? ==> s == res
    ensures r.Err? ==> s == Err(r.error)
  {
    match r
    case Ok(_) => res
    case Err(e) => Err(e)
  }

  function AndThen<T, E, U>(r: Result<T, E>, op: T -> Result<U, E>): (s: Result<U, E>)
    ensures r.Ok? ==> s == op(r.value)
    ensures r.Err? ==> s == Err(r.error)
  {
    match r
    case Ok(v) => op(v)
    case Err(e) => Err(e)
  }

  function Or<T, E>(r: Result<T, E>, res: Result<T, E>): (s: Result<T, E>)
    ensures r.Ok? ==> s == r
    ensures r.Err? ==> s == res
  {
    match r
    case Ok(_) => r
    case Err(_) => res
  }

  function OrElse<T, E, U>(r: Result<T, E>, op: E -> Result<T, U>): (s: Result<T, U>)
    ensures r.Ok? ==> s == Ok(r.value)
    ensures r.Err? ==> s == op(r.error)
  {
    match r
    case Ok(v) => Ok(v)
    case Err(e) => op(e)
  }

  /** `unwrap` throws "Err.get" on an error. */
  function Unwrap<T, E>(r: Result<T, E>): (o: Outcome<T>)
    ensures r.Ok? ==> o == Returns(r.value)
    ensures r.Err? ==> o.Raises?
  {
    match r
    case Ok(v) => Returns(v)
    case Err(_) => Raises("Err.get")
  }

  function UnwrapOr<T, E>(r: Result<T, E>, default: T): (v: T)
    ensures r.Ok? ==> v == r.value
    ensures r.Err? ==> v == default
  {
    match r
    case Ok(v) => v
    case Err(_) => default
  }

  function UnwrapOrElse<T, E>(r: Result<T, E>, op: E -> T): (v: T)
    ensures r.Ok? ==> v == r.value
    ensures r.Err? ==> v == op(r.error)
  {
    match r
    case Ok(v) => v
    case Err(e) => op(e)
  }

  /** `Option.okOr` (option.ts). */
  function OkOr<T, E>(o: Option<T>, err: E): (r: Result<T, E>)
    ensures o.Some? ==> r == Ok(o.value)
    ensures o.None? ==> r == Err(err)
  {
    match o
    case Some(v) => Ok(v)
    case None => Err(err)
  }

  /** `Option.okOrElse` (option.ts). */
  function OkOrElse<T, E>(o: Option<T>, err: () -> E): (r: Result<T, E>)
    ensures o.Some? ==> r == Ok(o.value)
    ensures o.None? ==> r == Err(err())
  {
    match o
    case Some(v) => Ok(v)
    case None => Err(err())
  }

  // ---------------------------------------------------------------------
  // Laws relating the combinators to one another

  /** Exactly one of `ok()` and `err()` holds a value, and `isOk` tells which. */
  lemma OkErrPartition<T, E>(r: Result<T, E>)
    ensures OkValue(r).Some? != ErrValue(r).Some?
    ensures IsOk(r) <==> OkValue(r).Some?
  {
  }

  /** `okOr` followed by `ok()` gives back the option it started from, and
      `err()` gives back the error exactly when the option was empty. */
  lemma OkOrRoundTrip<T, E>(o: Option<T>, e: E)
    ensures OkValue(OkOr(o, e)) == o
    ensures ErrValue(OkOr(o, e)) == (if o.None? then Some(e) else None)
  {
  }

  /** `map` touches only successes, `mapErr` only errors, so they commute. */
  lemma MapMapErrCommute<T, E, U, F>(r: Result<T, E>, f: T -> U, g: E -> F)
    ensures MapErr(Map(r, f), g) == Map(MapErr(r, g), f)
    ensures Map(r, x => x) == r && MapErr(r, x => x) == r
  {
  }

  /** `map` is `andThen` of a function that always succeeds. */
  lemma AndThenOfOkIsMap<T, E, U>(r: Result<T, E>, f: T -> U)
    ensures AndThen(r, x => Ok(f(x))) == Map(r, f)
  {
  }

  /** As written, `isOk` and `isErr` are not complementary: on an error both
      are false.  The corrected test is. */
  lemma IsErrNotComplementOfIsOk<E>(e: E)
    ensures !IsOk(Result<int, E>.Err(e)) && !IsErr(Result<int, E>.Err(e))
    ensures IsErrCorrected(Result<int, E>.Err(e))
  {
  }

  /** `unwrapOr` agrees with `unwrap` whenever `unwrap` returns. */
  lemma UnwrapOrAgreesWithUnwrap<T, E>(r: Result<T, E>, default: T)
    ensures Unwrap(r).Returns? ==> Unwrap(r).value == UnwrapOr(r, default)
    ensures Unwrap(r).Raises? <==> !IsOk(r)
  {
  }
}
