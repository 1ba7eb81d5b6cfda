/** Models uprising/utils/option.ts: a Rust-style optional value with its
    combinators.  The TypeScript classes `Some` and `None` become the two
    constructors of one datatype, and every method becomes a function whose
    receiver is the first argument. */
module Options {
  import opened Exceptions

  datatype Option<T> = Some(value: T) | None

  /** A JavaScript value that may be `null` or `undefined`. */
  datatype Nullable<T> = Null | Undefined | Present(value: T)

  /** `Some.wrapNull`: both `null` and `undefined` compare `== null`. */
  function WrapNull<T>(x: Nullable<T>): (r: Option<T>)
    ensures r == None <==> (x == Null || x == Undefined)
    ensures x.Present? ==> r == Some(x.value)
  {
    if x.Present? then Some(x.value) else None
  }

  function IsSome<T>(o: Option<T>): (b: bool)
    ensures b <==> o.Some?
  {
    match o
    case Some(_) => true
    case None => false
  }

  function IsNone<T>(o: Option<T>): (b: bool)
    ensures b <==> o.None?
  {
    match o
    case Some(_) => false
    case None => true
  }

  function IsSomeAnd<T>(o: Option<T>, f: T -> bool): (b: bool)
    ensures b <==> (o.Some? && f(o.value))
  {
    match o
    case Some(v) => f(v)
    case None => false
  }

  function IsNoneAnd<T>(o: Option<T>, f: () -> bool): (b: bool)
    ensures b <==> (o.None? && f())
  {
    match o
    case Some(_) => false
    case None => f()
  }

  /** `unwrap` throws "None.get" on `None`. */
  function Unwrap<T>(o: Option<T>): (r: Outcome<T>)
    ensures o.Some? ==> r == Returns(o.value)
    ensures o.None? ==> r.Raises?
  {
    match o
    case Some(v) => Returns(v)
    case None => Raises("None.get")
  }

  function UnwrapOr<T>(o: Option<T>, default: T): (r: T)
    ensures o.Some? ==> r == o.value
    ensures o.None? ==> r == default
  {
    match o
    case Some(v) => v
    case None => default
  }

  function UnwrapOrElse<T>(o: Option<T>, f: () -> T): (r: T)
    ensures o.Some? ==> r == o.value
    ensures o.None? ==> r == f()
  {
    match o
    case Some(v) => v
    case None => f()
  }

  function Map<T, U>(o: Option<T>, f: T -> U): (r: Option<U>)
    ensures o.Some? ==> r == Some(f(o.value))
    ensures o.None? ==> r == None
  {
    match o
    case Some(v) => Some(f(v))
    case None => None
  }

  function MapOr<T, U>(o: Option<T>, default: U, f: T -> U): (r: U)
    ensures o.Some? ==> r == f(o.value)
    ensures o.None? ==> r == default
  {
    match o
    case Some(v) => f(v)
    case None => default
  }

  function MapOrElse<T, U>(o: Option<T>, default: () -> U, f: T -> U): (r: U)
    ensures o.Some? ==> r == f(o.value)
    ensures o.None? ==> r == default()
  {
    match o
    case Some(v) => f(v)
    case None => default()
  }

  function And<T, U>(o: Option<T>, b: Option<U>): (r: Option<U>)
    ensures o.Some? ==> r == b
    ensures o.None? ==> r == None
  {
    match o
    case Some(_) => b
    case None => None
  }

  /** Unlike `Map`, the function's own option is returned without re-wrapping. */
  function AndThen<T, U>(o: Option<T>, f: T -> Option<U>): (r: Option<U>)
    ensures o.Some? ==> r == f(o.value)
    ensures o.None? ==> r == None
  {
    match o
    case Some(v) => f(v)
    case None => None
  }

  function Or<T>(o: Option<T>, b: Option<T>): (r: Option<T>)
    ensures o.Some? ==> r == o
    ensures o.None? ==> r == b
  {
    match o
    case Some(_) => o
    case None => b
  }

  function OrElse<T>(o: Option<T>, f: () -> Option<T>): (r: Option<T>)
    ensures o.Some? ==> r == o
    ensures o.None? ==> r == f()
  {
    match o
    case Some(_) => o
    case None => f()
  }

  // ---------------------------------------------------------------------
  // Laws relating the combinators to one another

  /** `isSome` and `isNone` are complementary. */
  lemma SomeNoneComplementary<T>(o: Option<T>)
    ensures IsSome(o) != IsNone(o)
  {
  }

  /** Mapping the identity changes nothing; mapping twice is mapping the composition. */
  lemma MapFunctor<T, U, V>(o: Option<T>, f: T -> U, g: U -> V)
    ensures Map(o, x => x) == o
    ensures Map(Map(o, f), g) == Map(o, x => g(f(x)))
  {
  }

  /** `map` is `andThen` of a function that always wraps. */
  lemma AndThenOfSomeIsMap<T, U>(o: Option<T>, f: T -> U)
    ensures AndThen(o, x => Some(f(x))) == Map(o, f)
  {
  }

  /** `mapOr` is `map` followed by `unwrapOr`. */
  lemma MapOrIsMapThenUnwrapOr<T, U>(o: Option<T>, default: U, f: T -> U)
    ensures MapOr(o, default, f) == UnwrapOr(Map(o, f), default)
  {
  }

  /** `unwrapOr` agrees with `unwrap` whenever `unwrap` returns. */
  lemma UnwrapOrAgreesWithUnwrap<T>(o: Option<T>, default: T)
    ensures Unwrap(o).Returns? ==> Unwrap(o).value == UnwrapOr(o, default)
    ensures Unwrap(o).Raises? <==> IsNone(o)
  {
  }

  /** `and` and `or` are associative, and `None` is the identity of `or`. */
  lemma AndOrAssociative<T>(a: Option<T>, b: Option<T>, c: Option<T>)
    ensures And(And(a, b), c) == And(a, And(b, c))
    ensures Or(Or(a, b), c) == Or(a, Or(b, c))
    ensures Or(None, a) == a && Or(a, None) == a
  {
  }
}
