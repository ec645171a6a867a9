/** Shared vocabulary: optional values, results, and the identifier types of the store. */
module Base {

  datatype Option<+T> = None | Some(value: T)

  /** The outcome of an operation that the source reports either as a value or as an error message. */
  datatype Result<+T> = Ok(value: T) | Err(error: string)

  /** The provider's numeric identifier. The store keys rows by its decimal rendering,
      which is injective, so the number itself serves as the key. */
  type HarvestId = nat

  type UserId = string

  /** Rule identifiers are issued by the store from a counter and never reused. */
  type RuleId = nat

  /** Calendar dates and instants, as totally ordered numbers. */
  type Date = int
  type Timestamp = int

  /** JavaScript truthiness of an optional request string: present and non-empty. */
  predicate Truthy(s: Option<string>)
  {
    s.Some? && s.value != ""
  }

  /** What a request handler answers: a value, or an HTTP error status with its message. */
  datatype ApiResult<+T> = Success(value: T) | Failure(status: nat, error: string)
}
