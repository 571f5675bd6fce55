/** Types shared by the models of the engine. */
module Types {

  datatype Option<+T> = None | Some(value: T)

  datatype QueryError = Overflow | FatalError | TypeError | NotImplemented

  datatype Result<+T> = Ok(value: T) | Err(error: QueryError)

  const I64_MIN: int := -0x8000_0000_0000_0000
  const I64_MAX: int := 0x7fff_ffff_ffff_ffff

  /** The value fits a 64-bit signed integer. */
  predicate InI64(x: int) { I64_MIN <= x <= I64_MAX }

  function Max(a: nat, b: nat): nat { if a < b then b else a }
  function Min(a: nat, b: nat): nat { if a < b then a else b }
}
