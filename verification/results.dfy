/** Values used in place of the C++ exceptions the read path can raise. */
module Results {

  /** An optional child node, as a possibly-null AST pointer. */
  datatype Option<+T> = None | Some(value: T)

  /** The one error the read path raises itself: `dynamic_cast` to a reference
      failing with `std::bad_cast` because the statement root is not a SELECT.
      `statement` names the kind of statement that was found instead. */
  datatype Error = BadCast(statement: string)

  datatype Result<+T> = Ok(value: T) | Err(error: Error)
}
