/** Small shared vocabulary: optional values and opaque identifiers. */
module Prelude {

  datatype Option<+T> = None | Some(value: T)

  /** A generated identifier (a UUID string in the source). Identifiers are only
      ever compared for equality, so a number stands for one. */
  type Id = nat
}
