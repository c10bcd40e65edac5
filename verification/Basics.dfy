/**
  What the modules of more than one part use.
 */
module Basics {
  type byte = bv8

  datatype Option<T> = None | Some(value: T)

  function Min(a: nat, b: nat): nat { if a < b then a else b }
}
