// Small types and functions shared by all modules.

module Wrappers {
  datatype Option<+T> = None | Some(value: T)

  newtype Byte = x: int | 0 <= x < 0x100

  type Bytes = seq<Byte>

  // Whether a call to the database, the store or the broker fails.
  method Fault(reliable: bool) returns (f: bool)
    ensures reliable ==> !f
  {
    f := *;
    f := f && !reliable;
  }

  function Smaller(a: int, b: int): int { if a < b then a else b }

  function Larger(a: int, b: int): int { if a < b then b else a }
}
