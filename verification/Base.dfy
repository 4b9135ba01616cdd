/** Machine integers, bytes, options and the status codes shared by every module. */
module Base {
  const MAX_U64: nat := 0xFFFF_FFFF_FFFF_FFFF
  const MAX_U32: nat := 0xFFFF_FFFF

  type U64 = n: nat | n <= MAX_U64
  type U32 = n: nat | n <= MAX_U32
  type Byte = n: nat | n < 256

  datatype Option<+T> = None | Some(value: T)

  datatype Status =
    | InvalidArgument
    | Unavailable
    | Permission
    | NotFound
    | AlreadyExists
    | ProviderGone
    | Io
    | Timeout
    | Cancelled

  datatype Result<+T> = Ok(value: T) | Err(status: Status)

  /** `u64::checked_add`. */
  function CheckedAdd(a: U64, b: nat): Option<U64> {
    if a + b <= MAX_U64 then Some(a + b) else None
  }

  function Min(a: int, b: int): int {
    if a <= b then a else b
  }
}
