/** Datatypes and machine-integer helpers shared by every model in the project. */
module Common {

  datatype Option<+T> = None | Some(value: T) {
    function GetOr(default: T): T {
      match this
      case Some(v) => v
      case None => default
    }
  }

  datatype Result<+T, +E> = Ok(value: T) | Err(error: E)

  const TWO32: int := 0x1_0000_0000
  const TWO64: int := 0x1_0000_0000_0000_0000

  /** Go's int32 after an operation whose exact value is n. */
  function Wrap32(n: int): (r: int)
    ensures -0x8000_0000 <= r < 0x8000_0000
    ensures (r - n) % TWO32 == 0
  {
    (n + 0x8000_0000) % TWO32 - 0x8000_0000
  }

  /** Go's int64 after an operation whose exact value is n. */
  function Wrap64(n: int): (r: int)
    ensures -0x8000_0000_0000_0000 <= r < 0x8000_0000_0000_0000
    ensures -0x8000_0000_0000_0000 <= n < 0x8000_0000_0000_0000 ==> r == n
  {
    (n + 0x8000_0000_0000_0000) % TWO64 - 0x8000_0000_0000_0000
  }

  /** Wrapping changes a number by a multiple of 2^32. */
  lemma Wrap32Distance(n: int) returns (k: int)
    ensures Wrap32(n) == n + k * 0x1_0000_0000
  {
    k := -((n + 0x8000_0000) / TWO32);
  }

  /** Wrapping changes a number by a multiple of 2^64. */
  lemma Wrap64Distance(n: int) returns (k: int)
    ensures Wrap64(n) == n + k * 0x1_0000_0000_0000_0000
  {
    k := -((n + 0x8000_0000_0000_0000) / TWO64);
  }
}
