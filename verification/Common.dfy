// Shared vocabulary: optional values, results, and the fixed-width arithmetic of the C sources.
module Common {

  datatype Option<+T> = None | Some(value: T)
  {
    predicate IsFailure() {
      None?
    }

    function PropagateFailure<U>(): Option<U>
      requires None?
    {
      None
    }

    function Extract(): T
      requires Some?
    {
      value
    }
  }

  function Lookup<K, V>(m: map<K, V>, k: K): Option<V> {
    if k in m then Some(m[k]) else None
  }

  type byte = x: int | 0 <= x < 256

  const TWO_32 := 0x1_0000_0000
  const TWO_64 := 0x1_0000_0000_0000_0000
  const UINT32_MAX := 0xFFFF_FFFF

  /** The value an `uint32_t` holds after an arithmetic result is stored in it. */
  function Wrap32(x: int): nat {
    x % 0x1_0000_0000
  }

  /** The value an `uint64_t` holds after an arithmetic result is stored in it. */
  function Wrap64(x: int): nat {
    x % 0x1_0000_0000_0000_0000
  }

  function Min(a: int, b: int): int {
    if a <= b then a else b
  }

  function Max(a: int, b: int): int {
    if a >= b then a else b
  }
}
