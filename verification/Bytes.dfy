/** Byte strings and the small result types shared by every other module. */
module Bytes {

  /** A byte, written as the character with that code. */
  type byte = c: char | c as int < 256 witness '\0'

  /** A byte string. C strings are byte strings without '\0'. */
  type Str = seq<byte>

  datatype Option<+T> = None | Some(value: T) {
    predicate IsFailure() {
      None?
    }

    function PropagateFailure<U>(): Option<U>
      requires None?
    {
      None
    }

    function Extract(): T
      requires Some?
    {
      value
    }
  }

  /** The outcome of a call that sets errno when it fails. */
  datatype Result<+T> = Ok(value: T) | Err(errno: int)

  const EACCES: int := 13
  const EFAULT: int := 14
  const EINVAL: int := 22
  const ENAMETOOLONG: int := 36
  const ENOSYS: int := 38
  const ENOENT: int := 2
  const ESRCH: int := 3
  const ENOSPC: int := 28
  const EPERM: int := 1

  const TWO_32: int := 0x1_0000_0000

  type u16 = x: int | 0 <= x < 0x1_0000
  type u32 = x: int | 0 <= x < 0x1_0000_0000
  type u64 = x: int | 0 <= x < 0x1_0000_0000_0000_0000

  predicate NulFree(s: Str) {
    '\0' !in s
  }

  function Pow2(n: nat): (r: nat)
    ensures r > 0
  {
    if n == 0 then 1 else 2 * Pow2(n - 1)
  }

  /** Whether bit i of the unsigned word x is set. */
  predicate Bit(x: nat, i: nat) {
    (x / Pow2(i)) % 2 == 1
  }

  /** The set bits of a 64-bit word: (x & ~y) == 0 is Bits(x) <= Bits(y). */
  function Bits(x: nat): set<nat> {
    set i: nat | i < 64 && Bit(x, i)
  }

  /** The C string at the start of a buffer that ends in '\0'. */
  function CStr(s: Str): (r: Str)
    ensures NulFree(r) && |r| <= |s|
    ensures NulFree(s) ==> r == s
  {
    if s == [] || s[0] == '\0' then [] else [s[0]] + CStr(s[1..])
  }
}
