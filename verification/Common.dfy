/** What the parts of the kernel share: the C types and the parameters of kernel/param.h
    that more than one of them uses. */
module Common {
  const UINT_MOD: nat := 0x1_0000_0000   // a uint is 32 bits wide
  const MAXOPBLOCKS: nat := 10

  type Byte = x: int | 0 <= x < 256

  datatype Option<T> = None | Some(value: T)

  function Min(a: int, b: int): (c: int) { if a <= b then a else b }
}
