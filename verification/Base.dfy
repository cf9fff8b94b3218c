/** Types shared by every module. */
module Base {

  datatype Option<+T> = None | Some(value: T)

  type uint64 = n: int | 0 <= n < 0x1_0000_0000_0000_0000

  type int64 = n: int | -0x8000_0000_0000_0000 <= n < 0x8000_0000_0000_0000

  type uint16 = n: int | 0 <= n < 0x1_0000
}
