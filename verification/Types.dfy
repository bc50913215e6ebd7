/** Machine integers and the optional value shared by every module. */
module Types {
  datatype Option<+T> = None | Some(value: T)

  // A variable of one of these types that is assigned a sum is proved not to wrap.
  type uint64 = x: int | 0 <= x < 0x1_0000_0000_0000_0000
  type uint32 = x: int | 0 <= x < 0x1_0000_0000
  type byte = x: int | 0 <= x < 256
}
