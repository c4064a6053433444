/** Values shared by every module: optional values and the source's size units. */
module Basics {

  datatype Option<+T> = None | Some(value: T)

  const KIB: nat := 1024
  const MIB: nat := 1024 * KIB
  const GIB: nat := 1024 * MIB
}
