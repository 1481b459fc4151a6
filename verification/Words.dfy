// Machine words, and optional values.

module Words {

  const UINT16_RANGE: nat := 0x1_0000
  const UINT32_RANGE: nat := 0x1_0000_0000
  const UINT64_RANGE: nat := 0x1_0000_0000_0000_0000

  datatype Option<+T> = None | Some(value: T)
}
