/** Arithmetic the components share. */
module Numbers {
  const U64: nat := 0x1_0000_0000_0000_0000
  const U64_MAX: nat := U64 - 1

  function Min(a: nat, b: nat): nat {
    if a < b then a else b
  }
}
