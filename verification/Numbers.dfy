/** Counters of the machine's width that stick at their largest value. */
module Numbers {
  const U64_MAX: nat := 0xFFFF_FFFF_FFFF_FFFF

  function Saturated(n: nat): nat { if n > U64_MAX then U64_MAX else n }

  function SaturatingAdd(a: nat, b: nat): nat { Saturated(a + b) }
}
