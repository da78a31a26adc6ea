module Numbers {
  function MinNat(a: nat, b: nat): nat { if a < b then a else b }
}
