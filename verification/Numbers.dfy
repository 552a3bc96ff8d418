/** The smaller of two counts: the counterpart of Rust's `min`. */
module Numbers {
  function Min(a: nat, b: nat): nat {
    if a < b then a else b
  }
}
