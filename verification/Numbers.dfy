/** JavaScript numbers, as far as the models need them. */
module Numbers {

  /** NaN and the infinities are alike. */
  datatype Number = Finite(value: real) | NotFinite

  const MAX_SAFE_INTEGER := 0x1F_FFFF_FFFF_FFFF

  /** An integer from `low` to `high`. */
  predicate Whole(n: Number, low: int, high: int) {
    n.Finite? && n.value.Floor as real == n.value && low <= n.value.Floor <= high
  }
}
