/** Powers of two, for batch sizes and age buckets. */
module PowersOfTwo {

  function Pow2(i: nat): nat { if i == 0 then 1 else 2 * Pow2(i - 1) }
}
