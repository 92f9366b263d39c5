/**
 * Shift-register branch histories: the global history register and each
 * entry of the local history table are updated by the same masked shift.
 */
module History {
  import opened Bits
  import opened Counter

  /** The widest table index the model admits: `1 << bits` and `h << 1` must fit in a C `int`. */
  const MaxBits: nat := 30

  /**
   * `((h << 1) + outcome) & mask`: append the newest outcome as the low bit
   * and forget the oldest one, keeping `bits` outcomes.
   */
  function Shift(h: nat, o: Outcome, bits: nat): (r: nat)
    requires bits <= MaxBits && h < Pow2(bits)
    ensures r < Pow2(bits)
    ensures r == (2 * h + o.Bit()) % Pow2(bits)
    ensures bits > 0 ==> r % 2 == o.Bit()
    ensures bits > 0 ==> r / 2 == h % Pow2(bits - 1)
  {
    LowestBitIsNewest(h, o, bits);
    LowBits(2 * h + o.Bit(), bits)
  }

  lemma LowestBitIsNewest(h: nat, o: Outcome, bits: nat)
    ensures bits > 0 ==> (2 * h + o.Bit()) % Pow2(bits) % 2 == o.Bit()
    ensures bits > 0 ==> (2 * h + o.Bit()) % Pow2(bits) / 2 == h % Pow2(bits - 1)
  {
    if bits > 0 {
      var x := 2 * h + o.Bit();
      ModOfDecomposition(x, 2, h, o.Bit());
      ModPow2Split(x, bits - 1);
    }
  }
}
