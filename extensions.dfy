/**
 * Inclusive address-range tests.
 *
 * `InRange` is the extension method on `ushort` (K6502/Extensions.cs); `IsInRange`
 * is the three-argument form the bus uses (K6502/Bus.cs:47,56), whose
 * definition is not part of the repository: it is taken here to be the same
 * inclusive test.
 */
module Extensions {

  /** A System.Range whose ends are plain (from-start) indices. */
  datatype Range = Range(Start: int, End: int)
  {
    /** Number of addresses the range spans, End - Start + 1 (zero or less when empty). */
    function Size(): int { End - Start + 1 }
  }

  /** `x` lies between `lo` and `hi`, both ends included. */
  predicate IsInRange(x: int, lo: int, hi: int)
  {
    lo <= x && x <= hi
  }

  /** `x >= range.Start.Value && x <= range.End.Value` */
  predicate InRange(x: int, r: Range)
  {
    x >= r.Start && x <= r.End
  }

  /** Both ends of a range belong to it, and so does everything between them. */
  lemma InRangeBounds(r: Range, x: int)
    requires r.Start <= r.End
    ensures InRange(r.Start, r) && InRange(r.End, r)
    ensures InRange(x, r) <==> IsInRange(x, r.Start, r.End)
  {
  }

  /** A range whose start lies past its end contains no address at all. */
  lemma InvertedRangeIsEmpty(r: Range, x: int)
    requires r.Start > r.End
    ensures !InRange(x, r)
  {
  }

  /**
   * An address in range is a valid index, after subtracting Start, into a
   * backing array of End - Start + 1 cells (the size K6502/Memory.cs:12 allocates).
   */
  lemma InRangeIndexIsValid(r: Range, x: int)
    requires InRange(x, r)
    ensures 0 <= x - r.Start < r.Size()
  {
  }
}
