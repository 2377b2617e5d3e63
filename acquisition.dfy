/**
 * Temperature acquisition (src/page0.c): the exponential filter applied to
 * every 10-bit ADC sample in read_ad, the table interpolation of ad_to_temp
 * and the calibration offset added in main. Starting the conversion and
 * waiting for it are not modelled: the raw sample is a parameter.
 */
module Acquisition {
  import opened Word

  /** AD_FILTER_SHIFT */
  const AdFilterShift := 4

  /** ad_lookup, Celsius build: temperature in tenths of a degree at 32 fixed ADC points. */
  const AdLookup: seq<int> := [
    0, -486, -355, -270, -205, -151, -104, -61, -21, 16, 51, 85, 119, 152, 184, 217,
    250, 284, 318, 354, 391, 431, 473, 519, 569, 624, 688, 763, 856, 977, 1154, 1482
  ]

  const AdMin := -486
  const AdMax := 1482

  /** Every table entry lies between AdMin and AdMax. */
  lemma TableRange(b: nat)
    requires b < |AdLookup|
    ensures AdMin <= AdLookup[b] <= AdMax
  {
  }

  /** The largest filter value 10-bit samples can keep up: sixteen times the largest sample. */
  const FilterMax := 16 * 1023

  /** The filter step of read_ad: f - (f >> 4) + raw, in unsigned int arithmetic. */
  function FilterStep(f: u16, raw: nat): (r: u16)
    requires raw < 1024
    ensures f <= FilterMax ==> r == f - f / 16 + raw
  {
    (f - f / 16 + raw) % 0x1_0000
  }

  /** A constant input raw is a fixed point of the filter at 16 * raw. */
  lemma FilterFixedPoint(raw: nat)
    requires raw < 1024
    ensures FilterStep(16 * raw, raw) == 16 * raw
  {
  }

  /** With 10-bit samples the filter never exceeds 16 * 1023, so it never wraps. */
  lemma FilterBounded(f: u16, raw: nat)
    requires raw < 1024 && f <= FilterMax
    ensures FilterStep(f, raw) <= FilterMax
  {
  }

  /** The fractional index a: bits 3..8 of the filter value. */
  function FracIndex(f: u16): (a: nat)
    ensures a < 64
  {
    (f / 8) % 64
  }

  /** The table index b: bits 9..13 of the filter value. */
  function TableIndex(f: u16): (b: nat)
    ensures b < 32
  {
    (f / 512) % 32
  }

  /**
   * The loop of ad_to_temp reads ad_lookup[b + 1] whenever a > 0, which is
   * outside the 32-entry table when b == 31.
   */
  predicate AdIndexOk(f: u16)
  {
    FracIndex(f) == 0 || TableIndex(f) < 31
  }

  /** The upper interpolation point (not read, and so irrelevant, when a == 0). */
  function UpperPoint(f: u16): int
    requires AdIndexOk(f)
  {
    if FracIndex(f) == 0 then AdLookup[TableIndex(f)] else AdLookup[TableIndex(f) + 1]
  }

  /**
   * Reference definition of ad_to_temp: the interpolation of table entries
   * b and b+1 with weights 64-a and a, rounded to nearest (half up), i.e.
   * floor(((64 - a) T[b] + a T[b+1] + 32) / 64).
   */
  function AdToTemp(f: u16): int
    requires AdIndexOk(f)
  {
    ((64 - FracIndex(f)) * AdLookup[TableIndex(f)] + FracIndex(f) * UpperPoint(f) + 32) / 64
  }

  /** A weighted average with weights 64 - a and a, rounded half up, lies between its two points. */
  lemma InterpolationBetween(a: int, lo: int, hi: int)
    requires 0 <= a < 64
    ensures lo <= hi ==> lo <= ((64 - a) * lo + a * hi + 32) / 64 <= hi
    ensures hi <= lo ==> hi <= ((64 - a) * lo + a * hi + 32) / 64 <= lo
    ensures a == 0 ==> ((64 - a) * lo + a * hi + 32) / 64 == lo
  {
    var d := hi - lo;
    assert (64 - a) * lo + a * hi == 64 * lo + a * d;
    assert (64 - a) * lo + a * hi == 64 * hi - (64 - a) * d;
    if d >= 0 {
      assert a * d >= 0 && (64 - a) * d >= 0;
    } else {
      assert a * d <= 0 && (64 - a) * d <= 0;
    }
  }

  /**
   * The interpolated temperature lies between the two table points, and is
   * the lower one when the fraction is zero.
   */
  lemma AdToTempBetween(f: u16)
    requires AdIndexOk(f)
    ensures var lo, hi := AdLookup[TableIndex(f)], UpperPoint(f);
            && (lo <= hi ==> lo <= AdToTemp(f) <= hi)
            && (hi <= lo ==> hi <= AdToTemp(f) <= lo)
            && (FracIndex(f) == 0 ==> AdToTemp(f) == lo)
  {
    InterpolationBetween(FracIndex(f), AdLookup[TableIndex(f)], UpperPoint(f));
  }

  /** Every converted temperature lies within the table's range. */
  lemma AdToTempRange(f: u16)
    requires AdIndexOk(f)
    ensures AdMin <= AdToTemp(f) <= AdMax
  {
    AdToTempBetween(f);
    TableRange(TableIndex(f));
    if FracIndex(f) != 0 {
      TableRange(TableIndex(f) + 1);
    }
  }

  /** x added n times. */
  function Repeated(x: int, n: nat): int
  {
    if n == 0 then 0 else Repeated(x, n - 1) + x
  }

  lemma {:induction false} RepeatedIsProduct(x: int, n: nat)
    ensures Repeated(x, n) == n * x
  {
    if n > 0 {
      RepeatedIsProduct(x, n - 1);
    }
  }

  /**
   * ad_to_temp(): 64 additions starting from 32, of T[b] for the indices
   * i >= a and of T[b+1] for i < a, then an arithmetic shift right by 6.
   * T[b+1] is only read when a > 0, so it is fetched only then.
   */
  method AdToTempLoop(adfilter: u16) returns (t: int)
    requires AdIndexOk(adfilter)
    ensures t == AdToTemp(adfilter)
  {
    var a := (adfilter / 8) % 64;    // bits 3..8: the fraction between two table points
    var b := (adfilter / 512) % 32;  // bits 9..13: the table index
    assert a == FracIndex(adfilter) && b == TableIndex(adfilter);
    var hi := if a == 0 then AdLookup[b] else AdLookup[b + 1];
    var temp := InterpolationSum(a, AdLookup[b], hi);
    SumIsInterpolation(adfilter, temp);
    t := temp / 64;  // the arithmetic shift rounds towards minus infinity, as Dafny's division does
  }

  /** The loop of ad_to_temp: from 32, add lo for each i in a..63 and hi for each i in 0..a-1. */
  method InterpolationSum(a: nat, lo: int, hi: int) returns (temp: int)
    requires a < 64
    ensures temp == 32 + Repeated(lo, 64 - a) + Repeated(hi, a)
  {
    ghost var nLo, nHi := 0, 0;      // how many times each point has been added
    temp := 32;
    var i := 0;
    while i < 64
      invariant 0 <= i <= 64
      invariant nHi == (if i < a then i else a) && nLo == i - nHi
      invariant temp == 32 + Repeated(lo, nLo) + Repeated(hi, nHi)
    {
      if a <= i {
        temp := temp + lo;
        nLo := nLo + 1;
      } else {
        temp := temp + hi;
        nHi := nHi + 1;
      }
      i := i + 1;
    }
  }

  /** After the loop, the sum holds 64 - a copies of T[b] and a copies of the upper point. */
  lemma SumIsInterpolation(f: u16, temp: int)
    requires AdIndexOk(f)
    requires temp == 32 + Repeated(AdLookup[TableIndex(f)], 64 - FracIndex(f)) + Repeated(UpperPoint(f), FracIndex(f))
    ensures temp / 64 == AdToTemp(f)
  {
    RepeatedIsProduct(AdLookup[TableIndex(f)], 64 - FracIndex(f));
    RepeatedIsProduct(UpperPoint(f), FracIndex(f));
  }

  /**
   * The temperature main computes: ad_to_temp() plus the tc slot, added as
   * unsigned int and stored into the signed temperature.
   */
  function Calibrated(adt: int, tcSlot: u16): i16
  {
    S16(U16(adt + tcSlot))
  }

  /** For a table temperature and an offset of at most 1000 tenths the 16-bit arithmetic is exact. */
  lemma CalibratedExact(adt: int, tcSlot: u16)
    requires AdMin <= adt <= AdMax && -1000 <= S16(tcSlot) <= 1000
    ensures Calibrated(adt, tcSlot) == adt + S16(tcSlot)
  {
  }
}
