/**
 * Value limits of the configuration menu (src/page1.c, range and
 * check_value): every edited value is forced back into the bounds of its
 * item's type, wrapping round from one end to the other.
 */
module MenuValues {
  import opened Stc1000p

  /**
   * range(): a value above `max` becomes `min`, a value below `min` becomes
   * `max`, so stepping past either end wraps to the other end.
   */
  function Range(x: int, min: int, max: int): (r: int)
    ensures min <= max ==> min <= r <= max
    ensures min <= x <= max ==> r == x
  {
    if x > max then min
    else if x < min then max
    else x
  }

  /** range() wraps rather than clamps: overshooting one end lands on the other. */
  lemma RangeWraps(x: int, min: int, max: int)
    requires min <= max
    ensures x > max ==> Range(x, min, max) == min
    ensures x < min ==> Range(x, min, max) == max
  {
  }

  /** Lower bound of the values an item may hold (items >= MENU_SIZE: the run mode 0..3). */
  function ItemMin(mi: int): int
  {
    if 0 <= mi < MenuSize then
      match MenuData[mi].kind
      case TTemperature => MinTemp
      case TTempDiff => MinTempDiff
      case TDuration => 0
      case TPercentage => 0
      case TBool => 0
    else 0
  }

  /** Upper bound of the values an item may hold. */
  function ItemMax(mi: int): int
  {
    if 0 <= mi < MenuSize then
      match MenuData[mi].kind
      case TTemperature => MaxTemp
      case TTempDiff => MaxTempDiff
      case TDuration => 999
      case TPercentage => 200
      case TBool => 1
    else 3
  }

  predicate InBounds(mi: int, v: int)
  {
    ItemMin(mi) <= v <= ItemMax(mi)
  }

  /** check_value(): the type dispatch of the source, each branch one range() call. */
  function CheckValue(mi: nat, mv: int): (r: int)
    ensures InBounds(mi, r)
    ensures InBounds(mi, mv) ==> r == mv
  {
    if mi < MenuSize then
      var t := MenuData[mi].kind;
      if t == TTemperature then Range(mv, MinTemp, MaxTemp)
      else if t == TTempDiff then Range(mv, MinTempDiff, MaxTempDiff)
      else if t == TDuration then Range(mv, 0, 999)
      else if t == TPercentage then Range(mv, 0, 200)
      else Range(mv, 0, 1)
    else
      Range(mv, 0, 3)
  }

  /** check_value() is idempotent, and a value is a fixed point exactly when it is within bounds. */
  lemma CheckValueIdempotent(mi: nat, mv: int)
    ensures CheckValue(mi, CheckValue(mi, mv)) == CheckValue(mi, mv)
    ensures CheckValue(mi, mv) == mv <==> InBounds(mi, mv)
  {
  }

  /** The temperature range contains the bounds of every item type. */
  lemma BoundsWithinTemperatureRange(mi: int, v: int)
    requires InBounds(mi, v)
    ensures MinTemp <= v <= MaxTemp
  {
    if 0 <= mi < MenuSize {
      match MenuData[mi].kind
      case TTemperature =>
      case TTempDiff =>
      case TDuration =>
      case TPercentage =>
      case TBool =>
    }
  }

  /** Every default value of MENU_DATA lies within the bounds check_value() enforces for its item. */
  lemma DefaultsInBounds()
    ensures forall k :: 0 <= k < MenuSize ==> InBounds(k, MenuData[k].defaultValue)
  {
  }
}
