/** The two comparison helpers of Unblind/MathHelpers.cs, instantiated at the
    integer types every caller uses (`uint`). */
module MathHelpers {
  import opened Common

  /** `ClampValue`: below `min` gives `min`, otherwise above `max` gives `max`,
      otherwise the value itself. The order of the tests matters when
      `min > max`: `min` wins only for values below it. */
  function ClampValue(value: int, min: int, max: int): (r: int)
    ensures value < min ==> r == min
    ensures min <= value && max < value ==> r == max
    ensures min <= value <= max ==> r == value
  {
    if value < min then min else if value > max then max else value
  }

  /** With a well-formed range the clamped value lies inside it. */
  lemma ClampInRange(value: int, min: int, max: int)
    requires min <= max
    ensures min <= ClampValue(value, min, max) <= max
  {
  }

  /** Clamping twice changes nothing more than clamping once. */
  lemma ClampIdempotent(value: int, min: int, max: int)
    requires min <= max
    ensures ClampValue(ClampValue(value, min, max), min, max) == ClampValue(value, min, max)
  {
  }

  /** The clamped value is the point of `[min, max]` nearest to `value`. */
  lemma ClampIsNearest(value: int, min: int, max: int, y: int)
    requires min <= y <= max
    ensures Distance(ClampValue(value, min, max), value) <= Distance(y, value)
  {
  }

  /** `Greater`: the first argument when it is at least the second,
      otherwise the second. */
  function Greater(first: int, second: int): (r: int)
    ensures r >= first && r >= second
    ensures r == first || r == second
  {
    if first >= second then first else second
  }
}
