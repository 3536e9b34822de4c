/** The two value converters the window binds to: the brightness band that
    picks the background picture, and the generic boolean-to-value converter. */
module Converters {
  import opened Common

  /** The four background pictures. */
  datatype Background = Bg25 | Bg50 | Bg75 | Bg100
  {
    function ImagePath(): string {
      match this
      case Bg25 => "Images\\Bg25.bmp"
      case Bg50 => "Images\\Bg50.bmp"
      case Bg75 => "Images\\Bg75.bmp"
      case Bg100 => "Images\\Bg100.bmp"
    }

    /** Position of the band, darkest first. */
    function Index(): nat {
      match this
      case Bg25 => 0
      case Bg50 => 1
      case Bg75 => 2
      case Bg100 => 3
    }
  }

  /** The band a brightness falls into, stated as "which quarter of 1..100,
      capped at the last": 0 and 1..25 are band 0, 26..50 band 1, and so on. */
  function QuarterBand(b: nat): nat {
    if b == 0 then 0 else Min((b - 1) / 25, 3)
  }

  /** `BrightnessToBackgroundConverter.Convert`; a null value is `Nothing`.
      The guarded switch is written out case by case, default branch included. */
  function BrightnessToBackground(value: Option<uint32>): (bg: Background)
    ensures value.Nothing? ==> bg == Bg25
    ensures value.Some? ==> bg.Index() == QuarterBand(value.value)
    ensures value.Nothing? ==> bg.ImagePath() == "Images\\Bg25.bmp"
    ensures value.Some? && value.value <= 25 ==> bg.ImagePath() == "Images\\Bg25.bmp"
    ensures value.Some? && 25 < value.value <= 50 ==> bg.ImagePath() == "Images\\Bg50.bmp"
    ensures value.Some? && 50 < value.value <= 75 ==> bg.ImagePath() == "Images\\Bg75.bmp"
    ensures value.Some? && 75 < value.value ==> bg.ImagePath() == "Images\\Bg100.bmp"
  {
    match value
    case Nothing => Bg25
    case Some(brightness) =>
      if brightness <= 25 then Bg25
      else if 25 < brightness <= 50 then Bg50
      else if 50 < brightness <= 75 then Bg75
      else if 75 < brightness then Bg100
      else Bg25
  }

  /** Each band has its own picture, so the path the converter returns
      determines the band. */
  lemma ImagePathsDistinct(x: Background, y: Background)
    ensures x.ImagePath() == y.ImagePath() <==> x == y
  {
  }

  /** The four guards of the switch cover every `uint`, so its default
      branch is never taken. */
  lemma SwitchGuardsExhaustive(brightness: uint32)
    ensures brightness <= 25 || 25 < brightness <= 50 || 50 < brightness <= 75 || 75 < brightness
  {
  }

  /** A brighter value never selects a darker background. */
  lemma BackgroundMonotone(a: uint32, b: uint32)
    requires a <= b
    ensures BrightnessToBackground(Some(a)).Index() <= BrightnessToBackground(Some(b)).Index()
  {
  }

  /** `BooleanToValueConverter<T>` with its two settable properties; a null
      property value or argument is `Nothing`. */
  datatype BooleanToValueConverter<T(==)> = BooleanToValueConverter(falseValue: Option<T>, trueValue: Option<T>)
  {
    /** `Convert`: null and `false` give `FalseValue`, `true` gives `TrueValue`. */
    function Convert(value: Option<bool>): (r: Option<T>)
      ensures value == Some(true) ==> r == trueValue
      ensures value != Some(true) ==> r == falseValue
    {
      match value
      case Nothing => falseValue
      case Some(b) => if b then trueValue else falseValue
    }

    /** `ConvertBack`: true exactly for a non-null argument equal to `TrueValue`. */
    function ConvertBack(value: Option<T>): (b: bool)
      ensures b <==> value.Some? && value == trueValue
    {
      if value.Some? then value == trueValue else false
    }

    /** `true` survives the round trip when `TrueValue` is set. */
    lemma RoundTripTrue()
      requires trueValue.Some?
      ensures ConvertBack(Convert(Some(true)))
    {
    }

    /** `false` survives the round trip when the two values differ. */
    lemma RoundTripFalse()
      requires falseValue != trueValue
      ensures !ConvertBack(Convert(Some(false)))
    {
    }

    /** Both directions together: with a non-null `TrueValue` distinct from
        `FalseValue`, `ConvertBack` inverts `Convert` on every boolean. */
    lemma RoundTrip(b: bool)
      requires trueValue.Some? && falseValue != trueValue
      ensures ConvertBack(Convert(Some(b))) == b
    {
    }
  }
}
