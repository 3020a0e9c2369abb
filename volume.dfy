/** The volume slider of the applet: the linear map between the receiver's
    dB scale and the slider fraction, the half-step rounding that turns a
    slider position back into a receiver volume, and the icon chosen for a
    slider position (class VolumeSlider in src/extension.js). */
module Volume {

  /** Lowest and highest receiver volume, in dB, that the slider spans. */
  const VolumeMin: real := -80.0
  const VolumeMax: real := 18.0

  /** A value the receiver can show: a whole or half dB. */
  predicate IsHalfStep(v: real) {
    (2.0 * v).Floor as real == 2.0 * v
  }

  /** setVolume: the slider fraction for a receiver volume. Exact inverse of
      DbOf, and the dB range is exactly the fraction range [0, 1]. */
  function FractionOf(volume: real): (fraction: real)
    ensures fraction * (VolumeMax - VolumeMin) + VolumeMin == volume
    ensures VolumeMin <= volume <= VolumeMax <==> 0.0 <= fraction <= 1.0
  {
    (volume - VolumeMin) / (VolumeMax - VolumeMin)
  }

  /** The unrounded receiver volume a slider fraction stands for (the first
      line of getVolume). */
  function DbOf(fraction: real): (volume: real)
    ensures FractionOf(volume) == fraction
  {
    fraction * (VolumeMax - VolumeMin) + VolumeMin
  }

  /** getVolume's rounding: floor, then add a half when the remainder is at
      least a half. The result is the largest half-step not above the input. */
  function RoundHalfStep(value: real): (r: real)
    ensures IsHalfStep(r)
    ensures r <= value < r + 0.5
    ensures r == value.Floor as real || r == value.Floor as real + 0.5
  {
    var whole := value.Floor as real;
    HalfStepsOfWhole(value.Floor);
    if value - whole >= 0.5 then whole + 0.5 else whole
  }

  /** A whole number and a whole number plus a half are half-steps. */
  lemma HalfStepsOfWhole(k: int)
    ensures IsHalfStep(k as real) && IsHalfStep(k as real + 0.5)
  {
    FloorOfWhole(2.0 * (k as real), 2 * k);
    FloorOfWhole(2.0 * (k as real + 0.5), 2 * k + 1);
  }

  lemma FloorOfWhole(x: real, k: int)
    requires x == k as real
    ensures x.Floor == k
  {
  }

  /** Two half-steps less than a half apart are ordered as their difference
      says: no half-step lies strictly between b and b + 0.5. */
  lemma HalfStepOrder(a: real, b: real)
    requires IsHalfStep(a) && IsHalfStep(b) && a < b + 0.5
    ensures a <= b
  {
    var n, m := (2.0 * a).Floor, (2.0 * b).Floor;
    assert n < m + 1;
  }

  /** getVolume: the receiver volume a slider fraction is read back as. */
  function SliderVolume(fraction: real): (volume: real)
    ensures IsHalfStep(volume) && volume <= DbOf(fraction) < volume + 0.5
    ensures FractionOf(volume) <= fraction
  {
    RoundHalfStep(DbOf(fraction))
  }

  /** The rounding is determined by its contract: a half-step h with
      h <= value < h + 0.5 is the rounded value. */
  lemma HalfStepUnique(value: real, h: real)
    requires IsHalfStep(h) && h <= value < h + 0.5
    ensures RoundHalfStep(value) == h
  {
    var r := RoundHalfStep(value);
    HalfStepOrder(h, r);
    HalfStepOrder(r, h);
  }

  /** Every half-step at or below the value is at or below its rounding:
      the rounding is the largest such half-step. */
  lemma HalfStepBelow(value: real, h: real)
    requires IsHalfStep(h) && h <= value
    ensures h <= RoundHalfStep(value)
  {
    HalfStepOrder(h, RoundHalfStep(value));
  }

  /** An independent reference for the rounding: half of the floor of twice
      the value. */
  lemma RoundIsHalfOfDoubleFloor(value: real)
    ensures RoundHalfStep(value) == (2.0 * value).Floor as real / 2.0
  {
    var h := (2.0 * value).Floor as real / 2.0;
    assert 2.0 * h == (2.0 * value).Floor as real;
    HalfStepUnique(value, h);
  }

  /** Setting a half-step volume and reading the slider back gives the same
      volume (with exact arithmetic). */
  lemma SetThenGet(volume: real)
    requires IsHalfStep(volume)
    ensures SliderVolume(FractionOf(volume)) == volume
  {
    assert DbOf(FractionOf(volume)) == volume;
    HalfStepUnique(volume, volume);
  }

  /** The map from dB to fraction pins the ends of the range and preserves
      order, strictly. */
  lemma FractionOrder(a: real, b: real)
    ensures FractionOf(VolumeMin) == 0.0 && FractionOf(VolumeMax) == 1.0
    ensures a < b <==> FractionOf(a) < FractionOf(b)
  {
  }

  /** Reading back is monotone in the fraction: a higher slider position
      never reads back as a lower volume. */
  lemma SliderVolumeMonotone(f: real, g: real)
    requires f <= g
    ensures SliderVolume(f) <= SliderVolume(g)
  {
    assert DbOf(f) <= DbOf(g);
    HalfStepBelow(DbOf(g), SliderVolume(f));
  }

  /** The icon shown beside the slider. */
  datatype Icon = Muted | Low | Medium | High

  /** Loudness order of the icons. */
  function Level(icon: Icon): nat {
    match icon
    case Muted => 0
    case Low => 1
    case Medium => 2
    case High => 3
  }

  /** changeIcon: exactly one icon per slider fraction, chosen by the
      interval the fraction lies in. */
  function IconFor(fraction: real): (icon: Icon)
    ensures icon == Muted <==> fraction == 0.0
    ensures icon == Low <==> fraction != 0.0 && fraction < 0.3
    ensures icon == Medium <==> 0.3 <= fraction < 0.7
    ensures icon == High <==> 0.7 <= fraction
  {
    if fraction == 0.0 then Muted
    else if fraction < 0.3 then Low
    else if fraction < 0.7 then Medium
    else High
  }

  /** On the slider's own range, a louder position never shows a quieter
      icon. */
  lemma IconMonotone(f: real, g: real)
    requires 0.0 <= f <= g
    ensures Level(IconFor(f)) <= Level(IconFor(g))
  {
  }

  /** The icon thresholds stated on the receiver's dB scale: muted exactly at
      -80 dB, low below -50.6 dB, medium below -11.4 dB, high from there. */
  lemma IconByVolume(volume: real)
    requires VolumeMin <= volume
    ensures IconFor(FractionOf(volume)) == Muted <==> volume == VolumeMin
    ensures IconFor(FractionOf(volume)) == Low <==> VolumeMin < volume < -50.6
    ensures IconFor(FractionOf(volume)) == Medium <==> -50.6 <= volume < -11.4
    ensures IconFor(FractionOf(volume)) == High <==> -11.4 <= volume
  {
  }

  /** The volume slider widget: its value (a fraction) and its icon. The
      widget's own clamping of the value is not part of this model. */
  class VolumeSlider {
    var value: real
    var icon: Icon

    /** new VolumeSlider(volume): the icon starts as the medium one and the
        value is set from the volume. */
    constructor (volume: real)
      ensures value == FractionOf(volume) && icon == Medium
    {
      value := FractionOf(volume);
      icon := Medium;
    }

    method SetVolume(volume: real)
      modifies this
      ensures value == FractionOf(volume) && icon == old(icon)
      ensures DbOf(value) == volume
    {
      value := FractionOf(volume);
    }

    /** getVolume: the largest half-step at or below the volume the slider
        value stands for. */
    method GetVolume() returns (volume: real)
      ensures IsHalfStep(volume)
      ensures volume <= DbOf(value) < volume + 0.5
      ensures volume == SliderVolume(value)
    {
      var v := value * (VolumeMax - VolumeMin) + VolumeMin;
      assert v == DbOf(value);
      volume := v.Floor as real;
      if v - volume >= 0.5 {
        volume := volume + 0.5;
      }
      assert volume == RoundHalfStep(v);
    }

    method ChangeIcon()
      modifies this
      ensures icon == IconFor(value) && value == old(value)
    {
      if value == 0.0 {
        icon := Muted;
      } else if value < 0.3 {
        icon := Low;
      } else if value < 0.7 {
        icon := Medium;
      } else {
        icon := High;
      }
    }
  }
}
