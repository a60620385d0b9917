/** The signal indicator of one network card (components/network-card.tsx):
    the signal percentage derived from the dBm reading, its colour and the
    number of lit bars. JavaScript numbers are modelled as exact reals plus
    NaN, which is what `Math.abs` yields for a missing `signal` field and
    what every comparison with NaN answers `false` to. */
module NetworkCard {

  /** A JavaScript number: a finite value or NaN. */
  datatype Number = Finite(v: real) | NaN

  function Abs(x: real): (r: real)
    ensures r >= 0.0 && (r == x || r == -x)
  {
    if x < 0.0 then -x else x
  }

  /** `x` limited to the range 0..100. */
  function Clamp(x: real): (r: real)
    ensures 0.0 <= r <= 100.0
    ensures 0.0 <= x <= 100.0 ==> r == x
    ensures x > 100.0 ==> r == 100.0
    ensures x < 0.0 ==> r == 0.0
  {
    if x > 100.0 then 100.0 else if x < 0.0 then 0.0 else x
  }

  /** `signalPercent`: the distance of the reading's magnitude from 100 dBm,
      scaled by one and a half and limited to 0..100; NaN stays NaN. */
  function SignalPercent(signal: Number): (p: Number)
    ensures p.Finite? <==> signal.Finite?
    ensures p.Finite? ==> 0.0 <= p.v <= 100.0
  {
    match signal
    case Finite(s) => Finite(Clamp((100.0 - Abs(s)) * 1.5))
    case NaN => NaN
  }

  /** `x > t` in JavaScript: false whenever `x` is NaN. */
  predicate Above(x: Number, t: real) {
    x.Finite? && x.v > t
  }

  /** Inside the clamp's range the percentage is the unclamped formula. */
  lemma SignalPercentFormula(s: real)
    ensures 100.0 / 3.0 <= Abs(s) <= 100.0 ==> SignalPercent(Finite(s)) == Finite((100.0 - Abs(s)) * 1.5)
    ensures Abs(s) < 100.0 / 3.0 ==> SignalPercent(Finite(s)) == Finite(100.0)
    ensures Abs(s) > 100.0 ==> SignalPercent(Finite(s)) == Finite(0.0)
  {
  }

  /** A weaker reading (larger magnitude in dBm) never gives a larger percentage. */
  lemma SignalPercentAntitone(a: real, b: real)
    requires Abs(a) <= Abs(b)
    ensures SignalPercent(Finite(b)).v <= SignalPercent(Finite(a)).v
  {
  }

  datatype SignalColor = Primary | Yellow | Destructive

  /** `getSignalColor`. */
  function ColorOf(strength: Number): (c: SignalColor)
    ensures strength.NaN? ==> c == Destructive
    ensures c != Destructive ==> BarsOf(strength) >= 2
  {
    if Above(strength, 70.0) then Primary
    else if Above(strength, 40.0) then Yellow
    else Destructive
  }

  /** `getSignalBars`. */
  function BarsOf(strength: Number): (n: int)
    ensures 1 <= n <= 4
  {
    if Above(strength, 70.0) then 4
    else if Above(strength, 50.0) then 3
    else if Above(strength, 30.0) then 2
    else 1
  }

  /** Colour rank: Destructive < Yellow < Primary. */
  function ColorRank(c: SignalColor): nat {
    match c
    case Destructive => 0
    case Yellow => 1
    case Primary => 2
  }

  /** A stronger signal never shows fewer bars nor a worse colour. */
  lemma IndicatorMonotone(a: real, b: real)
    requires a <= b
    ensures BarsOf(Finite(a)) <= BarsOf(Finite(b))
    ensures ColorRank(ColorOf(Finite(a))) <= ColorRank(ColorOf(Finite(b)))
  {
  }

  /** Both helpers share the threshold 70: four bars exactly when the colour is primary. */
  lemma FourBarsIffPrimary(strength: Number)
    ensures BarsOf(strength) == 4 <==> ColorOf(strength) == Primary
  {
  }

  /** One of the four bars: lit in the signal colour, or muted. */
  datatype Bar = Lit(color: SignalColor) | Muted

  /** The bar strip: bar `i` is lit when `i < getSignalBars(strength)`. */
  function Bars(strength: Number): (bars: seq<Bar>)
    ensures |bars| == 4
  {
    seq(4, i requires 0 <= i < 4 => if i < BarsOf(strength) then Lit(ColorOf(strength)) else Muted)
  }

  /** The lit bars are a prefix of the strip, as many as `getSignalBars`
      says, all in the signal's colour. */
  lemma BarsLitPrefix(strength: Number)
    ensures forall i :: 0 <= i < 4 ==> (Bars(strength)[i].Lit? <==> i < BarsOf(strength))
    ensures forall i :: 0 <= i < 4 && Bars(strength)[i].Lit? ==> Bars(strength)[i].color == ColorOf(strength)
    ensures forall i, j :: 0 <= i <= j < 4 && Bars(strength)[j].Lit? ==> Bars(strength)[i].Lit?
    ensures Bars(strength)[0].Lit?
  {
  }

  /** The card's indicator for a reading of `s` dBm, in terms of `|s|`:
      four bars and primary below 160/3, three bars below 200/3, two below
      80, one bar otherwise; yellow from 160/3 up to 220/3. */
  lemma IndicatorThresholds(s: real)
    ensures var p := SignalPercent(Finite(s));
      (BarsOf(p) == 4 <==> Abs(s) < 160.0 / 3.0) &&
      (BarsOf(p) >= 3 <==> Abs(s) < 200.0 / 3.0) &&
      (BarsOf(p) >= 2 <==> Abs(s) < 80.0) &&
      (ColorOf(p) == Primary <==> Abs(s) < 160.0 / 3.0) &&
      (ColorOf(p) == Yellow <==> 160.0 / 3.0 <= Abs(s) < 220.0 / 3.0)
  {
  }

  /** A card without a `signal` field (the Flask service sends none) shows
      one destructive bar. */
  lemma MissingSignalShowsOneBar()
    ensures BarsOf(SignalPercent(NaN)) == 1
    ensures ColorOf(SignalPercent(NaN)) == Destructive
  {
  }
}
