/** The analysis-sensitivity control: the slider's values, the label shown
    beside it and the help text under it. */
module Sensitivity {

  /** The three readings of a sensitivity value. */
  datatype Stance = Speculative | Balanced | Conservative

  const SpeculativeBelow: int := 30
  const ConservativeAbove: int := 70

  /** `getSensitivityLabel`: below 30 speculative, above 70 conservative,
      otherwise balanced, tested in that order. */
  function Label(v: int): (s: Stance)
  {
    if v < SpeculativeBelow then Speculative
    else if v > ConservativeAbove then Conservative
    else Balanced
  }

  /** Each label covers exactly one interval, so the three partition the
      integers. */
  lemma LabelIntervals(v: int)
    ensures Label(v) == Speculative <==> v < 30
    ensures Label(v) == Conservative <==> 70 < v
    ensures Label(v) == Balanced <==> 30 <= v <= 70
  {
  }

  function LabelText(s: Stance): (t: string)
  {
    match s
    case Speculative => "Speculative"
    case Balanced => "Balanced"
    case Conservative => "Conservative"
  }

  const SpeculativeHelp: string :=
    "Exploratory setting: Flags subtle " + "structural patterns and ambiguous " + "mineral traces readily."
  const ConservativeHelp: string :=
    "Conservative setting: Only reports " + "features with high visual " + "corroboration and clear "
    + "morphological evidence."
  const BalancedHelp: string :=
    "Standard field calibration: " + "Balanced interpretation of " + "geological features and provenance " + "markers."

  /** The help paragraph, chosen by its own copy of the two thresholds. */
  function HelpText(v: int): (t: string)
  {
    if v < 30 then SpeculativeHelp
    else if v > 70 then ConservativeHelp
    else BalancedHelp
  }

  /** The help text for each label. */
  function HelpFor(s: Stance): (t: string)
  {
    match s
    case Speculative => SpeculativeHelp
    case Balanced => BalancedHelp
    case Conservative => ConservativeHelp
  }

  /** The label and the help text never disagree. */
  lemma HelpAgreesWithLabel(v: int)
    ensures HelpText(v) == HelpFor(Label(v))
  {
  }

  /** The range input: minimum 10, maximum 90, step 5. */
  predicate SliderValue(v: int)
  {
    10 <= v <= 90 && (v - 10) % 5 == 0
  }

  /** On the slider, speculative is 10 to 25 and conservative 75 to 90. */
  lemma SliderStances(v: int)
    requires SliderValue(v)
    ensures Label(v) == Speculative <==> v in {10, 15, 20, 25}
    ensures Label(v) == Conservative <==> v in {75, 80, 85, 90}
  {
  }

  /** The value the app starts with is a balanced slider position. */
  const InitialSensitivity: int := 60

  lemma InitialBalanced()
    ensures SliderValue(InitialSensitivity) && Label(InitialSensitivity) == Balanced
  {
  }
}
