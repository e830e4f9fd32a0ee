/** The mood-baseline screen: a 1..10 slider whose value is described by a
    label and an icon. Nothing it does reaches the profile. */
module MoodBaseline {
  import opened Wrappers
  import opened Onboarding
  import UserStore

  const Labels: seq<string> := ["Struggling", "Not Great", "Okay", "Good", "Amazing"]
  const Icons: seq<string> := ["thunderstorm", "rainy", "cloud", "partly-sunny", "sunny"]

  /** The slider's range and its starting value. */
  const SliderMin := 1
  const SliderMax := 10
  const InitialMood := 5

  /** `getMoodLabel`. */
  function MoodLabel(v: int): (r: string)
    ensures r in Labels
  {
    if v <= 2 then "Struggling"
    else if v <= 4 then "Not Great"
    else if v <= 6 then "Okay"
    else if v <= 8 then "Good"
    else "Amazing"
  }

  /** `getMoodIcon`. */
  function MoodIcon(v: int): (r: string)
    ensures r in Icons
  {
    if v <= 2 then "thunderstorm"
    else if v <= 4 then "rainy"
    else if v <= 6 then "cloud"
    else if v <= 8 then "partly-sunny"
    else "sunny"
  }

  /** The band a value falls in, defined arithmetically: two slider values per band. */
  function Band(v: int): (b: nat)
    ensures b < 5
  {
    if v <= 2 then 0 else if v >= 9 then 4 else (v - 1) / 2
  }

  /** Label and icon are both the value's band: they always describe the same mood. */
  lemma LabelAndIconAgree(v: int)
    ensures MoodLabel(v) == Labels[Band(v)]
    ensures MoodIcon(v) == Icons[Band(v)]
  {
  }

  /** A higher value never gets a lower-ranked label. */
  lemma LabelMonotone(a: int, b: int)
    requires a <= b
    ensures Band(a) <= Band(b)
    ensures MoodLabel(a) == Labels[Band(a)] && MoodLabel(b) == Labels[Band(b)]
  {
  }

  /** On the slider's domain each label names exactly two values. */
  lemma EachLabelTwoValues(k: nat)
    requires k < |Labels|
    ensures (set v | SliderMin <= v <= SliderMax && MoodLabel(v) == Labels[k]) == {2 * k + 1, 2 * k + 2}
  {
    var s := set v | SliderMin <= v <= SliderMax && MoodLabel(v) == Labels[k];
    forall v | v in s ensures v == 2 * k + 1 || v == 2 * k + 2 {
      LabelAndIconAgree(v);
    }
    LabelAndIconAgree(2 * k + 1);
    LabelAndIconAgree(2 * k + 2);
  }

  /** The screen opens on "Okay" with the cloud icon. */
  lemma InitialDescription()
    ensures MoodLabel(InitialMood) == "Okay" && MoodIcon(InitialMood) == "cloud"
  {
  }

  /** `handleContinue`: the baseline is not saved yet; on to the goals screen. */
  function Continue(mood: int): (p: Press<int>)
    ensures p.write.None?
    ensures p == Skip(mood)
  {
    Press(None, Push("/onboarding/goals"))
  }

  /** `handleSkip`: on to the goals screen without saving. */
  function Skip(mood: int): (p: Press<int>)
    ensures p.write.None?
    ensures p.next.Push? && p.next.route == "/onboarding/goals"
  {
    Press(None, Push("/onboarding/goals"))
  }

  /** `handleBack`: leave the screen, discarding the value. */
  function Back(mood: int): (p: Press<int>)
    ensures p.write.None? && p.next == Pop
  {
    Press(None, Pop)
  }

  /** Whichever button is pressed, the chosen value is not saved: the
      profile's `moodBaseline` keeps whatever it had. */
  lemma ValueNeverSaved(u: UserStore.UserState, mood: int, writeOk: bool)
    ensures Perform(u, Continue(mood), writeOk) == u
    ensures Perform(u, Skip(mood), writeOk) == u
    ensures Perform(u, Back(mood), writeOk) == u
    ensures Continue(mood).next == Skip(mood).next == Push("/onboarding/goals")
  {
  }
}
