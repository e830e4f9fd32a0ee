/** The check-in topics screen: a multi-select over a fixed topic list whose
    selection travels to the next screen as one comma-joined route parameter. */
module Topics {
  import opened Wrappers
  import opened Seqs
  import opened Selection
  import opened Text

  const Offered: seq<string> := [
    "Motivation", "Peace", "Love", "Focus", "Strength",
    "Gratitude", "Confidence", "Healing", "Success"]

  const Separator := ','

  /** The screen's selection, in the order topics were picked. */
  datatype Screen = Screen(selected: seq<string>)

  const Start := Screen([])

  /** `toggleTopic`. No maximum is enforced, whatever the prompt says. */
  function ToggleTopic(s: Screen, topic: string): (r: Screen)
    ensures topic in r.selected <==> topic !in s.selected
    ensures forall t :: t != topic ==> (t in r.selected <==> t in s.selected)
    ensures NoDup(s.selected) ==> NoDup(r.selected)
    ensures topic !in s.selected ==> r.selected == s.selected + [topic]
    ensures topic in s.selected ==> r.selected == Without(s.selected, topic)
  {
    var r := Toggle(s.selected, topic);
    assert forall t :: t != topic ==> (t in r <==> t in s.selected) by {
      forall t | t != topic ensures t in r <==> t in s.selected {
        if t in s.selected { var k :| 0 <= k < |s.selected| && s.selected[k] == t; }
        if t in r { var k :| 0 <= k < |r| && r[k] == t; }
      }
    }
    Screen(r)
  }

  /** `handleNext` behind the button's `disabled` flag: the joined topics
      parameter, or nothing while the selection is empty. */
  function Next(s: Screen): (r: Option<string>)
    ensures r.None? <==> |s.selected| == 0
    ensures r.Some? ==> r.value == Join(s.selected, Separator)
  {
    if |s.selected| == 0 then None else Some(Join(s.selected, Separator))
  }

  /** The result screen's `(topics as string)?.split(',') || []`. */
  function ParseTopics(param: Option<string>): (r: seq<string>)
    ensures param.None? ==> r == []
    ensures param.Some? ==> |r| >= 1 && Join(r, Separator) == param.value
  {
    if param.None? then [] else Split(param.value, Separator)
  }

  /** Every offered topic is free of the separator. */
  lemma OfferedCommaFree()
    ensures forall k :: 0 <= k < |Offered| ==> Separator !in Offered[k]
  {
  }

  /** A selection made from offered topics stays within them and duplicate-free. */
  predicate Reachable(s: Screen) {
    NoDup(s.selected) && forall k :: 0 <= k < |s.selected| ==> s.selected[k] in Offered
  }

  lemma ToggleKeepsReachable(s: Screen, k: nat)
    requires Reachable(s) && k < |Offered|
    ensures Reachable(ToggleTopic(s, Offered[k]))
  {
    var r := ToggleTopic(s, Offered[k]);
    forall i | 0 <= i < |r.selected| ensures r.selected[i] in Offered {
      var t := r.selected[i];
      if t != Offered[k] { assert t in s.selected; }
    }
  }

  /** The next screen recovers exactly the selection from the parameter. */
  lemma TopicsRoundTrip(s: Screen)
    requires Reachable(s) && |s.selected| > 0
    ensures ParseTopics(Next(s)) == s.selected
  {
    OfferedCommaFree();
    forall k | 0 <= k < |s.selected| ensures Separator !in s.selected[k] {
      var i :| 0 <= i < |Offered| && Offered[i] == s.selected[k];
    }
    SplitJoin(s.selected, Separator);
  }

  /** Four topics can be selected and sent on, despite the "up to 3" prompt. */
  lemma NoSelectionLimit()
    ensures var s := ToggleTopic(ToggleTopic(ToggleTopic(ToggleTopic(Start, "Peace"), "Love"), "Focus"), "Success");
      |s.selected| == 4 && Next(s).Some?
  {
    var s1 := ToggleTopic(Start, "Peace");
    assert s1.selected == ["Peace"];
    var s2 := ToggleTopic(s1, "Love");
    assert "Love" !in s1.selected;
    assert s2.selected == ["Peace", "Love"];
    var s3 := ToggleTopic(s2, "Focus");
    assert "Focus" !in s2.selected;
    assert s3.selected == ["Peace", "Love", "Focus"];
    var s4 := ToggleTopic(s3, "Success");
    assert "Success" !in s3.selected;
  }
}
