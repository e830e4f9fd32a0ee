/** The psychographics screen: motivation sources and pain points
    (multi-select), then one tone trigger (single choice). Each valid
    Continue saves its step's answer before moving on. */
module Psychographics {
  import opened Wrappers
  import opened Seqs
  import opened Selection
  import opened Profile
  import opened Onboarding
  import UserStore

  datatype Step = SourceStep | PainPointsStep | TriggersStep

  datatype Form = Form(step: Step, source: seq<string>, painPoints: seq<string>, trigger: string)

  const Start := Form(SourceStep, [], [], "")
  const NextRoute := "/onboarding/commitment"

  /** `isStepValid`. */
  predicate StepValid(f: Form) {
    match f.step
    case SourceStep => |f.source| > 0
    case PainPointsStep => |f.painPoints| > 0
    case TriggersStep => |f.trigger| > 0
  }

  /** Tapping an option on a multi-select step toggles it; on the trigger
      step it replaces the choice. */
  function Select(f: Form, item: string): (r: Form)
    ensures r.step == f.step
    ensures f.step == SourceStep ==> r == f.(source := Toggle(f.source, item))
    ensures f.step == PainPointsStep ==> r == f.(painPoints := Toggle(f.painPoints, item))
    ensures f.step == TriggersStep ==> r == f.(trigger := item)
  {
    match f.step
    case SourceStep => f.(source := Toggle(f.source, item))
    case PainPointsStep => f.(painPoints := Toggle(f.painPoints, item))
    case TriggersStep => f.(trigger := item)
  }

  /** `handleContinue`: on a valid step, save that step's answer and move on;
      on an invalid step, nothing. */
  function Continue(f: Form): (p: Press<Form>)
    ensures !StepValid(f) ==> p == Press(None, At(f))
    ensures StepValid(f) && f.step == SourceStep ==>
      WritesOnly(p, MotivationSources) && p.write.value.motivationSources == Some(f.source)
      && p.next == At(f.(step := PainPointsStep))
    ensures StepValid(f) && f.step == PainPointsStep ==>
      WritesOnly(p, PainPoints) && p.write.value.painPoints == Some(f.painPoints)
      && p.next == At(f.(step := TriggersStep))
    ensures StepValid(f) && f.step == TriggersStep ==>
      WritesOnly(p, ToneTriggers) && p.write.value.toneTriggers == Some([f.trigger])
      && p.next == Push(NextRoute)
  {
    if !StepValid(f) then Press(None, At(f))
    else match f.step
      case SourceStep => Press(Some(NoChange.(motivationSources := Some(f.source))), At(f.(step := PainPointsStep)))
      case PainPointsStep => Press(Some(NoChange.(painPoints := Some(f.painPoints))), At(f.(step := TriggersStep)))
      case TriggersStep => Press(Some(NoChange.(toneTriggers := Some([f.trigger]))), Push(NextRoute))
  }

  /** `handleSkip`: the same path as a valid Continue, with nothing saved,
      whether or not the step is valid. */
  function Skip(f: Form): (p: Press<Form>)
    ensures p.write.None?
    ensures StepValid(f) ==> p.next == Continue(f).next
    ensures f.step == SourceStep ==> p.next == At(f.(step := PainPointsStep))
    ensures f.step == PainPointsStep ==> p.next == At(f.(step := TriggersStep))
    ensures f.step == TriggersStep ==> p.next == Push(NextRoute)
  {
    match f.step
    case SourceStep => Press(None, At(f.(step := PainPointsStep)))
    case PainPointsStep => Press(None, At(f.(step := TriggersStep)))
    case TriggersStep => Press(None, Push(NextRoute))
  }

  /** `handleBack`: triggers to pain points to source, and off the screen from source. */
  function Back(f: Form): (p: Press<Form>)
    ensures p.write.None?
    ensures f.step == SourceStep <==> p.next == Pop
    ensures f.step != SourceStep ==> p.next.At? && Skip(p.next.state).next == At(f)
  {
    match f.step
    case TriggersStep => Press(None, At(f.(step := PainPointsStep)))
    case PainPointsStep => Press(None, At(f.(step := SourceStep)))
    case SourceStep => Press(None, Pop)
  }

  /** Whatever the store's write outcome, the tone triggers reach the profile
      as a one-element list, and the other fields are untouched. */
  lemma TriggerSavedAsSingleton(u: UserStore.UserState, f: Form, writeOk: bool)
    requires f.step == TriggersStep && StepValid(f)
    ensures Perform(u, Continue(f), writeOk).user.toneTriggers == [f.trigger]
    ensures forall g :: g != ToneTriggers ==> Get(Perform(u, Continue(f), writeOk).user, g) == Get(u.user, g)
  {
    PerformWritesOnly(u, Continue(f), ToneTriggers, writeOk);
    assert Get(Perform(u, Continue(f), writeOk).user, ToneTriggers) == Strs([f.trigger]);
  }

  /** Selecting an absent option twice restores the step's list exactly, and
      the lists stay free of duplicates. */
  lemma SelectTwice(f: Form, item: string)
    requires f.step != TriggersStep
    ensures f.step == SourceStep && item !in f.source ==> Select(Select(f, item), item) == f
    ensures f.step == PainPointsStep && item !in f.painPoints ==> Select(Select(f, item), item) == f
    ensures NoDup(f.source) && NoDup(f.painPoints) ==>
      NoDup(Select(f, item).source) && NoDup(Select(f, item).painPoints)
  {
    if f.step == SourceStep && item !in f.source {
      ToggleTwiceAbsent(f.source, item);
    }
    if f.step == PainPointsStep && item !in f.painPoints {
      ToggleTwiceAbsent(f.painPoints, item);
    }
  }
}
