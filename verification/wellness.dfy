/** The wellness screen: focus areas, then obstacles, both multi-select by id.
    Continue saves the selection as it is (an empty one included); Skip saves
    an empty list. */
module Wellness {
  import opened Wrappers
  import opened Seqs
  import opened Selection
  import opened Profile
  import opened Onboarding
  import UserStore

  datatype Step = FocusStep | ObstaclesStep

  datatype Form = Form(step: Step, focus: seq<string>, obstacles: seq<string>)

  const Start := Form(FocusStep, [], [])
  const NextRoute := "/onboarding/mood-baseline"

  /** Tapping an option toggles its id in the current step's list. */
  function Select(f: Form, id: string): (r: Form)
    ensures r.step == f.step
    ensures f.step == FocusStep ==> r.obstacles == f.obstacles && (id in r.focus <==> id !in f.focus)
    ensures f.step == ObstaclesStep ==> r.focus == f.focus && (id in r.obstacles <==> id !in f.obstacles)
    ensures f.step == FocusStep ==> r == f.(focus := Toggle(f.focus, id))
    ensures f.step == ObstaclesStep ==> r == f.(obstacles := Toggle(f.obstacles, id))
    ensures NoDup(f.focus) && NoDup(f.obstacles) ==> NoDup(r.focus) && NoDup(r.obstacles)
  {
    match f.step
    case FocusStep => f.(focus := Toggle(f.focus, id))
    case ObstaclesStep => f.(obstacles := Toggle(f.obstacles, id))
  }

  /** Selecting an absent option twice restores the step's list exactly;
      selecting a present one drops it and keeps every other selected id. */
  lemma SelectTwice(f: Form, id: string)
    ensures f.step == FocusStep && id !in f.focus ==> Select(Select(f, id), id) == f
    ensures f.step == ObstaclesStep && id !in f.obstacles ==> Select(Select(f, id), id) == f
    ensures f.step == FocusStep && id in f.focus ==>
      forall x :: x in f.focus && x != id ==> x in Select(f, id).focus
    ensures f.step == ObstaclesStep && id in f.obstacles ==>
      forall x :: x in f.obstacles && x != id ==> x in Select(f, id).obstacles
  {
    if f.step == FocusStep && id !in f.focus {
      ToggleTwiceAbsent(f.focus, id);
    }
    if f.step == ObstaclesStep && id !in f.obstacles {
      ToggleTwiceAbsent(f.obstacles, id);
    }
  }

  /** Save `list` to the step's field, then advance or leave. */
  function SaveAndAdvance(f: Form, list: seq<string>): Press<Form> {
    match f.step
    case FocusStep => Press(Some(NoChange.(wellnessFocus := Some(list))), At(f.(step := ObstaclesStep)))
    case ObstaclesStep => Press(Some(NoChange.(wellnessObstacles := Some(list))), Push(NextRoute))
  }

  /** `handleContinue`: no validity gate. */
  function Continue(f: Form): (p: Press<Form>)
    ensures f.step == FocusStep ==>
      WritesOnly(p, WellnessFocus) && p.write.value.wellnessFocus == Some(f.focus)
      && p.next == At(f.(step := ObstaclesStep))
    ensures f.step == ObstaclesStep ==>
      WritesOnly(p, WellnessObstacles) && p.write.value.wellnessObstacles == Some(f.obstacles)
      && p.next == Push(NextRoute)
  {
    SaveAndAdvance(f, if f.step == FocusStep then f.focus else f.obstacles)
  }

  /** `handleSkip`: an empty list to the step's field, then the same move. */
  function Skip(f: Form): (p: Press<Form>)
    ensures p.next == Continue(f).next
    ensures f.step == FocusStep ==> WritesOnly(p, WellnessFocus) && p.write.value.wellnessFocus == Some([])
    ensures f.step == ObstaclesStep ==> WritesOnly(p, WellnessObstacles) && p.write.value.wellnessObstacles == Some([])
  {
    SaveAndAdvance(f, [])
  }

  /** `handleBack`: obstacles to focus, off the screen from focus. */
  function Back(f: Form): (p: Press<Form>)
    ensures p.write.None?
    ensures f.step == FocusStep <==> p.next == Pop
    ensures f.step == ObstaclesStep ==> p.next == At(f.(step := FocusStep))
  {
    match f.step
    case ObstaclesStep => Press(None, At(f.(step := FocusStep)))
    case FocusStep => Press(None, Pop)
  }

  /** With nothing selected, Continue and Skip are the same press. */
  lemma EmptySelectionSkips(f: Form)
    requires f.step == FocusStep ==> f.focus == []
    requires f.step == ObstaclesStep ==> f.obstacles == []
    ensures Continue(f) == Skip(f)
  {
  }

  /** Continue at focus saves exactly the selection, touching no other field. */
  lemma FocusSaved(u: UserStore.UserState, f: Form, writeOk: bool)
    requires f.step == FocusStep
    ensures Perform(u, Continue(f), writeOk).user.wellnessFocus == f.focus
    ensures forall g :: g != WellnessFocus ==> Get(Perform(u, Continue(f), writeOk).user, g) == Get(u.user, g)
  {
    PerformWritesOnly(u, Continue(f), WellnessFocus, writeOk);
    assert Get(Perform(u, Continue(f), writeOk).user, WellnessFocus) == Strs(f.focus);
  }
}
