/** The demographics screen: name, age range and gender, one step each.
    The answers stay on the screen; no profile field is written. */
module Demographics {
  import opened Wrappers
  import opened Text
  import opened Onboarding
  import UserStore

  datatype Step = NameStep | AgeStep | GenderStep

  datatype Form = Form(step: Step, name: string, ageRange: string, gender: string)

  const Start := Form(NameStep, "", "", "")
  const NextRoute := "/onboarding/psychographics"

  /** `isStepValid`: a visible name, or a chosen option. */
  predicate StepValid(f: Form) {
    match f.step
    case NameStep => |Trim(f.name)| > 0
    case AgeStep => |f.ageRange| > 0
    case GenderStep => |f.gender| > 0
  }

  /** The step after `s`, or `None` past the last one. */
  function NextStep(s: Step): Option<Step> {
    match s
    case NameStep => Some(AgeStep)
    case AgeStep => Some(GenderStep)
    case GenderStep => None
  }

  /** Where a forward move from `f` leads. */
  function Forward(f: Form): Nav<Form> {
    var n := NextStep(f.step);
    if n.Some? then At(f.(step := n.value)) else Push(NextRoute)
  }

  /** `handleContinue`: forward when the step is valid, otherwise nothing. */
  function Continue(f: Form): (p: Press<Form>)
    ensures p.write.None?
    ensures StepValid(f) ==> p.next == Skip(f).next
    ensures !StepValid(f) ==> p.next == At(f)
  {
    if StepValid(f) then Press(None, Forward(f)) else Press(None, At(f))
  }

  /** `handleSkip`: forward whatever the step's validity. */
  function Skip(f: Form): (p: Press<Form>)
    ensures p.write.None?
    ensures f.step != GenderStep ==> p.next.At? && p.next.state.step != f.step
    ensures f.step == GenderStep ==> p.next == Push(NextRoute)
  {
    Press(None, Forward(f))
  }

  /** `handleBack`: gender to age, age to name, and off the screen from name. */
  function Back(f: Form): (p: Press<Form>)
    ensures p.write.None?
    ensures f.step == NameStep <==> p.next == Pop
  {
    match f.step
    case GenderStep => Press(None, At(f.(step := AgeStep)))
    case AgeStep => Press(None, At(f.(step := NameStep)))
    case NameStep => Press(None, Pop)
  }

  /** The name step is valid exactly when the name has a non-whitespace character. */
  lemma NameStepValid(f: Form)
    requires f.step == NameStep
    ensures StepValid(f) <==> HasVisible(f.name)
  {
  }

  /** Back undoes a move forward within the screen. */
  lemma BackAfterForward(f: Form)
    requires f.step != GenderStep
    ensures Skip(f).next.At? && Back(Skip(f).next.state).next == At(f)
    ensures StepValid(f) ==> Back(Continue(f).next.state).next == At(f)
  {
  }

  /** A whitespace-only name blocks Continue, while Skip passes it. */
  lemma BlankNameBlocksContinue()
    ensures Continue(Start.(name := "  ")).next == At(Start.(name := "  "))
    ensures Skip(Start.(name := "  ")).next == At(Start.(name := "  ", step := AgeStep))
  {
    assert !HasVisible("  ") by {
      assert IsWhitespace("  "[0]) && IsWhitespace("  "[1]);
    }
  }

  /** Valid answers at every step reach the next screen in three presses. */
  lemma ThreeValidPresses(name: string, ageRange: string, gender: string)
    requires HasVisible(name) && |ageRange| > 0 && |gender| > 0
    ensures var f1 := Continue(Form(NameStep, name, ageRange, gender)).next;
      && f1 == At(Form(AgeStep, name, ageRange, gender))
      && Continue(f1.state).next == At(Form(GenderStep, name, ageRange, gender))
      && Continue(Form(GenderStep, name, ageRange, gender)).next == Push(NextRoute)
  {
  }

  /** No press on this screen changes the profile. */
  lemma NothingSaved(u: UserStore.UserState, f: Form, writeOk: bool)
    ensures Perform(u, Continue(f), writeOk) == u
    ensures Perform(u, Skip(f), writeOk) == u
    ensures Perform(u, Back(f), writeOk) == u
  {
  }
}
