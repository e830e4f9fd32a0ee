/** The commitment screen: a pledge signed by holding a button, then an
    optional daily reminder. The two-second hold is one `HoldCompleted`
    event; releasing early changes nothing. */
module Commitment {
  import opened Wrappers
  import opened Profile
  import opened Onboarding
  import UserStore

  datatype Step = ContractStep | AlarmStep

  /** `alarmTime` is the reminder time as the ISO string `toISOString()` gives. */
  datatype Form = Form(step: Step, signed: bool, alarmTime: string, alarmEnabled: bool)

  /** The screen opens unsigned, with the reminder on at the time it opened. */
  function Start(now: string): Form {
    Form(ContractStep, false, now, true)
  }

  const NextRoute := "/onboarding/notifications"

  /** The hold timer fired: sign, unless already signed. */
  function HoldCompleted(f: Form): (r: Form)
    ensures r.signed && r.step == f.step && r.alarmTime == f.alarmTime && r.alarmEnabled == f.alarmEnabled
  {
    if f.signed then f else f.(signed := true)
  }

  /** The Continue button is disabled on an unsigned contract. */
  predicate ContinueEnabled(f: Form) {
    !(f.step == ContractStep && !f.signed)
  }

  /** `handleContinue`, reached only through an enabled button: at the
      contract, record the pledge; at the alarm, record the reminder time or
      null, then leave. */
  function Continue(f: Form): (p: Press<Form>)
    ensures !ContinueEnabled(f) ==> p == Press(None, At(f))
    ensures ContinueEnabled(f) && f.step == ContractStep ==>
      WritesOnly(p, PledgeSigned) && p.write.value.pledgeSigned == Some(true) && p.next == At(f.(step := AlarmStep))
    ensures f.step == AlarmStep ==>
      WritesOnly(p, AlarmTime) && p.next == Push(NextRoute)
      && p.write.value.alarmTime == Some(if f.alarmEnabled then Some(f.alarmTime) else None)
  {
    if !ContinueEnabled(f) then Press(None, At(f))
    else match f.step
      case ContractStep => Press(Some(NoChange.(pledgeSigned := Some(true))), At(f.(step := AlarmStep)))
      case AlarmStep =>
        Press(Some(NoChange.(alarmTime := Some(if f.alarmEnabled then Some(f.alarmTime) else None))), Push(NextRoute))
  }

  /** `handleSkip`: the pledge cannot be skipped; the alarm can, unsaved. */
  function Skip(f: Form): (p: Press<Form>)
    ensures p.write.None?
    ensures f.step == ContractStep ==> p.next == At(f)
    ensures f.step == AlarmStep ==> p.next == Push(NextRoute)
  {
    match f.step
    case ContractStep => Press(None, At(f))
    case AlarmStep => Press(None, Push(NextRoute))
  }

  /** `handleBack`: alarm to contract, off the screen from the contract. */
  function Back(f: Form): (p: Press<Form>)
    ensures p.write.None?
    ensures f.step == ContractStep <==> p.next == Pop
    ensures f.step == AlarmStep ==> p.next == At(f.(step := ContractStep))
  {
    match f.step
    case AlarmStep => Press(None, At(f.(step := ContractStep)))
    case ContractStep => Press(None, Pop)
  }

  /** `signed` never goes back to false: no event of the screen clears it. */
  lemma SignedIsSticky(f: Form)
    requires f.signed
    ensures HoldCompleted(f) == f
    ensures Continue(f).next.At? ==> Continue(f).next.state.signed
    ensures Skip(f).next.At? ==> Skip(f).next.state.signed
    ensures Back(f).next.At? ==> Back(f).next.state.signed
  {
  }

  /** From the opened screen, the pledge is recorded only after a completed hold. */
  lemma PledgeNeedsHold(now: string)
    ensures Continue(Start(now)).write.None?
    ensures Continue(HoldCompleted(Start(now))).write == Some(NoChange.(pledgeSigned := Some(true)))
  {
  }

  /** A disabled reminder is saved as null; skipping leaves `alarmTime` as it was. */
  lemma ReminderSaved(u: UserStore.UserState, f: Form, writeOk: bool)
    requires f.step == AlarmStep
    ensures Perform(u, Continue(f), writeOk).user.alarmTime == (if f.alarmEnabled then Some(f.alarmTime) else None)
    ensures Perform(u, Skip(f), writeOk).user == u.user
  {
    PerformWritesOnly(u, Continue(f), AlarmTime, writeOk);
    assert Get(Perform(u, Continue(f), writeOk).user, AlarmTime) == NullableStr(if f.alarmEnabled then Some(f.alarmTime) else None);
  }
}
