/** The customization screen: an app icon (saved to the profile), then a
    theme (set through the theme store, not the profile). */
module Customization {
  import opened Wrappers
  import opened Profile
  import opened Onboarding
  import opened Storage
  import ThemeStore
  import UserStore

  datatype Step = IconStep | ThemeStep

  datatype Form = Form(step: Step, selectedIcon: string)

  /** The icon ids offered, and the one selected at first. */
  const Icons: seq<string> := ["default", "dark", "gold", "neon"]
  const Start := Form(IconStep, "default")
  const NextRoute := "/onboarding/wellness"

  /** Tapping an icon tile: the choice is only held on screen until a button
      is pressed; Continue then saves it, while Skip ignores it. */
  function SelectIcon(f: Form, id: string): (r: Form)
    ensures r.step == f.step && r.selectedIcon == id
    ensures f.step == IconStep ==> Continue(r).write == Some(NoChange.(appIcon := Some(id)))
    ensures Skip(r).write == Skip(f).write
  {
    f.(selectedIcon := id)
  }

  /** `handleContinue`: save the chosen icon, then the theme step; from the
      theme step, leave. */
  function Continue(f: Form): (p: Press<Form>)
    ensures f.step == IconStep ==>
      WritesOnly(p, AppIcon) && p.write.value.appIcon == Some(f.selectedIcon) && p.next == At(f.(step := ThemeStep))
    ensures f.step == ThemeStep ==> p == Press(None, Push(NextRoute))
  {
    match f.step
    case IconStep => Press(Some(NoChange.(appIcon := Some(f.selectedIcon))), At(f.(step := ThemeStep)))
    case ThemeStep => Press(None, Push(NextRoute))
  }

  /** `handleSkip`: save the `'default'` icon whatever was chosen; from the
      theme step, leave. */
  function Skip(f: Form): (p: Press<Form>)
    ensures p.next == Continue(f).next
    ensures f.step == IconStep ==> WritesOnly(p, AppIcon) && p.write.value.appIcon == Some("default")
    ensures f.step == ThemeStep ==> p.write.None?
  {
    match f.step
    case IconStep => Press(Some(NoChange.(appIcon := Some("default"))), At(f.(step := ThemeStep)))
    case ThemeStep => Press(None, Push(NextRoute))
  }

  /** `handleBack`: theme to icon, off the screen from the icon step. */
  function Back(f: Form): (p: Press<Form>)
    ensures p.write.None?
    ensures f.step == IconStep <==> p.next == Pop
    ensures f.step == ThemeStep ==> p.next == At(f.(step := IconStep))
  {
    match f.step
    case ThemeStep => Press(None, At(f.(step := IconStep)))
    case IconStep => Press(None, Pop)
  }

  /** The theme swatches the screen offers. */
  const Swatches: seq<string> := ["dark", "light", "nature"]

  /** Tapping a theme swatch calls the theme store's `setThemeId` with the
      swatch's id. On those ids the guard as written and the corrected guard
      agree, so an id the theme table lacks is ignored and the current theme
      stays valid. */
  function ChooseTheme(t: ThemeStore.ThemeState, themes: set<string>, id: string, writeOk: bool): (r: (ThemeStore.ThemeState, Outcome))
    requires id in Swatches
    ensures r == ThemeStore.SetThemeId(t, themes, id, writeOk)
    ensures ThemeStore.Valid(t, themes) ==> ThemeStore.Valid(r.0, themes)
    ensures id !in themes ==> r.0 == t
    ensures id in themes ==> r.0.current == id
  {
    assert id !in ThemeStore.InheritedNames;
    ThemeStore.SetThemeIdAsWritten(t, themes, id, writeOk)
  }

  /** With the initial selection, Continue and Skip save the same icon,
      `'default'`, which differs from the profile default `'classic'`. */
  lemma UntouchedIconIsDefault(u: UserStore.UserState, writeOk: bool)
    ensures Continue(Start) == Skip(Start)
    ensures Perform(u, Continue(Start), writeOk).user.appIcon == "default" != DefaultProfile.appIcon
  {
    PerformWritesOnly(u, Continue(Start), AppIcon, writeOk);
    assert Get(Perform(u, Continue(Start), writeOk).user, AppIcon) == Str("default");
  }

  /** At the theme step neither button touches the profile. */
  lemma ThemeStepSavesNothing(u: UserStore.UserState, f: Form, writeOk: bool)
    requires f.step == ThemeStep
    ensures Perform(u, Continue(f), writeOk) == u && Perform(u, Skip(f), writeOk) == u
  {
  }
}
