/** What the onboarding screens share: where a button press leads, and the
    profile update it awaits first. */
module Onboarding {
  import opened Wrappers
  import opened Profile
  import opened UserStore

  /** Where a press leaves the user: on this screen in a new state, on a
      pushed route, or back on the previous screen. */
  datatype Nav<S> = At(state: S) | Push(route: string) | Pop

  /** One press: the `updateUser` call it awaits (if any), then the navigation. */
  datatype Press<S> = Press(write: Option<Patch>, next: Nav<S>)

  /** The press updates exactly the one profile field `f`. */
  predicate WritesOnly<S>(p: Press<S>, f: Field) {
    p.write.Some? && forall g :: Lookup(p.write.value, g).Some? <==> g == f
  }

  /** Run a press's update through the user store. `updateUser` catches its
      own failures, so the navigation never depends on the write outcome. */
  function Perform<S>(u: UserState, p: Press<S>, writeOk: bool): (r: UserState)
    ensures r.loading == u.loading
    ensures forall f :: Get(r.user, f) == (if p.write.Some? then Lookup(p.write.value, f).GetOr(Get(u.user, f)) else Get(u.user, f))
  {
    if p.write.Some? then UpdateUser(u, p.write.value, writeOk).0 else u
  }

  /** A press that writes only `f` leaves every other profile field as it was. */
  lemma PerformWritesOnly<S>(u: UserState, p: Press<S>, f: Field, writeOk: bool)
    requires WritesOnly(p, f)
    ensures forall g :: g != f ==> Get(Perform(u, p, writeOk).user, g) == Get(u.user, g)
    ensures Get(Perform(u, p, writeOk).user, f) == Lookup(p.write.value, f).value
  {
  }
}
