/** The user profile store: the profile in memory, a `loading` flag, and the
    JSON document under `userProfile`. */
module UserStore {
  import opened Profile
  import opened Storage

  datatype UserState = UserState(user: UserProfile, loading: bool, storage: KeyValue)

  /** The provider mounts with the default profile and `loading` set. */
  function Init(storage: KeyValue): (s: UserState)
    ensures s.user == DefaultProfile && s.loading && s.storage == storage
  {
    UserState(DefaultProfile, true, storage)
  }

  /** `loadUser`: a stored profile is spread over the defaults; a missing or
      unreadable one keeps memory; in every case `loading` ends false. */
  function LoadUser(s: UserState, readOk: bool): (r: UserState)
    ensures !r.loading && r.storage == s.storage
    ensures (readOk && ProfileKey in s.storage && s.storage[ProfileKey].ProfileDoc?) ==>
      forall f :: Get(r.user, f) == Lookup(s.storage[ProfileKey].fields, f).GetOr(Get(DefaultProfile, f))
    ensures !(readOk && ProfileKey in s.storage && s.storage[ProfileKey].ProfileDoc?) ==> r.user == s.user
  {
    if readOk && ProfileKey in s.storage && s.storage[ProfileKey].ProfileDoc? then
      UserState(Merge(DefaultProfile, s.storage[ProfileKey].fields), false, s.storage)
    else UserState(s.user, false, s.storage)
  }

  /** `updateUser(updates)`: the merged profile goes to memory, then the whole
      profile is written; a failed write is logged and memory keeps the merge. */
  function UpdateUser(s: UserState, u: Patch, writeOk: bool): (r: (UserState, Outcome))
    ensures forall f :: Get(r.0.user, f) == Lookup(u, f).GetOr(Get(s.user, f))
    ensures r.0.loading == s.loading
    ensures OnlyKeyChanged(s.storage, r.0.storage, ProfileKey)
    ensures writeOk ==> r.0.storage == s.storage[ProfileKey := ProfileDoc(Full(r.0.user))] && r.1 == Done
    ensures !writeOk ==> r.0.storage == s.storage && r.1 == Logged
  {
    var newUser := Merge(s.user, u);
    var (st, out) := Persist(newUser, s.storage, ProfileKey, ProfileDoc(Full(newUser)), writeOk, CatchAndLog);
    (UserState(st.mem, s.loading, st.storage), out)
  }

  /** `resetUser`: memory goes back to the defaults, then `userProfile` and
      `onboardingCompleted` are removed in turn; the first failure is logged
      and stops the sequence. */
  function ResetUser(s: UserState, removeProfileOk: bool, removeOnboardingOk: bool): (r: (UserState, Outcome))
    ensures r.0.user == DefaultProfile && r.0.loading == s.loading
    ensures r.0.storage - {ProfileKey, OnboardingKey} == s.storage - {ProfileKey, OnboardingKey}
    ensures removeProfileOk ==> ProfileKey !in r.0.storage
    ensures removeProfileOk && removeOnboardingOk ==> OnboardingKey !in r.0.storage && r.1 == Done
    ensures removeProfileOk && !removeOnboardingOk ==> r.0.storage == s.storage - {ProfileKey} && r.1 == Logged
    ensures !removeProfileOk ==> r.0.storage == s.storage && r.1 == Logged
  {
    var (st, out) := Erase(DefaultProfile, s.storage, ProfileKey, removeProfileOk, CatchAndLog);
    if out != Done then (UserState(st.mem, s.loading, st.storage), out)
    else
      var (st2, out2) := Erase(DefaultProfile, st.storage, OnboardingKey, removeOnboardingOk, CatchAndLog);
      (UserState(st2.mem, s.loading, st2.storage), out2)
  }

  /** After a successful update, a restart reloads exactly the merged profile:
      the stored document is complete, so the defaults contribute nothing. */
  lemma ReloadAfterUpdate(s: UserState, u: Patch)
    ensures var r := UpdateUser(s, u, true).0;
      LoadUser(Init(r.storage), true).user == Merge(s.user, u)
  {
    var r := UpdateUser(s, u, true).0;
    MergeFull(DefaultProfile, r.user);
  }

  /** After a complete reset, a restart loads the default profile and the
      onboarding flag is gone. */
  lemma ReloadAfterReset(s: UserState)
    ensures var r := ResetUser(s, true, true).0;
      && LoadUser(Init(r.storage), true).user == DefaultProfile
      && OnboardingKey !in r.storage
  {
  }

  /** An empty update changes no field of memory. */
  lemma UpdateNothing(s: UserState, writeOk: bool)
    ensures UpdateUser(s, NoChange, writeOk).0.user == s.user
  {
    MergeNoChange(s.user);
  }

  /** Two successful updates leave memory and storage as one update with the
      combined patch would. */
  lemma UpdateTwice(s: UserState, a: Patch, b: Patch)
    ensures var once := UpdateUser(s, a, true).0;
      UpdateUser(once, b, true).0 == UpdateUser(s, Combine(a, b), true).0
  {
    MergeCombine(s.user, a, b);
  }
}
