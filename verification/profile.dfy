/** The user profile record, its default value, and the partial update
    (`Partial<UserProfile>`) that `updateUser` spreads over it. */
module Profile {
  import opened Wrappers

  /** The sixteen declared fields, plus `dailyFocusId`: the focus picker writes
      that key through `updateUser` although the declared record has no such
      field, so it is modelled here as an optional seventeenth field that the
      default profile leaves absent. */
  datatype UserProfile = UserProfile(
    name: string,
    age: string,
    gender: string,
    motivationSources: seq<string>,
    painPoints: seq<string>,
    toneTriggers: seq<string>,
    pledgeSigned: bool,
    alarmTime: Option<string>,
    notificationsEnabled: bool,
    notificationFrequency: string,
    appIcon: string,
    wellnessFocus: seq<string>,
    wellnessObstacles: seq<string>,
    moodBaseline: int,
    goals: seq<string>,
    customGoal: string,
    dailyFocusId: Option<string>)

  const DefaultProfile := UserProfile(
    "Traveler", "", "", [], [], [], false, None, false, "5", "classic",
    [], [], 5, [], "", None)

  /** A partial profile: `Some(v)` for each key present in the update object. */
  datatype Patch = Patch(
    name: Option<string>,
    age: Option<string>,
    gender: Option<string>,
    motivationSources: Option<seq<string>>,
    painPoints: Option<seq<string>>,
    toneTriggers: Option<seq<string>>,
    pledgeSigned: Option<bool>,
    alarmTime: Option<Option<string>>,
    notificationsEnabled: Option<bool>,
    notificationFrequency: Option<string>,
    appIcon: Option<string>,
    wellnessFocus: Option<seq<string>>,
    wellnessObstacles: Option<seq<string>>,
    moodBaseline: Option<int>,
    goals: Option<seq<string>>,
    customGoal: Option<string>,
    dailyFocusId: Option<Option<string>>)

  /** The update object `{}`. */
  const NoChange := Patch(
    None, None, None, None, None, None, None, None, None, None, None,
    None, None, None, None, None, None)

  datatype Field =
    | Name | Age | Gender | MotivationSources | PainPoints | ToneTriggers
    | PledgeSigned | AlarmTime | NotificationsEnabled | NotificationFrequency
    | AppIcon | WellnessFocus | WellnessObstacles | MoodBaseline | Goals
    | CustomGoal | DailyFocusId

  const AllFields: seq<Field> := [
    Name, Age, Gender, MotivationSources, PainPoints, ToneTriggers,
    PledgeSigned, AlarmTime, NotificationsEnabled, NotificationFrequency,
    AppIcon, WellnessFocus, WellnessObstacles, MoodBaseline, Goals,
    CustomGoal, DailyFocusId]

  /** A field's value, tagged by its JSON shape. */
  datatype FieldValue =
    | Str(s: string)
    | Strs(ss: seq<string>)
    | Flag(b: bool)
    | Num(n: int)
    | NullableStr(o: Option<string>)

  function Get(p: UserProfile, f: Field): FieldValue {
    match f
    case Name => Str(p.name)
    case Age => Str(p.age)
    case Gender => Str(p.gender)
    case MotivationSources => Strs(p.motivationSources)
    case PainPoints => Strs(p.painPoints)
    case ToneTriggers => Strs(p.toneTriggers)
    case PledgeSigned => Flag(p.pledgeSigned)
    case AlarmTime => NullableStr(p.alarmTime)
    case NotificationsEnabled => Flag(p.notificationsEnabled)
    case NotificationFrequency => Str(p.notificationFrequency)
    case AppIcon => Str(p.appIcon)
    case WellnessFocus => Strs(p.wellnessFocus)
    case WellnessObstacles => Strs(p.wellnessObstacles)
    case MoodBaseline => Num(p.moodBaseline)
    case Goals => Strs(p.goals)
    case CustomGoal => Str(p.customGoal)
    case DailyFocusId => NullableStr(p.dailyFocusId)
  }

  function TagStr(o: Option<string>): Option<FieldValue> {
    if o.Some? then Some(Str(o.value)) else None
  }

  function TagStrs(o: Option<seq<string>>): Option<FieldValue> {
    if o.Some? then Some(Strs(o.value)) else None
  }

  function TagFlag(o: Option<bool>): Option<FieldValue> {
    if o.Some? then Some(Flag(o.value)) else None
  }

  function TagNum(o: Option<int>): Option<FieldValue> {
    if o.Some? then Some(Num(o.value)) else None
  }

  function TagNullable(o: Option<Option<string>>): Option<FieldValue> {
    if o.Some? then Some(NullableStr(o.value)) else None
  }

  /** The value a patch gives a field, if the field is present in it. */
  function Lookup(u: Patch, f: Field): Option<FieldValue> {
    match f
    case Name => TagStr(u.name)
    case Age => TagStr(u.age)
    case Gender => TagStr(u.gender)
    case MotivationSources => TagStrs(u.motivationSources)
    case PainPoints => TagStrs(u.painPoints)
    case ToneTriggers => TagStrs(u.toneTriggers)
    case PledgeSigned => TagFlag(u.pledgeSigned)
    case AlarmTime => TagNullable(u.alarmTime)
    case NotificationsEnabled => TagFlag(u.notificationsEnabled)
    case NotificationFrequency => TagStr(u.notificationFrequency)
    case AppIcon => TagStr(u.appIcon)
    case WellnessFocus => TagStrs(u.wellnessFocus)
    case WellnessObstacles => TagStrs(u.wellnessObstacles)
    case MoodBaseline => TagNum(u.moodBaseline)
    case Goals => TagStrs(u.goals)
    case CustomGoal => TagStr(u.customGoal)
    case DailyFocusId => TagNullable(u.dailyFocusId)
  }

  /** The keys present in a patch. */
  function Fields(u: Patch): set<Field> {
    set f | f in AllFields && Lookup(u, f).Some?
  }

  lemma AllFieldsComplete(f: Field)
    ensures f in AllFields
  {
  }

  /** Two profiles that agree on every field are the same profile. */
  lemma ProfileExtensionality(a: UserProfile, b: UserProfile)
    requires forall f :: Get(a, f) == Get(b, f)
    ensures a == b
  {
    assert a.name == b.name by { assert Get(a, Name) == Get(b, Name); }
    assert a.age == b.age by { assert Get(a, Age) == Get(b, Age); }
    assert a.gender == b.gender by { assert Get(a, Gender) == Get(b, Gender); }
    assert a.motivationSources == b.motivationSources by { assert Get(a, MotivationSources) == Get(b, MotivationSources); }
    assert a.painPoints == b.painPoints by { assert Get(a, PainPoints) == Get(b, PainPoints); }
    assert a.toneTriggers == b.toneTriggers by { assert Get(a, ToneTriggers) == Get(b, ToneTriggers); }
    assert a.pledgeSigned == b.pledgeSigned by { assert Get(a, PledgeSigned) == Get(b, PledgeSigned); }
    assert a.alarmTime == b.alarmTime by { assert Get(a, AlarmTime) == Get(b, AlarmTime); }
    assert a.notificationsEnabled == b.notificationsEnabled by { assert Get(a, NotificationsEnabled) == Get(b, NotificationsEnabled); }
    assert a.notificationFrequency == b.notificationFrequency by { assert Get(a, NotificationFrequency) == Get(b, NotificationFrequency); }
    assert a.appIcon == b.appIcon by { assert Get(a, AppIcon) == Get(b, AppIcon); }
    assert a.wellnessFocus == b.wellnessFocus by { assert Get(a, WellnessFocus) == Get(b, WellnessFocus); }
    assert a.wellnessObstacles == b.wellnessObstacles by { assert Get(a, WellnessObstacles) == Get(b, WellnessObstacles); }
    assert a.moodBaseline == b.moodBaseline by { assert Get(a, MoodBaseline) == Get(b, MoodBaseline); }
    assert a.goals == b.goals by { assert Get(a, Goals) == Get(b, Goals); }
    assert a.customGoal == b.customGoal by { assert Get(a, CustomGoal) == Get(b, CustomGoal); }
    assert a.dailyFocusId == b.dailyFocusId by { assert Get(a, DailyFocusId) == Get(b, DailyFocusId); }
  }

  /** `{ ...p, ...u }`: a shallow merge in which the patch's keys win. */
  function Merge(p: UserProfile, u: Patch): (r: UserProfile)
    ensures forall f :: Lookup(u, f).Some? ==> Get(r, f) == Lookup(u, f).value
    ensures forall f :: Lookup(u, f).None? ==> Get(r, f) == Get(p, f)
  {
    UserProfile(
      u.name.GetOr(p.name),
      u.age.GetOr(p.age),
      u.gender.GetOr(p.gender),
      u.motivationSources.GetOr(p.motivationSources),
      u.painPoints.GetOr(p.painPoints),
      u.toneTriggers.GetOr(p.toneTriggers),
      u.pledgeSigned.GetOr(p.pledgeSigned),
      u.alarmTime.GetOr(p.alarmTime),
      u.notificationsEnabled.GetOr(p.notificationsEnabled),
      u.notificationFrequency.GetOr(p.notificationFrequency),
      u.appIcon.GetOr(p.appIcon),
      u.wellnessFocus.GetOr(p.wellnessFocus),
      u.wellnessObstacles.GetOr(p.wellnessObstacles),
      u.moodBaseline.GetOr(p.moodBaseline),
      u.goals.GetOr(p.goals),
      u.customGoal.GetOr(p.customGoal),
      u.dailyFocusId.GetOr(p.dailyFocusId))
  }

  /** Keys of the later patch win over those of the earlier one
      (`{ ...a, ...b }` on update objects). */
  function Combine(a: Patch, b: Patch): Patch {
    Patch(
      if b.name.Some? then b.name else a.name,
      if b.age.Some? then b.age else a.age,
      if b.gender.Some? then b.gender else a.gender,
      if b.motivationSources.Some? then b.motivationSources else a.motivationSources,
      if b.painPoints.Some? then b.painPoints else a.painPoints,
      if b.toneTriggers.Some? then b.toneTriggers else a.toneTriggers,
      if b.pledgeSigned.Some? then b.pledgeSigned else a.pledgeSigned,
      if b.alarmTime.Some? then b.alarmTime else a.alarmTime,
      if b.notificationsEnabled.Some? then b.notificationsEnabled else a.notificationsEnabled,
      if b.notificationFrequency.Some? then b.notificationFrequency else a.notificationFrequency,
      if b.appIcon.Some? then b.appIcon else a.appIcon,
      if b.wellnessFocus.Some? then b.wellnessFocus else a.wellnessFocus,
      if b.wellnessObstacles.Some? then b.wellnessObstacles else a.wellnessObstacles,
      if b.moodBaseline.Some? then b.moodBaseline else a.moodBaseline,
      if b.goals.Some? then b.goals else a.goals,
      if b.customGoal.Some? then b.customGoal else a.customGoal,
      if b.dailyFocusId.Some? then b.dailyFocusId else a.dailyFocusId)
  }

  lemma CombineLaterWins(a: Patch, b: Patch, f: Field)
    ensures Lookup(Combine(a, b), f) == (if Lookup(b, f).Some? then Lookup(b, f) else Lookup(a, f))
  {
    match f
    case Name =>
    case Age =>
    case Gender =>
    case MotivationSources =>
    case PainPoints =>
    case ToneTriggers =>
    case PledgeSigned =>
    case AlarmTime =>
    case NotificationsEnabled =>
    case NotificationFrequency =>
    case AppIcon =>
    case WellnessFocus =>
    case WellnessObstacles =>
    case MoodBaseline =>
    case Goals =>
    case CustomGoal =>
    case DailyFocusId =>
  }

  /** The whole profile as an update object: what `JSON.stringify(newUser)` stores. */
  function Full(p: UserProfile): (u: Patch)
    ensures forall f :: Lookup(u, f) == Some(Get(p, f))
  {
    Patch(
      Some(p.name), Some(p.age), Some(p.gender), Some(p.motivationSources),
      Some(p.painPoints), Some(p.toneTriggers), Some(p.pledgeSigned),
      Some(p.alarmTime), Some(p.notificationsEnabled), Some(p.notificationFrequency),
      Some(p.appIcon), Some(p.wellnessFocus), Some(p.wellnessObstacles),
      Some(p.moodBaseline), Some(p.goals), Some(p.customGoal), Some(p.dailyFocusId))
  }

  /** An empty update is the identity. */
  lemma MergeNoChange(p: UserProfile)
    ensures Merge(p, NoChange) == p
  {
    ProfileExtensionality(Merge(p, NoChange), p);
  }

  /** Applying the same update twice is the same as applying it once. */
  lemma MergeIdempotent(p: UserProfile, u: Patch)
    ensures Merge(Merge(p, u), u) == Merge(p, u)
  {
    ProfileExtensionality(Merge(Merge(p, u), u), Merge(p, u));
  }

  /** Two successive updates equal one update with the combined patch. */
  lemma MergeCombine(p: UserProfile, a: Patch, b: Patch)
    ensures Merge(Merge(p, a), b) == Merge(p, Combine(a, b))
  {
  }

  /** Spreading a complete stored profile over anything yields that profile. */
  lemma MergeFull(base: UserProfile, p: UserProfile)
    ensures Merge(base, Full(p)) == p
  {
    ProfileExtensionality(Merge(base, Full(p)), p);
  }
}
