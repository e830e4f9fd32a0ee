# novus: persisted stores, onboarding steps and backend services in Dafny

novus is a mindfulness and quotes app. Its client keeps a handful of small
stores, each an in-memory value mirrored to one key of the device's key-value
storage:

- the user profile;
- favourite quote ids;
- the recently shown quotes (history);
- journal entries;
- the theme preference;
- the authentication token.

A series of onboarding screens fill the profile one step at a time. A Spring
backend keeps users and their favourites.

This project models that core as pure functions over immutable data and
proves what each operation promises.

**Stores.** A store is a `Store<T>(mem, storage)`: the in-memory value plus a
`map<string, Doc>` standing for the device storage. Every mutation follows the
same pattern, modelled once in `Storage.Persist` and `Storage.Erase`:

1. Memory is set first.
2. The write is issued afterwards.
3. A rejected write leaves storage as it was and memory as set.

Whether a failure is caught and logged or reaches the caller depends on the
store:

- History, favourites and profile catch failures.
- Journal, theme and auth let them propagate.

Every write and read outcome is a boolean input. An operation that issues two
writes takes two flags, and the second write is never attempted after the
first one fails.

**Screens.** Each onboarding screen is a small step machine. A button press
yields a `Press`: the profile update it awaits (if any), then where it goes.
`Onboarding.Perform` runs that update through the user store.

**Backend.** Both backend repositories are sequences of rows with a search
function. The unique constraints are invariants that the operations are
proved to keep.

Files, one module each:

| file | module | models |
|---|---|---|
| wrappers.dfy | Wrappers | `Option`, `Result` |
| seqs.dfy | Seqs | `filter`, counting, subsequences |
| selection.dfy | Selection | the shared "includes ? filter : append" toggle |
| text.dfy | Text | `trim`, `split`/`join`, `Number.prototype.toString` |
| quotes.dfy | Quotes | the quote record; collections and favourites screens |
| profile.dfy | Profile | `UserProfile`, its defaults, the `{...a, ...b}` merge |
| journal_entries.dfy | JournalEntries | journal entries and moods |
| storage.dfy | Storage | storage keys and the persist pattern |
| history.dfy | HistoryStore | `HistoryContext` |
| favorites.dfy | FavoritesStore | `FavoritesContext` |
| journal.dfy | JournalStore | `JournalContext` |
| user_store.dfy | UserStore | `UserContext` |
| theme.dfy | ThemeStore | `ThemeContext` |
| auth.dfy | AuthService | `AuthService` |
| onboarding.dfy | Onboarding | navigation and presses |
| mood_baseline.dfy, demographics.dfy, psychographics.dfy, wellness.dfy, commitment.dfy, customization.dfy | one per screen | the onboarding screens |
| topics.dfy, reflection_notes.dfy | Topics, ReflectionNotes | the check-in and reflection screens |
| interaction_service.dfy, user_service.dfy | InteractionService, UserService | the backend services |

Three behaviours of the code worth knowing:

- **Write failures.** Write failures are not uniformly non-fatal. `addEntry`,
  `deleteEntry`, `setThemeId` and every `AuthService` method have no
  `try/catch`, so their failures propagate (`Raised`).
- **Unknown stored theme ids.** An unknown stored theme id does not fall back
  to a fixed default. `loadTheme` keeps the current id, which is the default
  `"dark"` only at start-up.
- **Profile validation.** The profile store validates nothing. The only
  "non-empty name" check is on the demographics screen, and that screen never
  saves the name.

## Model

| member | source | states |
|---|---|---|
| Selection.Toggle | app/onboarding/psychographics.tsx:57-63 | flips exactly the toggled item's membership and keeps the others; an absent item is appended at the end; a present one has every occurrence removed, order kept; duplicate-freedom is preserved |
| Selection.ToggleTwiceAbsent | app/onboarding/psychographics.tsx:57-63 | toggling an absent item twice restores the list exactly |
| Selection.ToggleTwiceRestores | mobile/context/FavoritesContext.tsx:32-34 | on a duplicate-free list a double toggle restores the exact list iff the item was absent or already last |
| Selection.ToggleTwiceMovesToEnd | mobile/context/FavoritesContext.tsx:32-34 | a double toggle of a present, non-last item reorders the list (`[a,b]` becomes `[b,a]`) |
| Seqs.Filter | app/favorites.tsx:16 | keeps exactly the elements satisfying the predicate, as a subsequence of the input, each with its full multiplicity, and drops every other element entirely |
| Seqs.FilterAppend | app/favorites.tsx:16 | filtering distributes over concatenation |
| Seqs.Without | mobile/context/FavoritesContext.tsx:33 | removes every occurrence and nothing else; the length drops by the occurrence count |
| Seqs.WithoutAppend | mobile/context/FavoritesContext.tsx:33 | removal distributes over concatenation |
| Seqs.FilterNoDup | app/favorites.tsx:16 | filtering a duplicate-free list yields a duplicate-free list |
| Seqs.WithoutNoDup | mobile/context/FavoritesContext.tsx:33 | removal keeps a list duplicate-free |
| Text.Trim | app/onboarding/demographics.tsx:118 | the result has non-whitespace ends, sits inside the input, and is non-empty iff the input has a visible character |
| Text.Split | mobile/app/checkin/result.tsx:22 | `split` on one character: at least one piece, no piece contains the separator, and joining the pieces gives back the input |
| Text.SplitJoin | app/checkin/topics.tsx:29 | splitting the join of a non-empty list of separator-free strings recovers the list |
| Text.SplitJoinEmpty | app/checkin/topics.tsx:29 | the empty list does not round-trip: it comes back as `[""]` |
| Text.NatToString | mobile/context/JournalContext.tsx:44 | the decimal rendering is non-empty, all digits, without a leading zero |
| Text.DecimalRoundTrip | mobile/context/JournalContext.tsx:44 | reading the rendered digits back gives the number |
| Text.NatToStringInjective | mobile/context/JournalContext.tsx:44 | distinct clock readings give distinct ids |
| Quotes.Categories | app/collections.tsx:17 | the category list is strictly ascending and a string is in it iff some quote has that category |
| Quotes.SortedUnique | app/collections.tsx:17 | two strictly sorted lists with the same members are equal, so the list is determined by the dataset |
| Quotes.LessTransitive | app/collections.tsx:17 | the default string sort order is transitive |
| Quotes.LessTotal | app/collections.tsx:17 | any two distinct strings are ordered one way |
| Quotes.CategoryCountsPartition | app/collections.tsx:17-52 | the category list has no duplicates, each count is positive, and the counts sum to the dataset size |
| Quotes.SumCountsCovering | app/collections.tsx:52 | counting per category over a duplicate-free covering list accounts for every quote once |
| Quotes.FavoriteQuotes | app/favorites.tsx:16 | the listed quotes are a subsequence of the dataset, and a quote is listed iff its id is a favourite; ids without a quote contribute nothing |
| Quotes.FavoritesInDatasetOrder | app/favorites.tsx:16 | the list follows dataset order, not the order of favouriting |
| Quotes.RemoveDropsQuote | app/favorites.tsx:16-23 | the trash button toggles a present id, so that quote leaves the list and every other listed quote stays |
| Profile.Merge | context/UserContext.tsx:62-73 | a spread merge: fields present in the update take its value, absent ones keep the profile's |
| Profile.Full | context/UserContext.tsx:75 | the stored document carries every field of the profile |
| Profile.CombineLaterWins | context/UserContext.tsx:73 | combining two updates lets the later one's present fields win |
| Profile.MergeNoChange | context/UserContext.tsx:73 | an empty update is the identity |
| Profile.MergeIdempotent | context/UserContext.tsx:73 | applying the same update twice equals applying it once |
| Profile.MergeCombine | context/UserContext.tsx:73 | two successive updates equal one update with the combined patch |
| Profile.MergeFull | context/UserContext.tsx:62 | spreading a complete stored profile over the defaults yields exactly that profile |
| Profile.ProfileExtensionality | context/UserContext.tsx:4-21 | profiles agreeing on every field are equal |
| JournalEntries.ParseMood | mobile/context/JournalContext.tsx:4 | a parsed mood renders back to the parsed string |
| JournalEntries.MoodRoundTrip | mobile/context/JournalContext.tsx:4 | every mood survives rendering and parsing |
| JournalEntries.NewEntry | mobile/context/JournalContext.tsx:42-46 | the entry copies the draft, is dated with the clock's ISO string, and its id reads back as the clock's milliseconds |
| JournalEntries.SameMillisecondCollides | mobile/context/JournalContext.tsx:44 | two entries created in the same millisecond get the same id |
| JournalEntries.DeleteById | mobile/context/JournalContext.tsx:53 | no survivor carries the id; every other entry survives as many times as it occurred, in order |
| JournalEntries.DeleteAbsent | mobile/context/JournalContext.tsx:53 | deleting an id no entry carries changes nothing |
| JournalEntries.DeleteIdempotent | mobile/context/JournalContext.tsx:53 | deleting twice equals deleting once |
| Storage.Persist | mobile/context/HistoryContext.tsx:35-36 | memory is set; storage changes at most at the key; a successful write stores the document; a failed one leaves storage and reports per the policy |
| Storage.Erase | mobile/context/HistoryContext.tsx:44-45 | memory is set; a successful removal deletes only the key; a failed one leaves storage |
| HistoryStore.AddToHistory | mobile/context/HistoryContext.tsx:34 | the quote heads a list of at most 50; the list is a prefix of the quote followed by the other-id survivors in order; no later entry has its id; unique ids are preserved |
| HistoryStore.ReAddHead | mobile/context/HistoryContext.tsx:33-34 | re-adding the head of a bounded duplicate-free history changes nothing |
| HistoryStore.AddFresh | mobile/context/HistoryContext.tsx:34 | a quote with a new id is prepended and the oldest entry drops off at the bound |
| HistoryStore.MoveToFront | mobile/context/HistoryContext.tsx:34 | re-adding an older quote moves it to the front |
| HistoryStore.ShowAllDistinct | mobile/context/HistoryContext.tsx:34 | showing distinct quotes from empty keeps the last fifty, newest first |
| HistoryStore.Init | mobile/context/HistoryContext.tsx:14 | the provider starts with an empty history, which has unique ids, on the given storage |
| HistoryStore.Load | mobile/context/HistoryContext.tsx:20-29 | a readable stored list replaces memory; otherwise memory is kept |
| HistoryStore.Add | mobile/context/HistoryContext.tsx:31-40 | memory gets the new history; a successful write stores it under `userHistory`; a failure is logged and leaves storage |
| HistoryStore.Clear | mobile/context/HistoryContext.tsx:42-49 | memory is emptied; a successful removal deletes the key |
| HistoryStore.ReloadAfterWrite | mobile/context/HistoryContext.tsx:20-49 | after a successful add or clear, a restart reloads what memory held |
| FavoritesStore.Init | mobile/context/FavoritesContext.tsx:13 | the provider starts with no favourites, on the given storage |
| FavoritesStore.Load | mobile/context/FavoritesContext.tsx:19-28 | a readable stored id list replaces memory; otherwise memory is kept |
| FavoritesStore.IsFavorite | mobile/context/FavoritesContext.tsx:43 | an id is a favourite iff some position of the list holds it, iff it occurs at least once |
| FavoritesStore.ToggleFavorite | mobile/context/FavoritesContext.tsx:30-43 | `isFavorite` flips for the id only; an absent id is appended and a present one removed; a successful write stores the new list; a failure is logged |
| FavoritesStore.ToggleTwiceSameSet | mobile/context/FavoritesContext.tsx:30-43 | two toggles restore the set of favourites, whatever the write outcomes |
| FavoritesStore.ReloadAfterToggle | mobile/context/FavoritesContext.tsx:19-37 | after a successful toggle a restart reloads the toggled list |
| JournalStore.Init | mobile/context/JournalContext.tsx:24 | the provider starts with an empty journal, which has unique ids and meets the fresh-id precondition at every clock reading |
| JournalStore.Load | mobile/context/JournalContext.tsx:30-39 | a readable stored entry list replaces memory; otherwise memory is kept |
| JournalStore.AddEntry | mobile/context/JournalContext.tsx:41-50 | one stamped entry is prepended to memory; a successful write stores the list; a failure propagates and memory keeps the entry |
| JournalStore.AddEntryFreshId | mobile/context/JournalContext.tsx:44-47 | under an increasing clock the new id differs from every earlier one and unique ids are preserved |
| JournalStore.DeleteEntry | mobile/context/JournalContext.tsx:52-56 | every entry with the id goes; the rest stay in order with their multiplicities; the write propagates failures |
| JournalStore.DeleteEntryNoOp | mobile/context/JournalContext.tsx:53 | deleting an absent id leaves memory as it was; a repeated delete changes nothing |
| JournalStore.ReloadAfterAdd | mobile/context/JournalContext.tsx:30-49 | after a successful add a restart reloads the journal in memory |
| UserStore.Init | context/UserContext.tsx:51-52 | the provider starts with the default profile and `loading` set |
| UserStore.LoadUser | context/UserContext.tsx:58-69 | a stored profile is spread over the defaults field by field; a missing or unreadable one keeps memory; `loading` always ends false |
| UserStore.UpdateUser | context/UserContext.tsx:71-79 | each field takes the update's value if present and the old one otherwise; a successful write stores the whole profile; a failure is logged |
| UserStore.ResetUser | context/UserContext.tsx:81-89 | memory returns to the defaults; the profile key and then the onboarding flag are removed; the first failure stops the sequence and is logged; nothing else in storage changes |
| UserStore.ReloadAfterUpdate | context/UserContext.tsx:58-79 | after a successful update a restart loads exactly the merged profile |
| UserStore.ReloadAfterReset | context/UserContext.tsx:58-89 | after a complete reset a restart loads the defaults and the onboarding flag is gone |
| UserStore.UpdateNothing | context/UserContext.tsx:73 | an empty update leaves the profile unchanged |
| UserStore.UpdateTwice | context/UserContext.tsx:71-79 | two successful updates equal one update with the combined patch |
| ThemeStore.Init | mobile/context/ThemeContext.tsx:16 | the provider starts on `"dark"` |
| ThemeStore.StoredChoice | mobile/context/ThemeContext.tsx:24-25 | a stored id is a candidate iff it was read, is a string, and is non-empty |
| ThemeStore.LoadTheme | mobile/context/ThemeContext.tsx:22-31 | the corrected load: a stored id in the table is adopted; anything else keeps the current id; storage is untouched |
| ThemeStore.LoadThemeAsWritten | mobile/context/ThemeContext.tsx:22-31 | the load as written: a stored id whose lookup is truthy, including an inherited name, is adopted; anything else keeps the current id; storage is untouched |
| ThemeStore.SetThemeId | mobile/context/ThemeContext.tsx:33-38 | the corrected set: an id outside the table changes nothing; a table id is set and then written under `@theme_pref`; a failed write propagates |
| ThemeStore.SetThemeIdAsWritten | mobile/context/ThemeContext.tsx:33-38 | the set as written: the guard also admits names inherited from `Object.prototype`; an admitted id is set and then written under `@theme_pref`; a failed write propagates |
| ThemeStore.ThemeInvariant | mobile/context/ThemeContext.tsx:16-40 | with `"dark"` among the themes, the current id always names a known theme, under load and set |
| ThemeStore.ReloadAfterSet | mobile/context/ThemeContext.tsx:25-36 | a known id set successfully is what a restart loads |
| ThemeStore.InheritedNameBreaksInvariant | mobile/context/ThemeContext.tsx:34-40 | as written, `setThemeId("constructor")` makes the current id name no theme |
| ThemeStore.InheritedNameSurvivesRestart | mobile/context/ThemeContext.tsx:25-36 | as written, a stored `"constructor"` is adopted again by the next load, so the provider restarts outside the table |
| AuthService.ReadToken | mobile/services/auth.ts:13-18 | `getItem` gives the stored string, or null when the key is absent |
| AuthService.Init | mobile/services/auth.ts:12-14 | the cache becomes the stored token; a rejected read leaves the cache as it was and rejects the call |
| AuthService.GetToken | mobile/services/auth.ts:16-21 | a truthy cache is returned without reading, so a read failure cannot affect it; a missing or empty one is refreshed from storage and returned; a rejected read leaves the cache as it was and rejects the call |
| AuthService.SetToken | mobile/services/auth.ts:23-29 | the cache takes the token; `auth_token` is written; `refresh_token` is written only for a truthy refresh token; a failed write propagates and stops the sequence |
| AuthService.Logout | mobile/services/auth.ts:31-35 | the cache is nulled; both keys are removed in turn; a failed removal propagates and stops the sequence |
| AuthService.GetAfterSet | mobile/services/auth.ts:17-24 | after `setToken(t)` with a non-empty `t`, `getToken` returns `t` from the cache, even if the writes failed, and storage is never read |
| AuthService.InitAfterSet | mobile/services/auth.ts:13-25 | a successfully written token is what a restart loads |
| AuthService.GetAfterLogout | mobile/services/auth.ts:17-34 | after a successful logout `getToken` returns null |
| AuthService.FailedLogoutRestoresToken | mobile/services/auth.ts:17-33 | if the first removal fails, the next `getToken` brings the old token back |
| AuthService.EmptyTokenIsReread | mobile/services/auth.ts:17 | an empty cached token is treated as missing and storage is read again |
| AuthService.RejectedReadRetries | mobile/services/auth.ts:17-19 | a rejected read after logout leaves the cache null, so the next `getToken` reads storage again |
| Onboarding.Perform | context/UserContext.tsx:71-79 | a press's update changes the profile field by field as the merge does; a press without one changes nothing |
| Onboarding.PerformWritesOnly | context/UserContext.tsx:73 | a press that writes one field leaves every other field as it was |
| MoodBaseline.MoodLabel | app/onboarding/mood-baseline.tsx:27-33 | total, and always one of the five labels |
| MoodBaseline.MoodIcon | app/onboarding/mood-baseline.tsx:35-41 | total, and always one of the five icons |
| MoodBaseline.LabelAndIconAgree | app/onboarding/mood-baseline.tsx:27-41 | label and icon are both determined by the same two-values-per-band arithmetic band |
| MoodBaseline.LabelMonotone | app/onboarding/mood-baseline.tsx:27-33 | a higher value never gets a lower-ranked label |
| MoodBaseline.EachLabelTwoValues | app/onboarding/mood-baseline.tsx:27-33 | on the slider's 1..10 each label names exactly two values |
| MoodBaseline.InitialDescription | app/onboarding/mood-baseline.tsx:12-41 | the initial value 5 shows "Okay" and "cloud" |
| MoodBaseline.Continue | app/onboarding/mood-baseline.tsx:14-17 | saves nothing and is the same press as Skip |
| MoodBaseline.Skip | app/onboarding/mood-baseline.tsx:23-25 | saves nothing and pushes the goals screen |
| MoodBaseline.Back | app/onboarding/mood-baseline.tsx:19-21 | saves nothing and leaves the screen |
| MoodBaseline.ValueNeverSaved | app/onboarding/mood-baseline.tsx:14-25 | no button saves the value; Continue and Skip both go to the goals screen |
| Demographics.Continue | app/onboarding/demographics.tsx:28-37 | a valid step moves as Skip does; an invalid one stays put; nothing is written |
| Demographics.Skip | app/onboarding/demographics.tsx:124-132 | writes nothing and, regardless of validity, always leaves the current step: to another in-screen step, or from gender to the next screen |
| Demographics.Back | app/onboarding/demographics.tsx:39-47 | leaves the screen exactly from the name step |
| Demographics.NameStepValid | app/onboarding/demographics.tsx:117-118 | the name step is valid iff the name has a non-whitespace character |
| Demographics.BackAfterForward | app/onboarding/demographics.tsx:28-47 | Back after a forward move within the screen returns to the original form |
| Demographics.BlankNameBlocksContinue | app/onboarding/demographics.tsx:28-37 | a whitespace-only name blocks Continue, while Skip passes |
| Demographics.ThreeValidPresses | app/onboarding/demographics.tsx:28-37 | valid answers reach the next screen in three presses |
| Demographics.NothingSaved | app/onboarding/demographics.tsx:34 | no press on the screen changes the profile |
| Psychographics.Select | app/onboarding/psychographics.tsx:57-134 | on the two multi-select steps toggles the option in that step's list only; on the trigger step replaces the single choice; the step never changes |
| Psychographics.Continue | app/onboarding/psychographics.tsx:34-45 | a valid step writes exactly its one field (sources, pain points, or the trigger as a one-element list) and advances; an invalid step writes nothing and stays |
| Psychographics.Skip | app/onboarding/psychographics.tsx:143-151 | advances regardless of validity (source to pain points to triggers, then `/onboarding/commitment`), the same path as a valid Continue, without writing |
| Psychographics.Back | app/onboarding/psychographics.tsx:47-55 | leaves exactly from the source step; otherwise returns to the previous step, the one from which Skip leads to the current one |
| Psychographics.TriggerSavedAsSingleton | app/onboarding/psychographics.tsx:41-42 | after Continue at triggers the profile's tone triggers are `[trigger]` and no other field changed |
| Psychographics.SelectTwice | app/onboarding/psychographics.tsx:57-63 | selecting an absent option twice restores the step's list; lists stay duplicate-free |
| Wellness.Select | app/onboarding/wellness.tsx:36-42 | toggles the id in the current step's list: appended at the end when absent, every occurrence removed when present, the other selected ids and the other step's list kept; lists stay duplicate-free |
| Wellness.SelectTwice | app/onboarding/wellness.tsx:36-42 | selecting an absent id twice restores the list exactly; deselecting keeps every other selected id |
| Wellness.Continue | app/onboarding/wellness.tsx:44-52 | writes exactly the step's field with the selection, empty or not, then advances or leaves |
| Wellness.Skip | app/onboarding/wellness.tsx:62-70 | writes an empty list to the step's field and moves as Continue does |
| Wellness.Back | app/onboarding/wellness.tsx:54-60 | obstacles to focus; leaves exactly from focus |
| Wellness.EmptySelectionSkips | app/onboarding/wellness.tsx:44-70 | with nothing selected, Continue and Skip are the same press |
| Wellness.FocusSaved | app/onboarding/wellness.tsx:45-47 | Continue at focus saves exactly the selection and touches no other field |
| Commitment.HoldCompleted | app/onboarding/commitment.tsx:60-89 | a completed hold signs, and changes nothing else |
| Commitment.Continue | app/onboarding/commitment.tsx:29-37 | disabled on an unsigned contract; at the contract writes only `pledgeSigned = true`; at the alarm writes only `alarmTime`, null when the reminder is off |
| Commitment.Skip | app/onboarding/commitment.tsx:47-54 | a no-op at the contract; at the alarm leaves without writing |
| Commitment.Back | app/onboarding/commitment.tsx:39-45 | alarm to contract; leaves exactly from the contract |
| Commitment.SignedIsSticky | app/onboarding/commitment.tsx:60-100 | once signed, no event clears `signed` |
| Commitment.PledgeNeedsHold | app/onboarding/commitment.tsx:29-37 | the pledge is recorded only after a completed hold |
| Commitment.ReminderSaved | app/onboarding/commitment.tsx:34-52 | Continue saves the reminder time or null; Skip leaves the profile as it was |
| Customization.SelectIcon | app/onboarding/customization.tsx:82 | holds the tapped icon on screen: Continue at the icon step then saves exactly that icon, while Skip writes the same as before |
| Customization.Continue | app/onboarding/customization.tsx:32-41 | at the icon step writes exactly `appIcon` with the selection; at the theme step leaves without writing |
| Customization.Skip | app/onboarding/customization.tsx:51-58 | at the icon step writes `appIcon = 'default'` whatever was chosen; moves as Continue does |
| Customization.Back | app/onboarding/customization.tsx:43-49 | theme to icon; leaves exactly from the icon step |
| Customization.ChooseTheme | app/onboarding/customization.tsx:116 | a swatch id (`dark`, `light` or `nature`) goes through the theme store's guard as written, which on these ids agrees with the corrected guard: an unknown id is ignored, a known one becomes current, validity is kept |
| Customization.UntouchedIconIsDefault | app/onboarding/customization.tsx:30-53 | with the initial selection both buttons save `'default'`, which differs from the profile default `'classic'` |
| Customization.ThemeStepSavesNothing | app/onboarding/customization.tsx:36-57 | at the theme step neither button touches the profile |
| Topics.ToggleTopic | app/checkin/topics.tsx:18-24 | flips the topic's membership only: a new topic is appended at the end, a selected one is removed with the order of the rest kept; the selection stays duplicate-free; no size bound |
| Topics.Next | app/checkin/topics.tsx:26-31 | disabled iff nothing is selected; otherwise passes the comma-joined selection |
| Topics.ParseTopics | mobile/app/checkin/result.tsx:22 | a missing parameter gives no topics; a present one is split into pieces that join back to it |
| Topics.OfferedCommaFree | app/checkin/topics.tsx:7-10 | no offered topic contains a comma |
| Topics.ToggleKeepsReachable | app/checkin/topics.tsx:7-24 | toggling offered topics keeps the selection within them and duplicate-free |
| Topics.TopicsRoundTrip | app/checkin/topics.tsx:26-31 | the next screen recovers exactly a non-empty selection |
| Topics.NoSelectionLimit | app/checkin/topics.tsx:18-41 | four topics can be selected and sent, despite the "up to 3" prompt |
| ReflectionNotes.Draft | app/reflection/notes.tsx:27-31 | the entry asks for the focus as its only topic and a trimmed note that is empty iff the note had no visible character |
| ReflectionNotes.HandleSave | app/reflection/notes.tsx:21-41 | ignored while saving; otherwise one `addEntry`; success keeps `saving` and goes to the summary; failure clears `saving` and stays |
| ReflectionNotes.OneEntryPerSave | app/reflection/notes.tsx:22-36 | a successful save adds one entry and later taps add nothing |
| ReflectionNotes.SavedEntryShape | app/reflection/notes.tsx:27-31 | the saved entry has the mood, `[focus]`, the trimmed note and the clock's date |
| ReflectionNotes.RetryAfterFailure | app/reflection/notes.tsx:21-41 | after a failed save a retry is possible, and memory then holds two entries for the one note, both stored by the retry |
| InteractionService.Find | backend/src/main/java/com/novus/backend/service/InteractionService.java:28 | finds the first row with the triple, or reports that none has it |
| InteractionService.AddFavorite | backend/src/main/java/com/novus/backend/service/InteractionService.java:26-36 | an existing triple returns its row and changes nothing; a new one appends exactly one row with the next id; validity is kept |
| InteractionService.RemoveFavorite | backend/src/main/java/com/novus/backend/service/InteractionService.java:40-43 | an absent triple changes nothing; a present one removes one row, keeping the order of the rest |
| InteractionService.RemoveFavoriteFacts | backend/src/main/java/com/novus/backend/service/InteractionService.java:40-43 | on a valid table removal keeps validity, drops the triple and keeps every other triple |
| InteractionService.GetUserFavorites | backend/src/main/java/com/novus/backend/service/InteractionService.java:46-48 | exactly the user's rows, each as often as the table holds it, and no row of another user |
| InteractionService.AddTwice | backend/src/main/java/com/novus/backend/service/InteractionService.java:28-35 | adding the same triple again returns the same row and changes nothing |
| InteractionService.AddThenRemove | backend/src/main/java/com/novus/backend/service/InteractionService.java:26-43 | add then remove leaves the triple absent and every other triple as it was |
| InteractionService.AddThenList | backend/src/main/java/com/novus/backend/service/InteractionService.java:26-48 | after an add, the owner's list gains the new row when the triple was new; every other list, and a repeated add, leave the listing unchanged |
| InteractionService.RemoveThenListDropsTriple | backend/src/main/java/com/novus/backend/service/InteractionService.java:40-48 | after a remove no user's list holds the triple |
| InteractionService.RemoveThenListOwner | backend/src/main/java/com/novus/backend/service/InteractionService.java:40-48 | removing a present triple shortens its owner's list by one |
| InteractionService.RemoveThenListOthers | backend/src/main/java/com/novus/backend/service/InteractionService.java:40-48 | removing leaves every other user's list, and every list when the triple was absent, unchanged |
| UserService.Find | backend/src/main/java/com/novus/backend/service/UserService.java:28 | finds a row with the id, or reports that none has it |
| UserService.Refresh | backend/src/main/java/com/novus/backend/service/UserService.java:31-38 | a null argument keeps the field; a non-null one becomes its value |
| UserService.SyncUser | backend/src/main/java/com/novus/backend/service/UserService.java:27-53 | an unknown id gets one new row with the arguments; an existing row keeps its id, takes each non-null differing argument, and is stamped and saved iff something changed; the id column stays unique |
| UserService.GetUserByKeycloakId | backend/src/main/java/com/novus/backend/service/UserService.java:56-60 | the row when the id is known, otherwise the "User not found for ID" error |
| UserService.NullArgumentsChangeNothing | backend/src/main/java/com/novus/backend/service/UserService.java:31-35 | null arguments never clear a field nor cause a save |
| UserService.SyncTwice | backend/src/main/java/com/novus/backend/service/UserService.java:29-44 | the same sync twice: the second call saves and changes nothing |
| UserService.SyncedRowIsFound | backend/src/main/java/com/novus/backend/service/UserService.java:28-52 | on a table with unique ids every row that carries the synced id is the returned user |
| UserService.SyncThenGet | backend/src/main/java/com/novus/backend/service/UserService.java:27-60 | a lookup after a sync finds the synced user |

## Left out

- Rendering, styles, animations, haptics and routing are not modelled. Navigation is the `Nav` token: a new in-screen state, a pushed route, or back.
- The two-second pledge hold is a single `HoldCompleted` event. Releasing early changes nothing, so it is not modelled.
- The storage engines are not modelled: device storage is one `map<string, Doc>` and the JPA tables are row sequences. JSON parsing is reduced to two outcomes:
  - a document of the expected shape is adopted;
  - anything else keeps memory. For unreadable text this is what the source does: the parse throws and the error is logged.
- HistoryStore.Load, FavoritesStore.Load, JournalStore.Load: a stored value that parses but is not a list (`null`, `{}`, `42`) keeps memory in the model. The source adopts any value that parses, and a non-list memory then breaks the store's next operation. `history.filter` and `favorites.includes` throw inside their `try` and are logged, so every later add or toggle does nothing. `isFavorite` and `[newEntry, ...entries]` throw uncaught. The app never writes such a value under these keys.
- UserStore.LoadUser: a stored `null` keeps memory in the model, while the source's `{...defaultProfile, ...null}` yields the defaults. The app never writes `null` under `userProfile`.
- A stored profile carrying extra keys or wrongly typed values is not modelled.
- UserStore.LoadUser: assumes the stored profile document has the declared field types; JavaScript would spread whatever keys it holds.
- Async interleaving is not modelled, because each operation runs to completion before the next. In the source, `updateUser` and `toggleFavorite` close over the value of the last render, so two calls in one render would lose the first.
- Clocks are parameters:
  - `Date.now()` is a natural number of milliseconds;
  - `toISOString()` and the alarm time are opaque strings.
  - the backend's `LocalDateTime.now()` is an integer.
  - the journal reads the clock twice, once for the id and once for the date; the model takes both readings from one `Clock` value.
- Random quote choice on the check-in result screen is left out. Only its `split(',')` of the topics parameter is modelled.
- Route parameters are taken typed. The notes screen's `mood as Mood` and `focus as string` casts are unchecked in the source.
- The theme table lives in `constants/Colors`, which is not part of this model. Its ids are the `themes` parameter, which contains `"dark"`.
- `BaseEntity` is not part of this model, so creation timestamps are not modelled. A new user's `updatedAt` is `None` until `syncUser` stamps it.
- `User.interests` is not modelled.
- A null `itemId` or `keycloakId` is not modelled: ids are plain integers and strings, unbounded.
- Spring plumbing, controllers and `@Transactional` rollback are not modelled, and neither are HTTP clients or the Keycloak logout call, which is only a comment in `logout`.
- The floating-point progress value of every `getProgress` is not modelled.
- The notifications, goals, welcome, free-tier and attribution screens are not modelled. They either persist nothing or repeat a call modelled here.
- `change-focus.tsx` is covered by `dailyFocusId`. That field is not declared in `UserProfile` but is written through `updateUser`, so the model adds it as an optional seventeenth field that defaults to absent.
- Only one copy of each store is modelled:
  - history, favourites, journal and theme from `mobile/context`;
  - the profile from `context/UserContext.tsx`.
- `setThemeId` is called without `await` from the customization screen. A propagated write failure there is an unhandled rejection, which the model reports as `Raised` without modelling the runtime's reaction.
- Mood values are integers. The slider's step of 1 on 1..10 produces only whole numbers.
- InteractionService.GetUserFavorites: `findByUserId` has no ORDER BY, so the database promises no order; the model lists rows in table order as a modelling choice, and only the set of rows with their multiplicities is the source's promise.
- Quotes.Less: compares characters (Unicode scalar values) where JavaScript's default `sort` compares UTF-16 code units; the orders differ only for characters above U+FFFF.

## Findings

| source | as written | input that shows it | evidently intended | confidence | as-written member | corrected member |
|---|---|---|---|---|---|---|
| mobile/context/ThemeContext.tsx:25-36 | `Themes[id]` in `setThemeId` and `Themes[storedThemeId]` in `loadTheme` accept any name whose lookup is truthy, including those every object inherits from `Object.prototype` | `setThemeId("constructor")` with themes `dark` and `light`: the id becomes current and is stored, `Themes[currentThemeId]` is the `Object` function, not a theme, and the next launch loads it again | accept only the table's own theme ids, so the current id always names a theme | not executed; assumes `Themes` is a plain object literal | ThemeStore.SetThemeIdAsWritten, ThemeStore.LoadThemeAsWritten, ThemeStore.InheritedNameBreaksInvariant, ThemeStore.InheritedNameSurvivesRestart | ThemeStore.SetThemeId, ThemeStore.LoadTheme, ThemeStore.ThemeInvariant |
