/** The device's durable key-value store and the generic "persisted store"
    every context provider follows: one in-memory value mirrored to one key,
    memory updated first, the write issued after it. */
module Storage {
  import opened Quotes
  import opened JournalEntries
  import opened Profile

  /** A stored value. Plain strings are `Text`; the JSON documents the stores
      write are kept structured, and `Unreadable` stands for a value that
      `JSON.parse` rejects. */
  datatype Doc =
    | Text(s: string)
    | QuoteList(quotes: seq<Quote>)
    | IdList(ids: seq<string>)
    | EntryList(entries: seq<JournalEntry>)
    | ProfileDoc(fields: Patch)
    | Unreadable

  type KeyValue = map<string, Doc>

  const HistoryKey := "userHistory"
  const FavoritesKey := "@favorites"
  const JournalKey := "@journal_entries"
  const ProfileKey := "userProfile"
  const OnboardingKey := "onboardingCompleted"
  const ThemeKey := "@theme_pref"
  const TokenKey := "auth_token"
  const RefreshTokenKey := "refresh_token"

  /** How an operation ended: normally, with a failure caught and logged, or
      with the failure propagated to its caller. */
  datatype Outcome = Done | Logged | Raised

  /** Whether the operation's code wraps its storage call in `try/catch`. */
  datatype Policy = CatchAndLog | Propagate

  function FailureOutcome(p: Policy): Outcome {
    if p == CatchAndLog then Logged else Raised
  }

  /** A store: its in-memory value and the device storage. */
  datatype Store<T> = Store(mem: T, storage: KeyValue)

  /** Storage differs at most at `key`. */
  predicate OnlyKeyChanged(before: KeyValue, after: KeyValue, key: string) {
    after - {key} == before - {key}
  }

  /** Set memory to `mem`, then `setItem(key, doc)`: a rejected write leaves
      storage as it was and memory as set. */
  function Persist<T>(mem: T, storage: KeyValue, key: string, doc: Doc, writeOk: bool, policy: Policy): (r: (Store<T>, Outcome))
    ensures r.0.mem == mem
    ensures OnlyKeyChanged(storage, r.0.storage, key)
    ensures writeOk ==> key in r.0.storage && r.0.storage[key] == doc && r.1 == Done
    ensures !writeOk ==> r.0.storage == storage && r.1 == FailureOutcome(policy)
  {
    if writeOk then (Store(mem, storage[key := doc]), Done)
    else (Store(mem, storage), FailureOutcome(policy))
  }

  /** Set memory to `mem`, then `removeItem(key)`. */
  function Erase<T>(mem: T, storage: KeyValue, key: string, writeOk: bool, policy: Policy): (r: (Store<T>, Outcome))
    ensures r.0.mem == mem
    ensures OnlyKeyChanged(storage, r.0.storage, key)
    ensures writeOk ==> key !in r.0.storage && r.1 == Done
    ensures !writeOk ==> r.0.storage == storage && r.1 == FailureOutcome(policy)
  {
    if writeOk then (Store(mem, storage - {key}), Done)
    else (Store(mem, storage), FailureOutcome(policy))
  }
}
