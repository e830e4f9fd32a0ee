/** The reflection-notes screen: one Save button that adds a journal entry
    for the chosen mood and focus, guarded by a `saving` flag. */
module ReflectionNotes {
  import opened Wrappers
  import opened Text
  import opened JournalEntries
  import opened Storage
  import JournalStore

  /** The note being typed and whether a save is under way. */
  datatype Screen = Screen(note: string, saving: bool)

  const Start := Screen("", false)
  const SummaryRoute := "/reflection/summary"

  /** The entry a save asks for: the focus as the only topic, the note trimmed. */
  function Draft(s: Screen, mood: Mood, focus: string): (d: EntryDraft)
    ensures d.mood == mood && d.topics == [focus] && d.quoteId.None?
    ensures |d.note| <= |s.note| && (|d.note| > 0 <==> HasVisible(s.note))
  {
    EntryDraft(mood, [focus], Trim(s.note), None)
  }

  /** `handleSave`: ignored while saving; otherwise set `saving`, add the
      entry, and go to the summary. A failing `addEntry` is caught: `saving`
      is cleared so the user can retry, and the screen stays. */
  function HandleSave(s: Screen, journal: Store<seq<JournalEntry>>, mood: Mood, focus: string, now: Clock, writeOk: bool)
    : (r: (Screen, Store<seq<JournalEntry>>, Option<string>))
    ensures s.saving ==> r == (s, journal, None)
    ensures !s.saving ==> r.1 == JournalStore.AddEntry(journal, Draft(s, mood, focus), now, writeOk).0
    ensures !s.saving && writeOk ==> r.0.saving && r.2 == Some(SummaryRoute)
    ensures !s.saving && !writeOk ==> !r.0.saving && r.2.None?
    ensures r.0.note == s.note
  {
    if s.saving then (s, journal, None)
    else
      var (j, out) := JournalStore.AddEntry(journal, Draft(s, mood, focus), now, writeOk);
      if out == Raised then (s.(saving := false), j, None)
      else (s.(saving := true), j, Some(SummaryRoute))
  }

  /** A successful save adds one entry; taps after it add nothing more. */
  lemma OneEntryPerSave(s: Screen, journal: Store<seq<JournalEntry>>, mood: Mood, focus: string, t1: Clock, t2: Clock, ok2: bool)
    requires !s.saving
    ensures var (s1, j1, _) := HandleSave(s, journal, mood, focus, t1, true);
      var (s2, j2, go) := HandleSave(s1, j1, mood, focus, t2, ok2);
      |j2.mem| == |journal.mem| + 1 && j2 == j1 && go.None?
  {
  }

  /** The saved entry carries the focus as its only topic and the trimmed note. */
  lemma SavedEntryShape(s: Screen, journal: Store<seq<JournalEntry>>, mood: Mood, focus: string, now: Clock, writeOk: bool)
    requires !s.saving
    ensures var e := HandleSave(s, journal, mood, focus, now, writeOk).1.mem[0];
      e.mood == mood && e.topics == [focus] && e.note == Trim(s.note) && e.date == now.iso
  {
  }

  /** A failed save can be retried, and because the failed add already put its
      entry in the journal's memory, the retry leaves two entries for one
      note, and a successful write then stores both. */
  lemma RetryAfterFailure(s: Screen, journal: Store<seq<JournalEntry>>, mood: Mood, focus: string, t1: Clock, t2: Clock)
    requires !s.saving
    ensures var (s1, j1, _) := HandleSave(s, journal, mood, focus, t1, false);
      var (s2, j2, go) := HandleSave(s1, j1, mood, focus, t2, true);
      && !s1.saving && j1.storage == journal.storage
      && |j2.mem| == |journal.mem| + 2 && j2.mem[2..] == journal.mem
      && j2.mem[0].note == j2.mem[1].note == Trim(s.note)
      && j2.storage == journal.storage[JournalKey := EntryList(j2.mem)]
      && go == Some(SummaryRoute)
  {
    var (s1, j1, _) := HandleSave(s, journal, mood, focus, t1, false);
    var (s2, j2, go) := HandleSave(s1, j1, mood, focus, t2, true);
    assert j2.mem[1..] == j1.mem;
    assert j2.mem[2..] == j1.mem[1..];
  }
}
