/** Journal entries: the mood vocabulary, the entry record, how the store
    stamps a new entry, and deletion by id. */
module JournalEntries {
  import opened Wrappers
  import opened Seqs
  import opened Text

  /** `'happy' | 'sad' | 'anxious' | 'neutral' | 'excited' | 'tired'`. */
  datatype Mood = Happy | Sad | Anxious | Neutral | Excited | Tired

  function MoodId(m: Mood): string {
    match m
    case Happy => "happy"
    case Sad => "sad"
    case Anxious => "anxious"
    case Neutral => "neutral"
    case Excited => "excited"
    case Tired => "tired"
  }

  /** The mood a stored or routed string names, if any. */
  function ParseMood(s: string): (r: Option<Mood>)
    ensures r.Some? ==> MoodId(r.value) == s
  {
    if s == "happy" then Some(Happy)
    else if s == "sad" then Some(Sad)
    else if s == "anxious" then Some(Anxious)
    else if s == "neutral" then Some(Neutral)
    else if s == "excited" then Some(Excited)
    else if s == "tired" then Some(Tired)
    else None
  }

  /** Every mood survives being written as its string and read back, so the
      six literals are distinct. */
  lemma MoodRoundTrip(m: Mood)
    ensures ParseMood(MoodId(m)) == Some(m)
  {
  }

  /** What a caller hands to `addEntry`: an entry without `id` and `date`. */
  datatype EntryDraft = EntryDraft(mood: Mood, topics: seq<string>, note: string, quoteId: Option<string>)

  datatype JournalEntry = JournalEntry(
    id: string, date: string, mood: Mood, topics: seq<string>, note: string, quoteId: Option<string>)

  /** The clock at the moment of the call: `Date.now()` in milliseconds and
      `new Date().toISOString()`, both supplied from outside the model. */
  datatype Clock = Clock(millis: nat, iso: string)

  /** `{ ...entry, id: Date.now().toString(), date: new Date().toISOString() }`. */
  function NewEntry(d: EntryDraft, now: Clock): (e: JournalEntry)
    ensures e.mood == d.mood && e.topics == d.topics && e.note == d.note && e.quoteId == d.quoteId
    ensures e.date == now.iso
    ensures DecimalValue(e.id) == now.millis
  {
    DecimalRoundTrip(now.millis);
    JournalEntry(NatToString(now.millis), now.iso, d.mood, d.topics, d.note, d.quoteId)
  }

  /** Every id was minted from a clock reading earlier than `t`. */
  predicate IssuedBefore(es: seq<JournalEntry>, t: nat) {
    forall k :: 0 <= k < |es| ==> DecimalValue(es[k].id) < t
  }

  predicate UniqueIds(es: seq<JournalEntry>) {
    forall i, j :: 0 <= i < j < |es| ==> es[i].id != es[j].id
  }

  /** Two entries stamped in the same millisecond share an id. */
  lemma SameMillisecondCollides(a: EntryDraft, b: EntryDraft, now: Clock)
    ensures NewEntry(a, now).id == NewEntry(b, now).id
  {
  }

  /** `entries.filter(e => e.id !== id)`. */
  function DeleteById(es: seq<JournalEntry>, id: string): (r: seq<JournalEntry>)
    ensures forall k :: 0 <= k < |r| ==> r[k].id != id
    ensures forall k :: 0 <= k < |es| && es[k].id != id ==> es[k] in r
    ensures forall k :: 0 <= k < |r| ==> r[k] in es
    ensures Subseq(r, es)
    ensures forall e :: Count(r, e) == (if e.id != id then Count(es, e) else 0)
  {
    Filter(es, (e: JournalEntry) => e.id != id)
  }

  /** Deleting an id nobody carries is a no-op. */
  lemma {:induction false} DeleteAbsent(es: seq<JournalEntry>, id: string)
    requires forall k :: 0 <= k < |es| ==> es[k].id != id
    ensures DeleteById(es, id) == es
    decreases |es|
  {
    if |es| > 0 {
      DeleteAbsent(es[1..], id);
      assert es == [es[0]] + es[1..];
    }
  }

  /** Deleting twice is deleting once. */
  lemma DeleteIdempotent(es: seq<JournalEntry>, id: string)
    ensures DeleteById(DeleteById(es, id), id) == DeleteById(es, id)
  {
    DeleteAbsent(DeleteById(es, id), id);
  }
}
