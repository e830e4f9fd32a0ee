/** The journal store: entries newest first, mirrored to `@journal_entries`.
    Its writes have no `try/catch`, so a failed write reaches the caller. */
module JournalStore {
  import opened Seqs
  import opened Text
  import opened JournalEntries
  import opened Storage

  /** The provider's start: an empty journal, which meets the freshness
      precondition of `AddEntryFreshId` at every clock reading. */
  function Init(storage: KeyValue): (r: Store<seq<JournalEntry>>)
    ensures r.storage == storage && |r.mem| == 0
    ensures UniqueIds(r.mem)
    ensures forall t: nat :: IssuedBefore(r.mem, t)
  {
    Store([], storage)
  }

  /** `loadEntries`: adopt a stored entry list when one parses; otherwise keep memory. */
  function Load(st: Store<seq<JournalEntry>>, readOk: bool): (r: Store<seq<JournalEntry>>)
    ensures r.storage == st.storage
    ensures (readOk && JournalKey in st.storage && st.storage[JournalKey].EntryList?)
            ==> r.mem == st.storage[JournalKey].entries
    ensures !(readOk && JournalKey in st.storage && st.storage[JournalKey].EntryList?) ==> r == st
  {
    if readOk && JournalKey in st.storage && st.storage[JournalKey].EntryList? then
      Store(st.storage[JournalKey].entries, st.storage)
    else st
  }

  /** `addEntry(draft)`: prepend one entry stamped with the clock, set memory,
      then write; a failed write propagates and memory keeps the entry. */
  function AddEntry(st: Store<seq<JournalEntry>>, d: EntryDraft, now: Clock, writeOk: bool): (r: (Store<seq<JournalEntry>>, Outcome))
    ensures |r.0.mem| == |st.mem| + 1 && r.0.mem[1..] == st.mem
    ensures var e := r.0.mem[0];
      && e.mood == d.mood && e.topics == d.topics && e.note == d.note && e.quoteId == d.quoteId
      && e.date == now.iso && DecimalValue(e.id) == now.millis
    ensures OnlyKeyChanged(st.storage, r.0.storage, JournalKey)
    ensures writeOk ==> r.0.storage == st.storage[JournalKey := EntryList(r.0.mem)] && r.1 == Done
    ensures !writeOk ==> r.0.storage == st.storage && r.1 == Raised
  {
    var updated := [NewEntry(d, now)] + st.mem;
    assert updated[1..] == st.mem;
    Persist(updated, st.storage, JournalKey, EntryList(updated), writeOk, Propagate)
  }

  /** Under a strictly increasing clock the new id is fresh: if every id was
      minted before `now`, the ids stay unique and were all minted before any
      later reading. */
  lemma AddEntryFreshId(st: Store<seq<JournalEntry>>, d: EntryDraft, now: Clock, writeOk: bool)
    requires IssuedBefore(st.mem, now.millis)
    ensures var es := AddEntry(st, d, now, writeOk).0.mem;
      && (forall k :: 0 <= k < |st.mem| ==> st.mem[k].id != es[0].id)
      && (UniqueIds(st.mem) ==> UniqueIds(es))
      && IssuedBefore(es, now.millis + 1)
  {
    var es := AddEntry(st, d, now, writeOk).0.mem;
    forall k | 0 <= k < |st.mem| ensures st.mem[k].id != es[0].id {
      assert DecimalValue(st.mem[k].id) < now.millis;
    }
    if UniqueIds(st.mem) {
      forall i, j | 0 <= i < j < |es| ensures es[i].id != es[j].id {
        if i > 0 {
          assert es[i] == st.mem[i - 1] && es[j] == st.mem[j - 1];
        } else {
          assert es[j] == st.mem[j - 1];
        }
      }
    }
    forall k | 0 <= k < |es| ensures DecimalValue(es[k].id) < now.millis + 1 {
      if k > 0 { assert es[k] == st.mem[k - 1]; }
    }
  }

  /** `deleteEntry(id)`: drop every entry with that id, keep the order of the
      rest, set memory, then write; a failed write propagates. */
  function DeleteEntry(st: Store<seq<JournalEntry>>, id: string, writeOk: bool): (r: (Store<seq<JournalEntry>>, Outcome))
    ensures forall k :: 0 <= k < |r.0.mem| ==> r.0.mem[k].id != id
    ensures forall k :: 0 <= k < |st.mem| && st.mem[k].id != id ==> st.mem[k] in r.0.mem
    ensures Subseq(r.0.mem, st.mem)
    ensures forall e :: Count(r.0.mem, e) == (if e.id != id then Count(st.mem, e) else 0)
    ensures OnlyKeyChanged(st.storage, r.0.storage, JournalKey)
    ensures writeOk ==> r.0.storage == st.storage[JournalKey := EntryList(r.0.mem)] && r.1 == Done
    ensures !writeOk ==> r.0.storage == st.storage && r.1 == Raised
  {
    var updated := DeleteById(st.mem, id);
    Persist(updated, st.storage, JournalKey, EntryList(updated), writeOk, Propagate)
  }

  /** Deleting an absent id leaves memory as it was, and a second delete of
      the same id changes nothing further. */
  lemma DeleteEntryNoOp(st: Store<seq<JournalEntry>>, id: string, ok1: bool, ok2: bool)
    ensures (forall k :: 0 <= k < |st.mem| ==> st.mem[k].id != id) ==> DeleteEntry(st, id, ok1).0.mem == st.mem
    ensures var once := DeleteEntry(st, id, ok1).0;
      DeleteEntry(once, id, ok2).0.mem == once.mem
  {
    if forall k :: 0 <= k < |st.mem| ==> st.mem[k].id != id {
      DeleteAbsent(st.mem, id);
    }
    DeleteIdempotent(st.mem, id);
  }

  /** After a successful add, a restart reloads exactly the in-memory journal. */
  lemma ReloadAfterAdd(st: Store<seq<JournalEntry>>, d: EntryDraft, now: Clock)
    ensures var r := AddEntry(st, d, now, true).0;
      Load(Init(r.storage), true).mem == r.mem
  {
  }
}
