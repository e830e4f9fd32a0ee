/** The favourites store: quote ids in the order they were first marked,
    mirrored to the key `@favorites`. */
module FavoritesStore {
  import opened Seqs
  import opened Selection
  import opened Storage

  /** The provider's start: no favourites until the stored list is loaded. */
  function Init(storage: KeyValue): (r: Store<seq<string>>)
    ensures r.storage == storage
    ensures forall id :: !IsFavorite(r.mem, id)
    ensures NoDup(r.mem)
  {
    Store([], storage)
  }

  /** `loadFavorites`: adopt a stored id list when one parses; otherwise keep memory. */
  function Load(st: Store<seq<string>>, readOk: bool): (r: Store<seq<string>>)
    ensures r.storage == st.storage
    ensures (readOk && FavoritesKey in st.storage && st.storage[FavoritesKey].IdList?)
            ==> r.mem == st.storage[FavoritesKey].ids
    ensures !(readOk && FavoritesKey in st.storage && st.storage[FavoritesKey].IdList?) ==> r == st
  {
    if readOk && FavoritesKey in st.storage && st.storage[FavoritesKey].IdList? then
      Store(st.storage[FavoritesKey].ids, st.storage)
    else st
  }

  /** `isFavorite(id)`: a membership test on the in-memory list. */
  function IsFavorite(favorites: seq<string>, id: string): (r: bool)
    ensures r <==> exists k :: 0 <= k < |favorites| && favorites[k] == id
    ensures r <==> Count(favorites, id) > 0
  {
    id in favorites
  }

  /** `toggleFavorite(id)`: memory first, then the write to `@favorites`; a
      failed write is logged and memory keeps the toggled list. */
  function ToggleFavorite(st: Store<seq<string>>, id: string, writeOk: bool): (r: (Store<seq<string>>, Outcome))
    ensures IsFavorite(r.0.mem, id) == !IsFavorite(st.mem, id)
    ensures forall other :: other != id ==> IsFavorite(r.0.mem, other) == IsFavorite(st.mem, other)
    ensures !IsFavorite(st.mem, id) ==> r.0.mem == st.mem + [id]
    ensures IsFavorite(st.mem, id) ==> r.0.mem == Without(st.mem, id)
    ensures NoDup(st.mem) ==> NoDup(r.0.mem)
    ensures OnlyKeyChanged(st.storage, r.0.storage, FavoritesKey)
    ensures writeOk ==> r.0.storage == st.storage[FavoritesKey := IdList(r.0.mem)] && r.1 == Done
    ensures !writeOk ==> r.0.storage == st.storage && r.1 == Logged
  {
    var favorites := Toggle(st.mem, id);
    assert forall other :: other != id ==> (other in favorites <==> other in st.mem) by {
      forall other | other != id ensures other in favorites <==> other in st.mem {
        if other in st.mem {
          var k :| 0 <= k < |st.mem| && st.mem[k] == other;
        }
        if other in favorites {
          var k :| 0 <= k < |favorites| && favorites[k] == other;
        }
      }
    }
    Persist(favorites, st.storage, FavoritesKey, IdList(favorites), writeOk, CatchAndLog)
  }

  /** Toggling twice restores the same set of favourites, whatever the write
      outcomes. */
  lemma ToggleTwiceSameSet(st: Store<seq<string>>, id: string, ok1: bool, ok2: bool)
    ensures
      var once := ToggleFavorite(st, id, ok1).0;
      var twice := ToggleFavorite(once, id, ok2).0;
      forall x :: IsFavorite(twice.mem, x) == IsFavorite(st.mem, x)
  {
  }

  /** After a successful toggle, a restart reloads exactly the in-memory list. */
  lemma ReloadAfterToggle(st: Store<seq<string>>, id: string)
    ensures Load(Init(ToggleFavorite(st, id, true).0.storage), true).mem == Toggle(st.mem, id)
  {
  }
}
