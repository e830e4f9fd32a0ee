/** The viewing history: the most recently shown quotes, newest first, at most
    fifty, each quote id at most once, mirrored to the key `userHistory`. */
module HistoryStore {
  import opened Seqs
  import opened Quotes
  import opened Storage

  const Limit := 50

  function Min(a: int, b: int): int {
    if a <= b then a else b
  }

  predicate UniqueIds(h: seq<Quote>) {
    forall i, j :: 0 <= i < j < |h| ==> h[i].id != h[j].id
  }

  /** The entries of `h` that do not carry `id`, in their order. */
  function Survivors(h: seq<Quote>, id: string): seq<Quote> {
    Filter(h, (x: Quote) => x.id != id)
  }

  lemma {:induction false} SubseqUniqueIds(a: seq<Quote>, b: seq<Quote>)
    requires Subseq(a, b) && UniqueIds(b)
    ensures UniqueIds(a)
    decreases |b|
  {
    if |a| > 0 {
      assert UniqueIds(b[1..]) by {
        forall i, j | 0 <= i < j < |b[1..]| ensures b[1..][i].id != b[1..][j].id {
          assert b[1..][i] == b[i + 1] && b[1..][j] == b[j + 1];
        }
      }
      if a[0] == b[0] && Subseq(a[1..], b[1..]) {
        SubseqUniqueIds(a[1..], b[1..]);
        SubseqMembers(a[1..], b[1..]);
        forall i, j | 0 <= i < j < |a| ensures a[i].id != a[j].id {
          if i == 0 {
            assert a[1..][j - 1] == a[j];
            var m :| 0 <= m < |b[1..]| && b[1..][m] == a[j];
            assert b[m + 1] == a[j];
          } else {
            assert a[1..][i - 1] == a[i] && a[1..][j - 1] == a[j];
          }
        }
      } else {
        SubseqUniqueIds(a, b[1..]);
      }
    }
  }

  /** `[quote, ...history.filter(q => q.id !== quote.id)].slice(0, 50)`. */
  function AddToHistory(h: seq<Quote>, q: Quote): (r: seq<Quote>)
    ensures 0 < |r| <= Limit && r[0] == q
    ensures |r| == Min(Limit, 1 + |Survivors(h, q.id)|)
    ensures IsPrefix(r, [q] + Survivors(h, q.id))
    ensures forall k :: 0 < k < |r| ==> r[k].id != q.id && r[k] in h
    ensures Subseq(r[1..], h)
    ensures UniqueIds(h) ==> UniqueIds(r)
  {
    var s := Survivors(h, q.id);
    var r := ([q] + s)[..Min(Limit, 1 + |s|)];
    TruncatedFacts(h, q, s, r);
    TruncatedUnique(h, q, s, r);
    r
  }

  /** The truncated history's tail: survivors only, in their order in `h`. */
  lemma TruncatedFacts(h: seq<Quote>, q: Quote, s: seq<Quote>, r: seq<Quote>)
    requires s == Survivors(h, q.id)
    requires r == ([q] + s)[..Min(Limit, 1 + |s|)]
    ensures forall k :: 0 < k < |r| ==> r[k].id != q.id && r[k] in h
    ensures Subseq(r[1..], h)
  {
    assert r[1..] == s[..|r| - 1];
    SubseqPrefix(s, h, |r| - 1);
    SubseqMembers(r[1..], h);
    forall k | 0 < k < |r| ensures r[k].id != q.id && r[k] in h {
      assert r[k] == s[k - 1];
      assert r[1..][k - 1] == r[k];
    }
  }

  /** The truncated history keeps ids unique when `h` had them. */
  lemma TruncatedUnique(h: seq<Quote>, q: Quote, s: seq<Quote>, r: seq<Quote>)
    requires s == Survivors(h, q.id)
    requires r == ([q] + s)[..Min(Limit, 1 + |s|)]
    ensures UniqueIds(h) ==> UniqueIds(r)
  {
    if UniqueIds(h) {
      TruncatedFacts(h, q, s, r);
      SubseqUniqueIds(r[1..], h);
      forall i, j | 0 <= i < j < |r| ensures r[i].id != r[j].id {
        if i > 0 { assert r[1..][i - 1] == r[i] && r[1..][j - 1] == r[j]; }
      }
    }
  }

  /** Re-adding the quote already at the head of a duplicate-free, bounded
      history leaves it unchanged. */
  lemma ReAddHead(h: seq<Quote>)
    requires 0 < |h| <= Limit && UniqueIds(h)
    ensures AddToHistory(h, h[0]) == h
  {
    var s := Survivors(h, h[0].id);
    assert h[1..] == Survivors(h[1..], h[0].id) by {
      forall k | 0 <= k < |h[1..]| ensures h[1..][k].id != h[0].id { assert h[1..][k] == h[k + 1]; }
      SurvivorsKeepsAll(h[1..], h[0].id);
    }
    assert s == Survivors(h[1..], h[0].id);
    assert [h[0]] + h[1..] == h;
  }

  lemma {:induction false} SurvivorsKeepsAll(h: seq<Quote>, id: string)
    requires forall k :: 0 <= k < |h| ==> h[k].id != id
    ensures Survivors(h, id) == h
    decreases |h|
  {
    if |h| > 0 {
      SurvivorsKeepsAll(h[1..], id);
      assert h == [h[0]] + h[1..];
    }
  }

  /** A quote not yet in the history goes to the front and, once the bound is
      reached, the oldest entry falls off the end. */
  lemma AddFresh(h: seq<Quote>, q: Quote)
    requires forall k :: 0 <= k < |h| ==> h[k].id != q.id
    ensures AddToHistory(h, q) == ([q] + h)[..Min(Limit, |h| + 1)]
  {
    SurvivorsKeepsAll(h, q.id);
  }

  /** History `[B, A]` with `A` re-added becomes `[A, B]`. */
  lemma MoveToFront(a: Quote, b: Quote)
    requires a.id != b.id
    ensures AddToHistory([b, a], a) == [a, b]
  {
    var p := (x: Quote) => x.id != a.id;
    assert [b, a][1..] == [a];
    assert [a][1..] == [];
    assert Filter([b, a], p) == [b] + Filter([a], p);
  }

  /** The history after showing `qs` in order, starting from empty. */
  function ShowAll(qs: seq<Quote>): seq<Quote>
    decreases |qs|
  {
    if |qs| == 0 then [] else AddToHistory(ShowAll(qs[..|qs| - 1]), qs[|qs| - 1])
  }

  function Reverse<T>(s: seq<T>): (r: seq<T>)
    ensures |r| == |s|
    ensures forall k :: 0 <= k < |s| ==> r[k] == s[|s| - 1 - k]
    decreases |s|
  {
    if |s| == 0 then [] else [s[|s| - 1]] + Reverse(s[..|s| - 1])
  }

  /** Showing quotes with pairwise distinct ids keeps the last fifty of them,
      most recent first: fifty-one distinct quotes leave exactly fifty. */
  lemma {:induction false} ShowAllDistinct(qs: seq<Quote>)
    requires UniqueIds(qs)
    ensures ShowAll(qs) == Reverse(qs)[..Min(Limit, |qs|)]
    decreases |qs|
  {
    if |qs| > 0 {
      var init := qs[..|qs| - 1];
      var q := qs[|qs| - 1];
      UniqueIdsPrefix(qs);
      ShowAllDistinct(init);
      var h := ShowAll(init);
      LastIsFresh(qs, h);
      AddFresh(h, q);
      assert Reverse(qs) == [q] + Reverse(init);
      TakeCons(q, Reverse(init));
    }
  }

  lemma UniqueIdsPrefix(qs: seq<Quote>)
    requires |qs| > 0 && UniqueIds(qs)
    ensures UniqueIds(qs[..|qs| - 1])
  {
    var init := qs[..|qs| - 1];
    forall i, j | 0 <= i < j < |init| ensures init[i].id != init[j].id {
      assert init[i] == qs[i] && init[j] == qs[j];
    }
  }

  /** The last quote's id is not in the history of the quotes before it. */
  lemma LastIsFresh(qs: seq<Quote>, h: seq<Quote>)
    requires |qs| > 0 && UniqueIds(qs)
    requires h == Reverse(qs[..|qs| - 1])[..Min(Limit, |qs| - 1)]
    ensures forall k :: 0 <= k < |h| ==> h[k].id != qs[|qs| - 1].id
  {
    var init := qs[..|qs| - 1];
    forall k | 0 <= k < |h| ensures h[k].id != qs[|qs| - 1].id {
      assert h[k] == Reverse(init)[k] == init[|init| - 1 - k] == qs[|init| - 1 - k];
    }
  }

  lemma TakeCons(q: Quote, rs: seq<Quote>)
    ensures ([q] + rs[..Min(Limit, |rs|)])[..Min(Limit, |rs[..Min(Limit, |rs|)]| + 1)]
         == ([q] + rs)[..Min(Limit, |rs| + 1)]
  {
  }

  /** The provider's start: an empty history, which trivially has unique ids. */
  function Init(storage: KeyValue): (r: Store<seq<Quote>>)
    ensures r.storage == storage && |r.mem| == 0
    ensures UniqueIds(r.mem)
  {
    Store([], storage)
  }

  /** `loadHistory`: adopt the stored list when there is one that parses;
      a missing key, an unreadable value or a failed read keep memory. */
  function Load(st: Store<seq<Quote>>, readOk: bool): (r: Store<seq<Quote>>)
    ensures r.storage == st.storage
    ensures (readOk && HistoryKey in st.storage && st.storage[HistoryKey].QuoteList?)
            ==> r.mem == st.storage[HistoryKey].quotes
    ensures !(readOk && HistoryKey in st.storage && st.storage[HistoryKey].QuoteList?) ==> r == st
  {
    if readOk && HistoryKey in st.storage && st.storage[HistoryKey].QuoteList? then
      Store(st.storage[HistoryKey].quotes, st.storage)
    else st
  }

  /** `addToHistory`: memory first, then the write; a failed write is logged
      and memory is not rolled back. */
  function Add(st: Store<seq<Quote>>, q: Quote, writeOk: bool): (r: (Store<seq<Quote>>, Outcome))
    ensures r.0.mem == AddToHistory(st.mem, q)
    ensures OnlyKeyChanged(st.storage, r.0.storage, HistoryKey)
    ensures writeOk ==> r.0.storage == st.storage[HistoryKey := QuoteList(r.0.mem)] && r.1 == Done
    ensures !writeOk ==> r.0.storage == st.storage && r.1 == Logged
  {
    var h := AddToHistory(st.mem, q);
    Persist(h, st.storage, HistoryKey, QuoteList(h), writeOk, CatchAndLog)
  }

  /** `clearHistory`: empty memory and remove the key. */
  function Clear(st: Store<seq<Quote>>, writeOk: bool): (r: (Store<seq<Quote>>, Outcome))
    ensures r.0.mem == []
    ensures writeOk ==> r.0.storage == st.storage - {HistoryKey} && r.1 == Done
    ensures !writeOk ==> r.0.storage == st.storage && r.1 == Logged
  {
    Erase([], st.storage, HistoryKey, writeOk, CatchAndLog)
  }

  /** After a successful add, a restart reloads exactly the in-memory history;
      after a successful clear it starts from the empty list. */
  lemma ReloadAfterWrite(st: Store<seq<Quote>>, q: Quote)
    ensures Load(Init(Add(st, q, true).0.storage), true).mem == AddToHistory(st.mem, q)
    ensures Load(Init(Clear(st, true).0.storage), true).mem == []
  {
  }
}
