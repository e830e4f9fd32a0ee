/** The bundled quote dataset and the two views derived from it: the sorted
    list of distinct categories with a per-category count (collections screen)
    and the favourite quotes in dataset order (favourites screen). */
module Quotes {
  import opened Seqs
  import opened Selection

  datatype Quote = Quote(id: string, text: string, author: string, category: string)

  /** Lexicographic order on characters, a proper prefix first. JavaScript's
      default `sort` compares UTF-16 code units; the two orders agree on
      characters up to U+FFFF and can differ above it. */
  predicate Less(a: string, b: string)
    decreases |a|
  {
    if |a| == 0 then |b| > 0
    else if |b| == 0 then false
    else if a[0] == b[0] then Less(a[1..], b[1..])
    else a[0] < b[0]
  }

  lemma {:induction false} LessIrreflexive(a: string)
    ensures !Less(a, a)
    decreases |a|
  {
    if |a| > 0 { LessIrreflexive(a[1..]); }
  }

  lemma {:induction false} LessAsymmetric(a: string, b: string)
    ensures !(Less(a, b) && Less(b, a))
    decreases |a|
  {
    if |a| > 0 && |b| > 0 && a[0] == b[0] { LessAsymmetric(a[1..], b[1..]); }
  }

  lemma {:induction false} LessTotal(a: string, b: string)
    requires a != b
    ensures Less(a, b) || Less(b, a)
    decreases |a|
  {
    if |a| > 0 && |b| > 0 && a[0] == b[0] {
      assert a == [a[0]] + a[1..] && b == [b[0]] + b[1..];
      LessTotal(a[1..], b[1..]);
    }
  }

  lemma {:induction false} LessTransitive(a: string, b: string, c: string)
    requires Less(a, b) && Less(b, c)
    ensures Less(a, c)
    decreases |a|
  {
    if |a| > 0 && a[0] == b[0] && b[0] == c[0] {
      LessTransitive(a[1..], b[1..], c[1..]);
    }
  }

  /** Strictly ascending, hence duplicate-free. */
  predicate Sorted(s: seq<string>) {
    forall i, j :: 0 <= i < j < |s| ==> Less(s[i], s[j])
  }

  lemma SortedNoDup(s: seq<string>)
    requires Sorted(s)
    ensures NoDup(s)
  {
    forall i, j | 0 <= i < j < |s| ensures s[i] != s[j] {
      LessIrreflexive(s[i]);
    }
  }

  /** Insert `x` into a sorted list unless it is already there. */
  function Insert(s: seq<string>, x: string): (r: seq<string>)
    requires Sorted(s)
    ensures Sorted(r)
    ensures forall y :: y in r <==> y in s || y == x
    decreases |s|
  {
    if |s| == 0 then [x]
    else if x == s[0] then s
    else if Less(x, s[0]) then
      assert Sorted([x] + s) by {
        forall k | 0 < k < |s| ensures Less(x, s[k]) { LessTransitive(x, s[0], s[k]); }
      }
      [x] + s
    else
      LessTotal(x, s[0]);
      var t := Insert(s[1..], x);
      assert Sorted([s[0]] + t) by {
        forall k | 0 <= k < |t| ensures Less(s[0], t[k]) {
          if t[k] != x {
            assert t[k] in s[1..];
            var m :| 0 <= m < |s[1..]| && s[1..][m] == t[k];
            assert s[m + 1] == t[k];
          }
        }
      }
      [s[0]] + t
  }

  /** `Array.from(new Set(quotes.map(q => q.category))).sort()`. */
  function Categories(qs: seq<Quote>): (r: seq<string>)
    ensures Sorted(r)
    ensures forall c :: c in r <==> exists q :: q in qs && q.category == c
    decreases |qs|
  {
    if |qs| == 0 then []
    else
      var r := Insert(Categories(qs[1..]), qs[0].category);
      assert forall q :: q in qs <==> q == qs[0] || q in qs[1..];
      r
  }

  lemma HeadIsMember(b: seq<string>)
    ensures |b| > 0 ==> b[0] in b
  {
  }

  /** Two strictly sorted lists with the same elements are the same list, so
      the category list does not depend on how it is built. */
  lemma {:induction false} SortedUnique(a: seq<string>, b: seq<string>)
    requires Sorted(a) && Sorted(b)
    requires forall x :: x in a <==> x in b
    ensures a == b
    decreases |a|
  {
    if |a| == 0 {
      HeadIsMember(b);
    } else {
      assert a[0] in a;
      assert a[0] in b;
      assert b[0] in b;
      var i :| 0 <= i < |a| && a[i] == b[0];
      var j :| 0 <= j < |b| && b[j] == a[0];
      if i > 0 {
        if j > 0 {
          LessAsymmetric(a[0], a[i]);
        } else {
          LessIrreflexive(a[0]);
        }
      } else if j > 0 {
        LessIrreflexive(b[0]);
      }
      assert a[0] == b[0];
      forall x ensures x in a[1..] <==> x in b[1..] {
        if x in a[1..] {
          var k :| 0 <= k < |a[1..]| && a[1..][k] == x;
          assert a[k + 1] == x && Less(a[0], x);
          LessIrreflexive(x);
          assert x in b;
        }
        if x in b[1..] {
          var k :| 0 <= k < |b[1..]| && b[1..][k] == x;
          assert b[k + 1] == x && Less(b[0], x);
          LessIrreflexive(x);
          assert x in a;
        }
      }
      SortedUnique(a[1..], b[1..]);
      assert a == [a[0]] + a[1..] && b == [b[0]] + b[1..];
    }
  }

  /** `quotes.filter(q => q.category === c).length`. */
  function CategoryCount(qs: seq<Quote>, c: string): nat {
    |Filter(qs, (q: Quote) => q.category == c)|
  }

  function SumCounts(qs: seq<Quote>, cs: seq<string>): nat
    decreases |cs|
  {
    if |cs| == 0 then 0 else CategoryCount(qs, cs[0]) + SumCounts(qs, cs[1..])
  }

  lemma CategoryCountCons(q: Quote, rest: seq<Quote>, c: string)
    ensures CategoryCount([q] + rest, c) == CategoryCount(rest, c) + (if q.category == c then 1 else 0)
  {
    assert ([q] + rest)[1..] == rest;
  }

  lemma {:induction false} SumCountsEmpty(cs: seq<string>)
    ensures SumCounts([], cs) == 0
    decreases |cs|
  {
    if |cs| > 0 { SumCountsEmpty(cs[1..]); }
  }

  lemma {:induction false} SumCountsCons(q: Quote, rest: seq<Quote>, cs: seq<string>)
    ensures SumCounts([q] + rest, cs) == SumCounts(rest, cs) + Count(cs, q.category)
    decreases |cs|
  {
    if |cs| > 0 {
      CategoryCountCons(q, rest, cs[0]);
      SumCountsCons(q, rest, cs[1..]);
    }
  }

  lemma {:induction false} CountOnce(cs: seq<string>, c: string)
    requires NoDup(cs) && c in cs
    ensures Count(cs, c) == 1
    decreases |cs|
  {
    if cs[0] == c {
      assert c !in cs[1..] by {
        forall k | 0 <= k < |cs[1..]| ensures cs[1..][k] != c { assert cs[1..][k] == cs[k + 1]; }
      }
    } else {
      assert NoDup(cs[1..]) by {
        forall i, j | 0 <= i < j < |cs[1..]| ensures cs[1..][i] != cs[1..][j] {
          assert cs[1..][i] == cs[i + 1] && cs[1..][j] == cs[j + 1];
        }
      }
      CountOnce(cs[1..], c);
    }
  }

  /** Counting the quotes of each listed category accounts for every quote
      exactly once, whenever the list is duplicate-free and covers every
      category in use. */
  lemma {:induction false} SumCountsCovering(qs: seq<Quote>, cs: seq<string>)
    requires NoDup(cs)
    requires forall q :: q in qs ==> q.category in cs
    ensures SumCounts(qs, cs) == |qs|
    decreases |qs|
  {
    if |qs| == 0 {
      SumCountsEmpty(cs);
    } else {
      assert qs == [qs[0]] + qs[1..];
      SumCountsCons(qs[0], qs[1..], cs);
      CountOnce(cs, qs[0].category);
      SumCountsCovering(qs[1..], cs);
    }
  }

  /** The collections screen lists every category exactly once, each with a
      positive count, and the counts add up to the size of the dataset. */
  lemma CategoryCountsPartition(qs: seq<Quote>)
    ensures NoDup(Categories(qs))
    ensures forall k :: 0 <= k < |Categories(qs)| ==> CategoryCount(qs, Categories(qs)[k]) > 0
    ensures SumCounts(qs, Categories(qs)) == |qs|
  {
    var cs := Categories(qs);
    SortedNoDup(cs);
    forall k | 0 <= k < |cs| ensures CategoryCount(qs, cs[k]) > 0 {
      assert cs[k] in cs;
      var q :| q in qs && q.category == cs[k];
      var i :| 0 <= i < |qs| && qs[i] == q;
      assert qs[i] in Filter(qs, (q: Quote) => q.category == cs[k]);
    }
    SumCountsCovering(qs, cs);
  }

  /** `quotesData.filter(quote => favorites.includes(quote.id))`. */
  function FavoriteQuotes(qs: seq<Quote>, favorites: seq<string>): (r: seq<Quote>)
    ensures Subseq(r, qs)
    ensures forall q :: q in r <==> q in qs && q.id in favorites
  {
    Filter(qs, (q: Quote) => q.id in favorites)
  }

  /** The list follows the dataset order, not the order in which quotes were
      favourited. */
  lemma FavoritesInDatasetOrder()
    ensures
      var a := Quote("a", "", "", ""); var b := Quote("b", "", "", "");
      FavoriteQuotes([a, b], ["b", "a"]) == [a, b]
  {
    var a := Quote("a", "", "", "");
    var b := Quote("b", "", "", "");
    var p := (q: Quote) => q.id in ["b", "a"];
    assert [a, b][1..] == [b];
    assert [b][1..] == [];
    assert Filter([a, b], p) == [a] + Filter([b], p);
  }

  /** The trash button toggles an id that is listed, which is therefore a
      favourite; after the toggle no quote with that id is listed. */
  lemma RemoveDropsQuote(qs: seq<Quote>, favorites: seq<string>, q: Quote)
    requires q in FavoriteQuotes(qs, favorites)
    ensures q.id in favorites
    ensures forall p :: p in FavoriteQuotes(qs, Toggle(favorites, q.id)) ==> p.id != q.id
    ensures forall p :: p in FavoriteQuotes(qs, favorites) && p.id != q.id ==> p in FavoriteQuotes(qs, Toggle(favorites, q.id))
  {
    forall p | p in FavoriteQuotes(qs, favorites) && p.id != q.id
      ensures p in FavoriteQuotes(qs, Toggle(favorites, q.id))
    {
      var i :| 0 <= i < |favorites| && favorites[i] == p.id;
    }
  }
}
