/** The backend's favourites table (`user_favorites`): one row per
    (user, item type, item id), with generated row ids. */
module InteractionService {
  import opened Wrappers
  import opened Seqs

  datatype ItemType = QuoteItem | BookItem | MovieItem

  /** The row's natural key: the columns of its unique constraint. */
  datatype Triple = Triple(userId: string, itemType: ItemType, itemId: int)

  datatype UserFavorite = UserFavorite(id: nat, key: Triple)

  /** The repository: its rows, in insertion order, and the next identity value. */
  datatype FavoriteRepo = FavoriteRepo(rows: seq<UserFavorite>, nextId: nat)

  /** At most one row per triple, and distinct row ids below the next identity. */
  predicate Valid(repo: FavoriteRepo) {
    && (forall i, j :: 0 <= i < j < |repo.rows| ==> repo.rows[i].key != repo.rows[j].key)
    && (forall i :: 0 <= i < |repo.rows| ==> repo.rows[i].id < repo.nextId)
    && (forall i, j :: 0 <= i < j < |repo.rows| ==> repo.rows[i].id != repo.rows[j].id)
  }

  predicate HasTriple(repo: FavoriteRepo, t: Triple) {
    exists i :: 0 <= i < |repo.rows| && repo.rows[i].key == t
  }

  /** `findByUserIdAndItemTypeAndItemId`: the position of the first row with that key. */
  function Find(rows: seq<UserFavorite>, t: Triple): (r: Option<nat>)
    ensures r.Some? ==> r.value < |rows| && rows[r.value].key == t
    ensures r.Some? ==> forall j :: 0 <= j < r.value ==> rows[j].key != t
    ensures r.None? <==> forall j :: 0 <= j < |rows| ==> rows[j].key != t
  {
    if |rows| == 0 then None
    else if rows[0].key == t then Some(0)
    else
      var r := Find(rows[1..], t);
      if r.Some? then Some(r.value + 1) else None
  }

  /** `addFavorite`: the existing row when the triple is present; otherwise a
      new row is saved with the next identity value. */
  function AddFavorite(repo: FavoriteRepo, t: Triple): (r: (FavoriteRepo, UserFavorite))
    ensures r.1.key == t
    ensures HasTriple(repo, t) ==> r.0 == repo && r.1 in repo.rows
    ensures !HasTriple(repo, t) ==> r.0.rows == repo.rows + [r.1] && r.1.id == repo.nextId
    ensures Valid(repo) ==> Valid(r.0)
  {
    var found := Find(repo.rows, t);
    if found.Some? then (repo, repo.rows[found.value])
    else
      var row := UserFavorite(repo.nextId, t);
      (FavoriteRepo(repo.rows + [row], repo.nextId + 1), row)
  }

  /** `removeFavorite`: delete the matching row if there is one. */
  function RemoveFavorite(repo: FavoriteRepo, t: Triple): (r: FavoriteRepo)
    ensures !HasTriple(repo, t) ==> r == repo
    ensures HasTriple(repo, t) ==> |r.rows| == |repo.rows| - 1 && Subseq(r.rows, repo.rows)
    ensures r.nextId == repo.nextId
  {
    var found := Find(repo.rows, t);
    if found.Some? then
      var i := found.value;
      DropIsSubseq(repo.rows, i);
      FavoriteRepo(repo.rows[..i] + repo.rows[i + 1..], repo.nextId)
    else repo
  }

  /** The rows left after dropping position `i`, by position. */
  lemma DropAt(rows: seq<UserFavorite>, i: nat)
    requires i < |rows|
    ensures var d := rows[..i] + rows[i + 1..];
      |d| == |rows| - 1 && forall k :: 0 <= k < |d| ==> d[k] == (if k < i then rows[k] else rows[k + 1])
  {
  }

  /** Removal keeps the table valid, drops the triple, and keeps every other triple. */
  lemma RemoveFavoriteFacts(repo: FavoriteRepo, t: Triple)
    requires Valid(repo)
    ensures Valid(RemoveFavorite(repo, t))
    ensures !HasTriple(RemoveFavorite(repo, t), t)
    ensures forall u :: u != t ==> (HasTriple(RemoveFavorite(repo, t), u) <==> HasTriple(repo, u))
  {
    var found := Find(repo.rows, t);
    if found.Some? {
      var i := found.value;
      var r := RemoveFavorite(repo, t);
      DropAt(repo.rows, i);
      DropKeepsValid(repo, i);
      DropRemovesKey(repo, i);
      forall u | u != t ensures HasTriple(r, u) <==> HasTriple(repo, u) {
        DropKeepsOtherKey(repo, i, u);
      }
    }
  }

  lemma DropKeepsValid(repo: FavoriteRepo, i: nat)
    requires Valid(repo) && i < |repo.rows|
    ensures Valid(FavoriteRepo(repo.rows[..i] + repo.rows[i + 1..], repo.nextId))
  {
    DropAt(repo.rows, i);
  }

  lemma DropRemovesKey(repo: FavoriteRepo, i: nat)
    requires Valid(repo) && i < |repo.rows|
    ensures !HasTriple(FavoriteRepo(repo.rows[..i] + repo.rows[i + 1..], repo.nextId), repo.rows[i].key)
  {
    var d := repo.rows[..i] + repo.rows[i + 1..];
    DropAt(repo.rows, i);
    forall k | 0 <= k < |d| ensures d[k].key != repo.rows[i].key {
      if k >= i { assert d[k] == repo.rows[k + 1]; }
    }
  }

  lemma DropKeepsOtherKey(repo: FavoriteRepo, i: nat, u: Triple)
    requires i < |repo.rows| && u != repo.rows[i].key
    ensures HasTriple(FavoriteRepo(repo.rows[..i] + repo.rows[i + 1..], repo.nextId), u) <==> HasTriple(repo, u)
  {
    var d := repo.rows[..i] + repo.rows[i + 1..];
    DropAt(repo.rows, i);
    if HasTriple(repo, u) {
      var k :| 0 <= k < |repo.rows| && repo.rows[k].key == u;
      if k < i { assert d[k].key == u; } else { assert d[k - 1].key == u; }
    }
    if exists k :: 0 <= k < |d| && d[k].key == u {
      var k :| 0 <= k < |d| && d[k].key == u;
      if k < i { assert repo.rows[k].key == u; } else { assert repo.rows[k + 1].key == u; }
    }
  }

  function OwnedBy(userId: string): UserFavorite -> bool {
    (row: UserFavorite) => row.key.userId == userId
  }

  /** `getUserFavorites(user)`: exactly that user's rows, each as often as
      the table holds it; the model lists them in table order. */
  function GetUserFavorites(repo: FavoriteRepo, userId: string): (r: seq<UserFavorite>)
    ensures forall k :: 0 <= k < |r| ==> r[k].key.userId == userId && r[k] in repo.rows
    ensures forall k :: 0 <= k < |repo.rows| && repo.rows[k].key.userId == userId ==> repo.rows[k] in r
    ensures forall x :: Count(r, x) == (if x.key.userId == userId then Count(repo.rows, x) else 0)
    ensures Subseq(r, repo.rows)
  {
    Filter(repo.rows, OwnedBy(userId))
  }

  lemma FilterSingle(x: UserFavorite, p: UserFavorite -> bool)
    ensures Filter([x], p) == (if p(x) then [x] else [])
  {
    assert [x][1..] == [];
  }

  /** Listing after an add: the owner's list gains the new row at the end
      when the triple was new; every other list, and a repeated add, leave
      the listing as it was. */
  lemma AddThenList(repo: FavoriteRepo, t: Triple, userId: string)
    ensures var (r1, f) := AddFavorite(repo, t);
      GetUserFavorites(r1, userId)
        == if !HasTriple(repo, t) && userId == t.userId then GetUserFavorites(repo, userId) + [f]
           else GetUserFavorites(repo, userId)
  {
    var (r1, f) := AddFavorite(repo, t);
    if !HasTriple(repo, t) {
      FilterAppend(repo.rows, [f], OwnedBy(userId));
      FilterSingle(f, OwnedBy(userId));
    }
  }

  /** Filtering a table cut around one row: the part before it, the row's own
      contribution, the part after it. */
  lemma FilterAround(before: seq<UserFavorite>, row: UserFavorite, after: seq<UserFavorite>, p: UserFavorite -> bool)
    ensures Filter(before + [row] + after, p) == Filter(before, p) + (if p(row) then [row] else []) + Filter(after, p)
  {
    FilterAppend(before + [row], after, p);
    FilterAppend(before, [row], p);
    FilterSingle(row, p);
  }

  /** Filtering the table is filtering the rows before `i`, then row `i`'s
      own contribution, then the rows after it. */
  lemma FilterSplitAt(rows: seq<UserFavorite>, i: nat, p: UserFavorite -> bool)
    requires i < |rows|
    ensures Filter(rows, p) == Filter(rows[..i], p) + (if p(rows[i]) then [rows[i]] else []) + Filter(rows[i + 1..], p)
  {
    CutAt(rows, i);
    FilterAround(rows[..i], rows[i], rows[i + 1..], p);
  }

  /** Filtering the table with row `i` dropped is filtering it whole with
      that row's contribution taken out. */
  lemma FilterDrop(rows: seq<UserFavorite>, i: nat, p: UserFavorite -> bool)
    requires i < |rows|
    ensures Filter(rows, p) == Filter(rows[..i], p) + (if p(rows[i]) then [rows[i]] else []) + Filter(rows[i + 1..], p)
    ensures Filter(rows[..i] + rows[i + 1..], p) == Filter(rows[..i], p) + Filter(rows[i + 1..], p)
  {
    FilterSplitAt(rows, i, p);
    FilterAppend(rows[..i], rows[i + 1..], p);
  }

  /** Listing after a remove: the triple is gone from every list. */
  lemma RemoveThenListDropsTriple(repo: FavoriteRepo, t: Triple, userId: string)
    requires Valid(repo)
    ensures var l := GetUserFavorites(RemoveFavorite(repo, t), userId);
      forall k :: 0 <= k < |l| ==> l[k].key != t
  {
    var after := RemoveFavorite(repo, t);
    RemoveFavoriteFacts(repo, t);
    var l := GetUserFavorites(after, userId);
    forall k | 0 <= k < |l| ensures l[k].key != t {
      assert l[k] in after.rows;
    }
  }

  /** Listing after removing the row at `i`: the other parts of the list stay. */
  lemma RemovedAt(repo: FavoriteRepo, t: Triple, userId: string, i: nat)
    requires Find(repo.rows, t) == Some(i)
    ensures var l := GetUserFavorites(RemoveFavorite(repo, t), userId);
      var p := OwnedBy(userId);
      && l == Filter(repo.rows[..i], p) + Filter(repo.rows[i + 1..], p)
      && GetUserFavorites(repo, userId) == Filter(repo.rows[..i], p) + (if userId == t.userId then [repo.rows[i]] else []) + Filter(repo.rows[i + 1..], p)
  {
    FilterDrop(repo.rows, i, OwnedBy(userId));
  }

  /** Listing after a remove: when the triple was there, its owner's list
      loses exactly that row. */
  lemma RemoveThenListOwner(repo: FavoriteRepo, t: Triple)
    requires HasTriple(repo, t)
    ensures |GetUserFavorites(RemoveFavorite(repo, t), t.userId)| == |GetUserFavorites(repo, t.userId)| - 1
  {
    var i := Find(repo.rows, t).value;
    RemovedAt(repo, t, t.userId, i);
  }

  /** Listing after a remove: every other list, and every list when the
      triple was absent, is unchanged. */
  lemma RemoveThenListOthers(repo: FavoriteRepo, t: Triple, userId: string)
    requires !HasTriple(repo, t) || userId != t.userId
    ensures GetUserFavorites(RemoveFavorite(repo, t), userId) == GetUserFavorites(repo, userId)
  {
    var found := Find(repo.rows, t);
    if found.Some? {
      RemovedAt(repo, t, userId, found.value);
    }
  }

  /** Adding is idempotent: a second add of the same triple returns the same
      row and changes nothing. */
  lemma AddTwice(repo: FavoriteRepo, t: Triple)
    ensures var (r1, f1) := AddFavorite(repo, t);
      AddFavorite(r1, t) == (r1, f1)
  {
    var (r1, f1) := AddFavorite(repo, t);
    if !HasTriple(repo, t) {
      assert r1.rows[|repo.rows|] == f1;
      var found := Find(r1.rows, t);
      assert found.value == |repo.rows|;
    }
  }

  /** Add then remove leaves the triple absent and every other triple as it was. */
  lemma AddThenRemove(repo: FavoriteRepo, t: Triple)
    requires Valid(repo)
    ensures var after := RemoveFavorite(AddFavorite(repo, t).0, t);
      && !HasTriple(after, t)
      && forall u :: u != t ==> (HasTriple(after, u) <==> HasTriple(repo, u))
  {
    var r1 := AddFavorite(repo, t).0;
    RemoveFavoriteFacts(r1, t);
    forall u | u != t ensures HasTriple(r1, u) <==> HasTriple(repo, u) {
      if HasTriple(r1, u) && !HasTriple(repo, t) {
        var k :| 0 <= k < |r1.rows| && r1.rows[k].key == u;
        assert k < |repo.rows|;
        assert repo.rows[k].key == u;
      }
      if HasTriple(repo, u) {
        var k :| 0 <= k < |repo.rows| && repo.rows[k].key == u;
        assert r1.rows[k].key == u;
      }
    }
  }
}
