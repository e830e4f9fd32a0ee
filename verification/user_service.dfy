/** The backend's user table: a user per identity-provider id, synchronised
    from the token's claims on each request. */
module UserService {
  import opened Wrappers

  /** A user row. `email` and `displayName` are nullable columns; `updatedAt`
      is `None` until `syncUser` first stamps it. */
  datatype User = User(id: nat, keycloakId: string, email: Option<string>, displayName: Option<string>, updatedAt: Option<int>)

  datatype UserRepo = UserRepo(rows: seq<User>, nextId: nat)

  datatype ServiceError = IllegalArgument(message: string)

  /** The `keycloak_id` column is unique. */
  predicate Valid(repo: UserRepo) {
    forall i, j :: 0 <= i < j < |repo.rows| ==> repo.rows[i].keycloakId != repo.rows[j].keycloakId
  }

  predicate Known(repo: UserRepo, keycloakId: string) {
    exists i :: 0 <= i < |repo.rows| && repo.rows[i].keycloakId == keycloakId
  }

  /** `findByKeycloakId`: the position of the first row with that id. */
  function Find(rows: seq<User>, keycloakId: string): (r: Option<nat>)
    ensures r.Some? ==> r.value < |rows| && rows[r.value].keycloakId == keycloakId
    ensures r.None? <==> forall j :: 0 <= j < |rows| ==> rows[j].keycloakId != keycloakId
  {
    if |rows| == 0 then None
    else if rows[0].keycloakId == keycloakId then Some(0)
    else
      var r := Find(rows[1..], keycloakId);
      if r.Some? then Some(r.value + 1) else None
  }

  /** The value a nullable argument leaves in a field: a non-null argument replaces it. */
  function Refresh(current: Option<string>, arg: Option<string>): (r: Option<string>)
    ensures arg.None? ==> r == current
    ensures arg.Some? ==> r == arg
  {
    if arg.Some? && arg != current then arg else current
  }

  /** Whether a nullable argument differs from the field (`!arg.equals(field)`). */
  predicate Changes(current: Option<string>, arg: Option<string>) {
    arg.Some? && arg != current
  }

  /** How `syncUser` turns an existing row into the returned user: same id,
      each field refreshed, saved iff a field changed, stamped iff saved. */
  predicate SyncedFrom(before: User, after: User, saved: bool, email: Option<string>, displayName: Option<string>, now: int) {
    && after.id == before.id
    && after.keycloakId == before.keycloakId
    && after.email == Refresh(before.email, email)
    && after.displayName == Refresh(before.displayName, displayName)
    && saved == (Changes(before.email, email) || Changes(before.displayName, displayName))
    && after.updatedAt == (if saved then Some(now) else before.updatedAt)
  }

  /** `syncUser(keycloakId, email, displayName)` at time `now`: an existing
      user takes each non-null argument that differs, and is stamped and saved
      only if something changed; an unknown id gets a new row. Returns the
      table, the user, and whether `save` was called. */
  function SyncUser(repo: UserRepo, keycloakId: string, email: Option<string>, displayName: Option<string>, now: int): (r: (UserRepo, User, bool))
    ensures r.1.keycloakId == keycloakId
    ensures Known(r.0, keycloakId)
    ensures !Known(repo, keycloakId) ==>
      && r.1 == User(repo.nextId, keycloakId, email, displayName, None)
      && r.0.rows == repo.rows + [r.1] && r.0.nextId == repo.nextId + 1 && r.2
    ensures Known(repo, keycloakId) ==> |r.0.rows| == |repo.rows| && r.0.nextId == repo.nextId
    ensures Known(repo, keycloakId) ==>
      exists i :: 0 <= i < |repo.rows| && repo.rows[i].keycloakId == keycloakId
        && SyncedFrom(repo.rows[i], r.1, r.2, email, displayName, now) && r.0.rows == repo.rows[i := r.1]
    ensures Valid(repo) ==> Valid(r.0)
  {
    var found := Find(repo.rows, keycloakId);
    if found.Some? then
      var existing := repo.rows[found.value];
      var updated := Changes(existing.email, email) || Changes(existing.displayName, displayName);
      if updated then
        var user := existing.(email := Refresh(existing.email, email),
                              displayName := Refresh(existing.displayName, displayName),
                              updatedAt := Some(now));
        var rows := repo.rows[found.value := user];
        assert rows[found.value].keycloakId == keycloakId;
        (UserRepo(rows, repo.nextId), user, true)
      else (repo, existing, false)
    else
      var user := User(repo.nextId, keycloakId, email, displayName, None);
      var rows := repo.rows + [user];
      assert rows[|repo.rows|].keycloakId == keycloakId;
      (UserRepo(rows, repo.nextId + 1), user, true)
  }

  /** `getUserByKeycloakId`: the row, or the "not found" error. */
  function GetUserByKeycloakId(repo: UserRepo, keycloakId: string): (r: Result<User, ServiceError>)
    ensures r.Success? <==> Known(repo, keycloakId)
    ensures r.Success? ==> r.value in repo.rows && r.value.keycloakId == keycloakId
    ensures r.Failure? ==> r.error == IllegalArgument("User not found for ID: " + keycloakId)
  {
    var found := Find(repo.rows, keycloakId);
    if found.Some? then Success(repo.rows[found.value])
    else Failure(IllegalArgument("User not found for ID: " + keycloakId))
  }

  /** Null arguments never clear a field, and never cause a save. */
  lemma NullArgumentsChangeNothing(repo: UserRepo, keycloakId: string, now: int)
    requires Known(repo, keycloakId)
    ensures SyncUser(repo, keycloakId, None, None, now).0 == repo
    ensures !SyncUser(repo, keycloakId, None, None, now).2
  {
  }

  /** The same sync twice: the second call saves nothing and changes nothing. */
  lemma SyncTwice(repo: UserRepo, keycloakId: string, email: Option<string>, displayName: Option<string>, t1: int, t2: int)
    requires Valid(repo)
    ensures var (r1, u1, _) := SyncUser(repo, keycloakId, email, displayName, t1);
      var (r2, u2, saved) := SyncUser(r1, keycloakId, email, displayName, t2);
      r2 == r1 && u2 == u1 && !saved
  {
    var (r1, u1, _) := SyncUser(repo, keycloakId, email, displayName, t1);
    var i := Find(r1.rows, keycloakId).value;
    SyncedRowIsFound(repo, keycloakId, email, displayName, t1, i);
  }

  lemma SyncedRowIsFound(repo: UserRepo, keycloakId: string, email: Option<string>, displayName: Option<string>, now: int, i: nat)
    requires Valid(repo)
    requires var r1 := SyncUser(repo, keycloakId, email, displayName, now).0;
      i < |r1.rows| && r1.rows[i].keycloakId == keycloakId
    ensures var (r1, u1, _) := SyncUser(repo, keycloakId, email, displayName, now);
      r1.rows[i] == u1
  {
    var (r1, u1, _) := SyncUser(repo, keycloakId, email, displayName, now);
    assert Valid(r1);
    if Known(repo, keycloakId) {
      var k :| 0 <= k < |repo.rows| && repo.rows[k].keycloakId == keycloakId && r1.rows == repo.rows[k := u1];
      assert r1.rows[k] == u1;
    } else {
      assert r1.rows[|repo.rows|] == u1;
    }
  }

  /** A sync followed by a lookup finds the synced user. */
  lemma SyncThenGet(repo: UserRepo, keycloakId: string, email: Option<string>, displayName: Option<string>, now: int)
    requires Valid(repo)
    ensures var (r1, u1, _) := SyncUser(repo, keycloakId, email, displayName, now);
      GetUserByKeycloakId(r1, keycloakId) == Success(u1)
  {
    var r1 := SyncUser(repo, keycloakId, email, displayName, now).0;
    var i := Find(r1.rows, keycloakId).value;
    SyncedRowIsFound(repo, keycloakId, email, displayName, now, i);
  }
}
