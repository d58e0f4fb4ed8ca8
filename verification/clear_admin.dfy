/**
 * The one-off admin cleanup (src/utils/clearAdminData.js), which works on the raw
 * browser storage rather than through the account store: the stored user list may
 * be missing or unreadable, and the session pointer may be missing.
 */
module ClearAdmin {
  import opened Wrappers
  import opened Seqs
  import opened Text
  import opened Records

  /** The `vitech_users` entry: absent or empty (read as `[]`), unreadable, or a parsed list. */
  datatype UsersEntry = Absent | Corrupt | Parsed(users: seq<User>)

  /** The two storage entries the cleanup touches; `pointer` is `vitech_current_user`. */
  datatype Raw = Raw(users: UsersEntry, pointer: Option<string>)

  const NO_SESSION := "null"

  /** The user list the cleanup reads, when it can read one. */
  function StoredUsers(e: UsersEntry): (r: seq<User>)
    requires !e.Corrupt?
    ensures e.Absent? ==> r == []
    ensures e.Parsed? ==> r == e.users
  {
    if e.Absent? then [] else e.users
  }

  /** The first stored user whose `id.toString()` is the pointer text. */
  function PointedUser(users: seq<User>, pointer: string): (r: Option<User>)
    ensures r.Some? ==> r.value in users && IntToString(r.value.id) == pointer
    ensures r.Some? ==> exists i :: (0 <= i < |users| && users[i] == r.value
      && forall j :: 0 <= j < i ==> IntToString(users[j].id) != pointer)
    ensures r.None? <==> forall j :: 0 <= j < |users| ==> IntToString(users[j].id) != pointer
  {
    Find(users, (u: User) => IntToString(u.id) == pointer)
  }

  /** The pointer is set, is not the text `null`, and names an admin in the given list. */
  predicate PointsAtAdmin(users: seq<User>, pointer: Option<string>) {
    && pointer.Some? && pointer.value != "" && pointer.value != NO_SESSION
    && PointedUser(users, pointer.value).Some?
    && PointedUser(users, pointer.value).value.username == ADMIN
  }

  /**
   * `clearAdminData()`: an unreadable list makes it return `false` before any write.
   * Otherwise the list is written back without the users named exactly `admin`, and
   * the pointer is reset to `null` exactly when it named an admin of the list as it
   * was before filtering.
   */
  function ClearAdminData(raw: Raw): (r: (Raw, bool))
    ensures !r.1 <==> raw.users.Corrupt?
    ensures !r.1 ==> r.0 == raw
    ensures r.1 ==> r.0.users == Parsed(RemoveAdmins(StoredUsers(raw.users)))
    ensures r.1 && PointsAtAdmin(StoredUsers(raw.users), raw.pointer) ==> r.0.pointer == Some(NO_SESSION)
    ensures r.1 && !PointsAtAdmin(StoredUsers(raw.users), raw.pointer) ==> r.0.pointer == raw.pointer
  {
    if raw.users.Corrupt? then (raw, false)
    else
      var users := StoredUsers(raw.users);
      var pointer := if PointsAtAdmin(users, raw.pointer) then Some(NO_SESSION) else raw.pointer;
      (Raw(Parsed(RemoveAdmins(users)), pointer), true)
  }

  /** No pointer can name an admin of a list without admins. */
  lemma NoAdminToPoint(users: seq<User>, pointer: Option<string>)
    requires forall i :: 0 <= i < |users| ==> users[i].username != ADMIN
    ensures !PointsAtAdmin(users, pointer)
  {
    if pointer.Some? {
      var found := PointedUser(users, pointer.value);
      if found.Some? {
        var i :| 0 <= i < |users| && users[i] == found.value;
      }
    }
  }

  /** A second cleanup changes nothing. */
  lemma ClearAdminIdempotent(raw: Raw)
    requires !raw.users.Corrupt?
    ensures ClearAdminData(ClearAdminData(raw).0) == (ClearAdminData(raw).0, true)
  {
    var once := ClearAdminData(raw).0;
    var kept := RemoveAdmins(StoredUsers(raw.users));
    RemoveAdminsIdempotent(StoredUsers(raw.users));
    NoAdminToPoint(kept, once.pointer);
  }

  /** After a cleanup the session pointer refers to no admin of the stored list. */
  lemma ClearedPointerNamesNoAdmin(raw: Raw)
    requires !raw.users.Corrupt?
    ensures var once := ClearAdminData(raw).0;
      !PointsAtAdmin(once.users.users, once.pointer)
  {
    var once := ClearAdminData(raw).0;
    NoAdminToPoint(once.users.users, once.pointer);
  }
}
