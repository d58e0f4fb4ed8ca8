/**
 * The local account store (src/services/dataService.js): a `users` list and a
 * session-pointer string held in the browser's key/value storage, with
 * read-modify-write CRUD on users and on each user's addresses and payment methods.
 *
 * Every operation is a function from the store to the new store and its result.
 * Ids and timestamps (`Date.now()`, `new Date().toISOString()`) are parameters.
 */
module DataService {
  import opened Wrappers
  import opened Seqs
  import opened Text
  import opened Records
  import opened Items

  /** The two persisted keys: `vitech_users` and `vitech_current_user`. */
  datatype Store = Store(users: seq<User>, pointer: string)

  /** The pointer value meaning "nobody is signed in". */
  const NO_SESSION := "null"

  /** The two per-user sub-collections. */
  datatype Collection = Addresses | PaymentMethods

  function ItemsOf(u: User, c: Collection): seq<Item> {
    match c
    case Addresses => u.addresses
    case PaymentMethods => u.paymentMethods
  }

  function WithItems(u: User, c: Collection, items: seq<Item>): (r: User)
    ensures ItemsOf(r, c) == items
  {
    match c
    case Addresses => u.(addresses := items)
    case PaymentMethods => u.(paymentMethods := items)
  }

  // ---------------------------------------------------------------------------
  // Initialisation
  // ---------------------------------------------------------------------------

  /**
   * `initializeDefaultData` on whatever the medium holds: `None` is a missing (or
   * empty) entry. A missing list becomes `[]`, a missing pointer `'null'`, then
   * `removeAdminAccount` runs.
   */
  function Initialize(users: Option<seq<User>>, pointer: Option<string>): (s: Store)
    ensures s.users == RemoveAdmins(users.GetOr([]))
    ensures forall i :: 0 <= i < |s.users| ==> s.users[i].username != ADMIN
    ensures pointer.None? || pointer.value == "" ==> s.pointer == NO_SESSION
    ensures pointer.Some? && pointer.value != "" ==> s.pointer == pointer.value
  {
    var p := if pointer.None? || pointer.value == "" then NO_SESSION else pointer.value;
    RemoveAdminAccount(Store(users.GetOr([]), p))
  }

  /** `clearAllData`: both keys removed, then re-initialised. */
  function ClearAllData(s: Store): (r: Store)
    ensures r == Store([], NO_SESSION)
  {
    Initialize(None, None)
  }

  /**
   * `removeAdminAccount`. The logout branch looks the session up in the list the
   * admins were already removed from, so it can never fire: the pointer is kept
   * even when it named a removed admin.
   */
  function RemoveAdminAccount(s: Store): (r: Store)
    ensures r.users == RemoveAdmins(s.users)
    ensures r.pointer == s.pointer
  {
    var filtered := Store(RemoveAdmins(s.users), s.pointer);
    match GetCurrentUser(filtered)
    case Active(u) => if u.username == ADMIN then ClearCurrentUser(filtered) else filtered
    case _ => filtered
  }

  // ---------------------------------------------------------------------------
  // Users
  // ---------------------------------------------------------------------------

  /** `getAllUsers`: the whole list, in storage order. */
  function AllUsers(s: Store): seq<User> {
    s.users
  }

  /** The lookups search the listed users: an id is found exactly when a listed user has it. */
  lemma AllUsersListsLookups(s: Store, id: int, email: string)
    ensures GetUserById(s, id).Some? <==> exists i :: 0 <= i < |AllUsers(s)| && AllUsers(s)[i].id == id
    ensures GetUserById(s, id).Some? ==> GetUserById(s, id).value in AllUsers(s)
    ensures GetUserByEmail(s, email).Some? ==> GetUserByEmail(s, email).value in AllUsers(s)
  {
    if exists i :: 0 <= i < |AllUsers(s)| && AllUsers(s)[i].id == id {
      var i :| 0 <= i < |AllUsers(s)| && AllUsers(s)[i].id == id;
      assert s.users[i].id == id;
    }
    if UserIndex(s, id).Some? {
      var k := UserIndex(s, id).value;
      assert AllUsers(s)[k].id == id;
    }
  }

  /** Index of the first user with the given id (`findIndex(user => user.id === id)`). */
  function UserIndex(s: Store, id: int): (r: Option<nat>)
    ensures r.Some? ==> r.value < |s.users| && s.users[r.value].id == id
    ensures r.Some? ==> forall j :: 0 <= j < r.value ==> s.users[j].id != id
    ensures r.None? <==> forall j :: 0 <= j < |s.users| ==> s.users[j].id != id
  {
    FirstIndex(s.users, (u: User) => u.id == id)
  }

  /** `getUserById`: the first user with that id. */
  function GetUserById(s: Store, id: int): (r: Option<User>)
    ensures r.None? <==> UserIndex(s, id).None?
    ensures r.Some? ==> r.value == s.users[UserIndex(s, id).value]
  {
    match UserIndex(s, id)
    case None => None
    case Some(i) => Some(s.users[i])
  }

  /** The username comparison of `getUserByUsername`: a stored empty username never matches. */
  predicate SameUsername(stored: string, query: string) {
    stored != "" && Normalize(stored) == Normalize(query)
  }

  /** User `i` is the first whose username matches the query. */
  ghost predicate FirstUsernameMatch(s: Store, name: string, i: int) {
    && 0 <= i < |s.users|
    && SameUsername(s.users[i].username, name)
    && forall j :: 0 <= j < i ==> !SameUsername(s.users[j].username, name)
  }

  /** `getUserByUsername`: first user whose trimmed, lower-cased username equals the query's. */
  function GetUserByUsername(s: Store, name: string): (r: Option<User>)
    ensures r.Some? ==> r.value in s.users && SameUsername(r.value.username, name)
    ensures r.Some? ==> exists i :: FirstUsernameMatch(s, name, i) && s.users[i] == r.value
    ensures r.None? <==> forall j :: 0 <= j < |s.users| ==> !SameUsername(s.users[j].username, name)
  {
    var q := Normalize(name);
    var i := FirstIndex(s.users, (u: User) => u.username != "" && Normalize(u.username) == q);
    if i.None? then None
    else
      assert FirstUsernameMatch(s, name, i.value);
      Some(s.users[i.value])
  }

  /** User `i` is the first whose email is exactly the query. */
  ghost predicate FirstEmailMatch(s: Store, email: string, i: int) {
    && 0 <= i < |s.users|
    && s.users[i].email == email
    && forall j :: 0 <= j < i ==> s.users[j].email != email
  }

  /** `getUserByEmail`: first user whose email is exactly (case-sensitively) the query. */
  function GetUserByEmail(s: Store, email: string): (r: Option<User>)
    ensures r.Some? ==> r.value in s.users && r.value.email == email
    ensures r.Some? ==> exists i :: FirstEmailMatch(s, email, i) && s.users[i] == r.value
    ensures r.None? <==> forall j :: 0 <= j < |s.users| ==> s.users[j].email != email
  {
    var i := FirstIndex(s.users, (u: User) => u.email == email);
    if i.None? then None
    else
      assert FirstEmailMatch(s, email, i.value);
      Some(s.users[i.value])
  }

  /** The first username match is what `getUserByUsername` returns. */
  lemma FirstUsernameMatchFound(s: Store, name: string, i: int)
    requires FirstUsernameMatch(s, name, i)
    ensures GetUserByUsername(s, name) == Some(s.users[i])
  {
    var r := GetUserByUsername(s, name);
    var k :| FirstUsernameMatch(s, name, k) && s.users[k] == r.value;
    assert !(k < i) && !(i < k);
  }

  /** The first email match is what `getUserByEmail` returns. */
  lemma FirstEmailMatchFound(s: Store, email: string, i: int)
    requires FirstEmailMatch(s, email, i)
    ensures GetUserByEmail(s, email) == Some(s.users[i])
  {
    var r := GetUserByEmail(s, email);
    var k :| FirstEmailMatch(s, email, k) && s.users[k] == r.value;
    assert !(k < i) && !(i < k);
  }

  /** Looking a username up by its normal form finds the same user as the raw query. */
  lemma UsernameLookupIgnoresNormalization(s: Store, name: string)
    ensures GetUserByUsername(s, Normalize(name)) == GetUserByUsername(s, name)
  {
    NormalizeIdempotent(name);
  }

  /**
   * `createUser`: `{ id: freshId, ...data, addresses: [], paymentMethods: [], createdAt: now }`
   * appended at the end. A field the data lacks is stored as the empty string.
   */
  function CreateUser(s: Store, data: UserData, freshId: int, now: string): (r: (Store, User))
    ensures r.0.users == s.users + [r.1]
    ensures r.0.pointer == s.pointer
    ensures r.1.id == data.id.GetOr(freshId)
    ensures r.1.username == data.username.GetOr("")
    ensures r.1.password == data.password.GetOr("")
    ensures r.1.email == data.email.GetOr("")
    ensures r.1.profile == data.profile
    ensures r.1.addresses == [] && r.1.paymentMethods == []
    ensures r.1.createdAt == now
  {
    var u := User(
      data.id.GetOr(freshId), data.username.GetOr(""), data.password.GetOr(""),
      data.email.GetOr(""), now, data.profile, [], []);
    (Store(s.users + [u], s.pointer), u)
  }

  /** With an id no user holds, the created record is what `getUserById` now returns. */
  lemma CreateThenGet(s: Store, data: UserData, freshId: int, now: string)
    requires data.id.None?
    requires GetUserById(s, freshId).None?
    ensures var r := CreateUser(s, data, freshId, now);
      GetUserById(r.0, freshId) == Some(r.1)
  {
    var r := CreateUser(s, data, freshId, now);
    FindAfterAppend(s.users, r.1, (u: User) => u.id == freshId);
  }

  /** Only user `i` may differ; the list length and the session pointer are unchanged. */
  ghost predicate ChangesOneUser(s: Store, s': Store, i: nat) {
    && i < |s.users|
    && |s'.users| == |s.users|
    && s'.pointer == s.pointer
    && forall j :: 0 <= j < |s.users| && j != i ==> s'.users[j] == s.users[j]
  }

  /** Changing one user in place, keeping its id, keeps every id lookup that found it. */
  lemma IndexAfterChange(s: Store, s': Store, i: nat, id: int)
    requires ChangesOneUser(s, s', i) && s'.users[i].id == s.users[i].id
    requires UserIndex(s, id) == Some(i)
    ensures UserIndex(s', id) == Some(i)
  {
    assert forall j :: 0 <= j < i ==> s'.users[j] == s.users[j];
  }

  /** Changing the session user in place, keeping its id, keeps the session on the changed record. */
  lemma SessionAfterChange(s: Store, s': Store, i: nat)
    requires GetCurrentUser(s).Active? && UserIndex(s, GetCurrentUser(s).user.id) == Some(i)
    requires ChangesOneUser(s, s', i) && s'.users[i].id == s.users[i].id
    ensures GetCurrentUser(s') == Active(s'.users[i])
  {
    IndexAfterChange(s, s', i, GetCurrentUser(s).user.id);
  }

  /** `updateUser`: shallow-merge into the first user with the id; `None` and no write when absent. */
  function UpdateUser(s: Store, id: int, data: UserData): (r: (Store, Option<User>))
    ensures UserIndex(s, id).None? ==> r == (s, None)
    ensures UserIndex(s, id).Some? ==>
      var i := UserIndex(s, id).value;
      ChangesOneUser(s, r.0, i)
      && r.0.users[i] == MergeUser(s.users[i], data)
      && r.1 == Some(r.0.users[i])
  {
    match UserIndex(s, id)
    case None => (s, None)
    case Some(i) =>
      var u := MergeUser(s.users[i], data);
      (Store(s.users[i := u], s.pointer), Some(u))
  }

  // ---------------------------------------------------------------------------
  // Session pointer
  // ---------------------------------------------------------------------------

  /**
   * What `getCurrentUser` yields: `null` (no pointer, or `'null'`), `undefined`
   * (the session pointer refers to no stored user), or the user.
   */
  datatype Session = NoSession | Dangling | Active(user: User)

  /** `getCurrentUser`: resolve `parseInt(pointer)` through `getUserById`. */
  function GetCurrentUser(s: Store): (r: Session)
    ensures r.NoSession? <==> s.pointer == "" || s.pointer == NO_SESSION
    ensures r.Active? ==> (ParseInt(s.pointer) == Some(r.user.id)
      && GetUserById(s, r.user.id) == Some(r.user))
    ensures r.Dangling? ==> ParseInt(s.pointer).None? || GetUserById(s, ParseInt(s.pointer).value).None?
  {
    if s.pointer == "" || s.pointer == NO_SESSION then NoSession
    else match ParseInt(s.pointer)
      case None => Dangling
      case Some(id) =>
        match GetUserById(s, id)
        case None => Dangling
        case Some(u) => Active(u)
  }

  /** `setCurrentUser(id)`: the pointer becomes `id.toString()`. */
  function SetCurrentUser(s: Store, id: int): (r: Store)
    ensures r.users == s.users
    ensures r.pointer == IntToString(id)
    ensures ParseInt(r.pointer) == Some(id)
    ensures r.pointer != "" && r.pointer != NO_SESSION
  {
    ParseIntOfIntToString(id);
    Store(s.users, IntToString(id))
  }

  /** `clearCurrentUser` */
  function ClearCurrentUser(s: Store): (r: Store)
    ensures r.users == s.users && GetCurrentUser(r).NoSession?
  {
    Store(s.users, NO_SESSION)
  }

  /** Setting the session to a stored user's id makes `getCurrentUser` return the first user with that id. */
  lemma SetThenGetCurrent(s: Store, id: int)
    requires GetUserById(s, id).Some?
    ensures GetCurrentUser(SetCurrentUser(s, id)) == Active(GetUserById(s, id).value)
  {
  }

  /** The dead logout branch: an admin session survives its record's removal and dangles. */
  lemma AdminSessionDangles()
    ensures var admin := User(7, ADMIN, "", "", "", map[], [], []);
      var r := RemoveAdminAccount(Store([admin], "7"));
      r.users == [] && r.pointer == "7" && GetCurrentUser(r) == Dangling
  {
    var admin := User(7, ADMIN, "", "", "", map[], [], []);
    var r := RemoveAdminAccount(Store([admin], "7"));
    assert r.users == [];
    assert ParseInt("7") == Some(7) by { ParseIntOfIntToString(7); }
  }

  // ---------------------------------------------------------------------------
  // Addresses and payment methods
  // ---------------------------------------------------------------------------

  /**
   * `addAddress` / `addPaymentMethod`: for an unknown user nothing is written and the
   * result is `None`; otherwise exactly that user's collection grows by the new item,
   * which is the default iff the collection was empty.
   */
  ghost predicate AddSpec(s: Store, userId: int, c: Collection, data: ItemData, freshId: int,
                          r: (Store, Option<Item>))
  {
    match UserIndex(s, userId)
    case None => r == (s, None)
    case Some(i) =>
      var before := ItemsOf(s.users[i], c);
      && ChangesOneUser(s, r.0, i)
      && r.1.Some?
      && r.0.users[i] == WithItems(s.users[i], c, before + [r.1.value])
      && (r.1.value.isDefault <==> before == [])
      && r.1.value.id == data.id.GetOr(freshId)
      && r.1.value.fields == data.fields
  }

  function AddItem(s: Store, userId: int, c: Collection, data: ItemData, freshId: int): (r: (Store, Option<Item>))
    ensures AddSpec(s, userId, c, data, freshId, r)
  {
    match UserIndex(s, userId)
    case None => (s, None)
    case Some(i) =>
      var before := ItemsOf(s.users[i], c);
      var it := NewItem(before, data, freshId);
      (Store(s.users[i := WithItems(s.users[i], c, before + [it])], s.pointer), Some(it))
  }

  /**
   * `updateAddress` / `updatePaymentMethod`: `None` and no write when the user or the
   * item is missing; otherwise only the first item with that id is merged.
   */
  ghost predicate UpdateSpec(s: Store, userId: int, c: Collection, itemId: int, data: ItemData,
                             r: (Store, Option<Item>))
  {
    match UserIndex(s, userId)
    case None => r == (s, None)
    case Some(i) =>
      var items := ItemsOf(s.users[i], c);
      match IndexOf(items, itemId)
      case None => r == (s, None)
      case Some(k) =>
        && ChangesOneUser(s, r.0, i)
        && r.1 == Some(MergeItem(items[k], data))
        && r.0.users[i] == WithItems(s.users[i], c, items[k := MergeItem(items[k], data)])
  }

  function UpdateItem(s: Store, userId: int, c: Collection, itemId: int, data: ItemData): (r: (Store, Option<Item>))
    ensures UpdateSpec(s, userId, c, itemId, data, r)
  {
    match UserIndex(s, userId)
    case None => (s, None)
    case Some(i) =>
      var items := ItemsOf(s.users[i], c);
      match UpdateFirst(items, itemId, data)
      case None => (s, None)
      case Some(items') =>
        var k := IndexOf(items, itemId).value;
        assert items' == items[k := MergeItem(items[k], data)];
        (Store(s.users[i := WithItems(s.users[i], c, items')], s.pointer), Some(items'[k]))
  }

  /**
   * `deleteAddress` / `deletePaymentMethod`: `false` and no write for an unknown user;
   * otherwise `true` (even if no item matched) and the collection loses exactly the
   * items with that id, without re-assigning the default.
   */
  ghost predicate DeleteSpec(s: Store, userId: int, c: Collection, itemId: int, r: (Store, bool))
  {
    match UserIndex(s, userId)
    case None => r == (s, false)
    case Some(i) =>
      && r.1
      && ChangesOneUser(s, r.0, i)
      && r.0.users[i] == WithItems(s.users[i], c, RemoveId(ItemsOf(s.users[i], c), itemId))
  }

  function DeleteItem(s: Store, userId: int, c: Collection, itemId: int): (r: (Store, bool))
    ensures DeleteSpec(s, userId, c, itemId, r)
  {
    match UserIndex(s, userId)
    case None => (s, false)
    case Some(i) =>
      var items := RemoveId(ItemsOf(s.users[i], c), itemId);
      (Store(s.users[i := WithItems(s.users[i], c, items)], s.pointer), true)
  }

  /**
   * `setDefaultAddress` / `setDefaultPaymentMethod`: `false` and no write for an unknown
   * user; otherwise each item's flag becomes "its id is the target".
   */
  ghost predicate SetDefaultSpec(s: Store, userId: int, c: Collection, itemId: int, r: (Store, bool))
  {
    match UserIndex(s, userId)
    case None => r == (s, false)
    case Some(i) =>
      && r.1
      && ChangesOneUser(s, r.0, i)
      && r.0.users[i] == WithItems(s.users[i], c, MarkDefault(ItemsOf(s.users[i], c), itemId))
  }

  function SetDefaultItem(s: Store, userId: int, c: Collection, itemId: int): (r: (Store, bool))
    ensures SetDefaultSpec(s, userId, c, itemId, r)
  {
    match UserIndex(s, userId)
    case None => (s, false)
    case Some(i) =>
      var items := MarkDefault(ItemsOf(s.users[i], c), itemId);
      (Store(s.users[i := WithItems(s.users[i], c, items)], s.pointer), true)
  }

  function AddAddress(s: Store, userId: int, data: ItemData, freshId: int): (r: (Store, Option<Item>))
    ensures AddSpec(s, userId, Addresses, data, freshId, r)
  {
    AddItem(s, userId, Addresses, data, freshId)
  }

  function UpdateAddress(s: Store, userId: int, addressId: int, data: ItemData): (r: (Store, Option<Item>))
    ensures UpdateSpec(s, userId, Addresses, addressId, data, r)
  {
    UpdateItem(s, userId, Addresses, addressId, data)
  }

  function DeleteAddress(s: Store, userId: int, addressId: int): (r: (Store, bool))
    ensures DeleteSpec(s, userId, Addresses, addressId, r)
  {
    DeleteItem(s, userId, Addresses, addressId)
  }

  function SetDefaultAddress(s: Store, userId: int, addressId: int): (r: (Store, bool))
    ensures SetDefaultSpec(s, userId, Addresses, addressId, r)
  {
    SetDefaultItem(s, userId, Addresses, addressId)
  }

  function AddPaymentMethod(s: Store, userId: int, data: ItemData, freshId: int): (r: (Store, Option<Item>))
    ensures AddSpec(s, userId, PaymentMethods, data, freshId, r)
  {
    AddItem(s, userId, PaymentMethods, data, freshId)
  }

  function UpdatePaymentMethod(s: Store, userId: int, paymentId: int, data: ItemData): (r: (Store, Option<Item>))
    ensures UpdateSpec(s, userId, PaymentMethods, paymentId, data, r)
  {
    UpdateItem(s, userId, PaymentMethods, paymentId, data)
  }

  function DeletePaymentMethod(s: Store, userId: int, paymentId: int): (r: (Store, bool))
    ensures DeleteSpec(s, userId, PaymentMethods, paymentId, r)
  {
    DeleteItem(s, userId, PaymentMethods, paymentId)
  }

  function SetDefaultPaymentMethod(s: Store, userId: int, paymentId: int): (r: (Store, bool))
    ensures SetDefaultSpec(s, userId, PaymentMethods, paymentId, r)
  {
    SetDefaultItem(s, userId, PaymentMethods, paymentId)
  }

  // ---------------------------------------------------------------------------
  // Properties relating several operations
  // ---------------------------------------------------------------------------

  /** Setting the same default twice leaves the store as setting it once. */
  lemma SetDefaultIdempotent(s: Store, userId: int, c: Collection, itemId: int)
    ensures var once := SetDefaultItem(s, userId, c, itemId).0;
      SetDefaultItem(once, userId, c, itemId).0 == once
  {
    var once := SetDefaultItem(s, userId, c, itemId).0;
    match UserIndex(s, userId)
    case None =>
    case Some(i) =>
      assert UserIndex(once, userId) == Some(i) by {
        assert forall j :: 0 <= j < i ==> once.users[j] == s.users[j];
        assert once.users[i].id == userId;
      }
      MarkDefaultIdempotent(ItemsOf(s.users[i], c), itemId);
      var twice := SetDefaultItem(once, userId, c, itemId).0;
      assert twice.users == once.users;
  }

  /**
   * The deletion scenario: two addresses added to a user with none, the first (the
   * default) deleted: the second survives and is still not the default.
   */
  lemma DeleteDefaultDoesNotPromote(s: Store, userId: int, d1: ItemData, d2: ItemData, id1: int, id2: int)
    requires UserIndex(s, userId).Some? && ItemsOf(s.users[UserIndex(s, userId).value], Addresses) == []
    requires d1.id.None? && d2.id.None? && id1 != id2
    ensures var s1 := AddAddress(s, userId, d1, id1).0;
      var s2 := AddAddress(s1, userId, d2, id2).0;
      var s3 := DeleteAddress(s2, userId, id1).0;
      var i := UserIndex(s, userId).value;
      s3.users[i].addresses == [Item(id2, d2.fields, false)]
  {
    var i := UserIndex(s, userId).value;
    var s1 := AddAddress(s, userId, d1, id1).0;
    assert UserIndex(s1, userId) == Some(i) by {
      assert forall j :: 0 <= j <= i ==> s1.users[j].id == s.users[j].id;
    }
    var s2 := AddAddress(s1, userId, d2, id2).0;
    assert UserIndex(s2, userId) == Some(i) by {
      assert forall j :: 0 <= j <= i ==> s2.users[j].id == s.users[j].id;
    }
    var a2 := s2.users[i].addresses;
    assert a2 == [Item(id1, d1.fields, true), Item(id2, d2.fields, false)];
    var s3 := DeleteAddress(s2, userId, id1).0;
    RemoveFirstOfTwo(a2[0], a2[1], id1);
  }
}
