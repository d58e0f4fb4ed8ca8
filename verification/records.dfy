/**
 * The persisted entities of the account store (src/services/dataService.js) and the
 * JavaScript object-spread merge (`{ ...old, ...data }`) the store applies to them.
 *
 * An address and a payment method are handled identically by the store: an id, a
 * default flag and caller-supplied text fields (`type`, `address`, `city`, `country`
 * for an address; `type`, `last4`, `expiry`, `cardName` for a card). Both are `Item`s.
 */
module Records {
  import opened Wrappers
  import opened Seqs

  /** An address or payment-method record. */
  datatype Item = Item(id: int, fields: map<string, string>, isDefault: bool)

  /** The object a caller passes to add or update an item: each present key overrides. */
  datatype ItemData = ItemData(id: Option<int>, fields: map<string, string>, isDefault: Option<bool>)

  /** `{ ...it, ...data }` */
  function MergeItem(it: Item, data: ItemData): (r: Item)
    ensures r.id == data.id.GetOr(it.id)
    ensures r.isDefault == data.isDefault.GetOr(it.isDefault)
    ensures r.fields.Keys == it.fields.Keys + data.fields.Keys
    ensures forall k :: k in data.fields ==> r.fields[k] == data.fields[k]
    ensures forall k :: k in it.fields && k !in data.fields ==> r.fields[k] == it.fields[k]
  {
    Item(data.id.GetOr(it.id), it.fields + data.fields, data.isDefault.GetOr(it.isDefault))
  }

  /**
   * A user record. `profile` holds the remaining text fields the store never
   * interprets (`firstName`, `lastName`, `phone`, `avatar`, ...).
   */
  datatype User = User(
    id: int,
    username: string,
    password: string,
    email: string,
    createdAt: string,
    profile: map<string, string>,
    addresses: seq<Item>,
    paymentMethods: seq<Item>)

  /** The object a caller passes to create or update a user: each present key overrides. */
  datatype UserData = UserData(
    id: Option<int>,
    username: Option<string>,
    password: Option<string>,
    email: Option<string>,
    createdAt: Option<string>,
    profile: map<string, string>,
    addresses: Option<seq<Item>>,
    paymentMethods: Option<seq<Item>>)

  /** The empty object `{}`. */
  const NoChanges := UserData(None, None, None, None, None, map[], None, None)

  /** `{ password: p }`, the update `changePassword` applies. */
  function PasswordOnly(p: string): UserData {
    NoChanges.(password := Some(p))
  }

  /** `{ ...u, ...data }` */
  function MergeUser(u: User, data: UserData): (r: User)
    ensures r.id == data.id.GetOr(u.id)
    ensures r.username == data.username.GetOr(u.username)
    ensures r.password == data.password.GetOr(u.password)
    ensures r.email == data.email.GetOr(u.email)
    ensures r.createdAt == data.createdAt.GetOr(u.createdAt)
    ensures r.profile.Keys == u.profile.Keys + data.profile.Keys
    ensures forall k :: k in data.profile ==> r.profile[k] == data.profile[k]
    ensures forall k :: k in u.profile && k !in data.profile ==> r.profile[k] == u.profile[k]
    ensures r.addresses == data.addresses.GetOr(u.addresses)
    ensures r.paymentMethods == data.paymentMethods.GetOr(u.paymentMethods)
  {
    User(
      data.id.GetOr(u.id),
      data.username.GetOr(u.username),
      data.password.GetOr(u.password),
      data.email.GetOr(u.email),
      data.createdAt.GetOr(u.createdAt),
      u.profile + data.profile,
      data.addresses.GetOr(u.addresses),
      data.paymentMethods.GetOr(u.paymentMethods))
  }

  /** Merging the empty object changes nothing. */
  lemma MergeNothing(u: User)
    ensures MergeUser(u, NoChanges) == u
  {
    assert u.profile + map[] == u.profile;
  }

  /** A shallow merge is idempotent: applying the same update twice equals applying it once. */
  lemma MergeUserIdempotent(u: User, data: UserData)
    ensures MergeUser(MergeUser(u, data), data) == MergeUser(u, data)
  {
    var once := MergeUser(u, data);
    assert once.profile + data.profile == once.profile;
  }

  /** Merging `{ password: p }` changes only the password. */
  lemma MergePasswordOnly(u: User, p: string)
    ensures MergeUser(u, PasswordOnly(p)) == u.(password := p)
  {
    assert u.profile + map[] == u.profile;
  }

  /** The one username the store refuses to keep. */
  const ADMIN := "admin"

  /** `users.filter(user => user.username !== 'admin')`: exact, case-sensitive comparison. */
  function RemoveAdmins(users: seq<User>): (r: seq<User>)
    ensures forall i :: 0 <= i < |r| ==> r[i].username != ADMIN && r[i] in users
    ensures forall i :: 0 <= i < |users| && users[i].username != ADMIN ==> users[i] in r
    ensures forall u :: multiset(r)[u] == if u.username != ADMIN then multiset(users)[u] else 0
  {
    var keep := (u: User) => u.username != ADMIN;
    FilterMultiset(users, keep);
    Filter(users, keep)
  }

  /** Removing admins works piecewise, so the users that stay keep their relative order. */
  lemma RemoveAdminsAppend(a: seq<User>, b: seq<User>)
    ensures RemoveAdmins(a + b) == RemoveAdmins(a) + RemoveAdmins(b)
  {
    FilterAppend(a, b, (u: User) => u.username != ADMIN);
  }

  /** Removing admins a second time removes nothing. */
  lemma RemoveAdminsIdempotent(users: seq<User>)
    ensures RemoveAdmins(RemoveAdmins(users)) == RemoveAdmins(users)
  {
    FilterIdempotent(users, (u: User) => u.username != ADMIN);
  }
}
