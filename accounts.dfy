/** The entities the registration and authentication workflow works on:
    the `Users` account record, its cart and wish list, delivery addresses,
    the password encoder it is given, and the errors it raises. */
module Accounts {
  import opened Wrappers
  import opened Dates

  /** Database ids (`Long` primary keys). */
  type UserId = int
  type CartId = int
  type WishListId = int

  datatype Role = USER | ADMIN | SUPER_ADMIN

  /** Loyalty tiers; the workflow only ever assigns the lowest one. */
  datatype Tier = IRON

  /** One row of the user table. A field the code never sets stays `None`,
      as the corresponding entity field stays `null`. */
  datatype Account = Account(
    identification: string,
    password: Option<string>,
    name: Option<string>,
    birthDate: Option<LocalDate>,
    phoneNumber: Option<string>,
    role: Option<Role>,
    tier: Option<Tier>,
    point: Option<int>,
    amountToNextTier: Option<int>,
    refreshToken: Option<string>,
    cart: Option<CartId>,
    wishList: Option<WishListId>)

  /** `Users.builder().identification(identification).build()`. */
  function NewAccount(identification: string): (a: Account)
    ensures a.identification == identification
    ensures a.password.None? && a.role.None? && a.cart.None? && a.wishList.None?
  {
    Account(identification, None, None, None, None, None, None, None, None, None, None, None)
  }

  datatype Cart = Cart(estimatedTotalPrice: int)

  datatype WishList = EmptyWishList

  datatype DeliveryAddress = DeliveryAddress(
    id: int,
    userId: UserId,
    recipientName: string,
    phoneNumber: string,
    postalCode: int,
    address: string,
    detailAddress: string)

  /** The injected password encoder. `Matches` accepts a raw password against
      the hash `encode` produced for it. */
  datatype PasswordEncoder = PasswordEncoder(encode: string -> string) {
    predicate Matches(raw: string, hash: string) {
      encode(raw) == hash
    }
  }

  /** The exceptions of the workflow, each with the message it carries. */
  datatype ServiceError =
    | DuplicateIdentification(message: string)
    | PasswordMismatch(message: string)
    | DateTimeParse(parsedText: string)
    | BadCredentials
    | NotFound(userId: UserId)

  const DUPLICATE_ID_MESSAGE := "The ID already exists."
  const PASSWORD_MISMATCH_MESSAGE := "Passwords do not match."

  // ---------------------------------------------------------------------
  // Properties of the user table

  /** Some account in the table has this identification. */
  predicate IdentificationTaken(users: map<UserId, Account>, identification: string) {
    exists id | id in users :: users[id].identification == identification
  }

  /** No two accounts share an identification. */
  ghost predicate UniqueIdentifications(users: map<UserId, Account>) {
    forall i, j | i in users && j in users ::
      users[i].identification == users[j].identification ==> i == j
  }

  /** The ids of the accounts holding an identification. */
  function HoldersOf(users: map<UserId, Account>, identification: string): set<UserId> {
    set id | id in users && users[id].identification == identification
  }

  /** In a table with unique identifications, a taken identification is held
      by exactly one account. */
  lemma TakenIdentificationHasOneHolder(users: map<UserId, Account>, identification: string)
    requires UniqueIdentifications(users) && IdentificationTaken(users, identification)
    ensures |HoldersOf(users, identification)| == 1
  {
    var id :| id in users && users[id].identification == identification;
    forall other | other in HoldersOf(users, identification)
      ensures other == id
    {
    }
    assert HoldersOf(users, identification) == {id};
  }

  /** Every link an account holds (to its cart, say) names a stored row, and
      no two accounts hold the same one: the one-to-one ownership. */
  ghost predicate OwnedOnce(users: map<UserId, Account>, link: Account -> Option<int>, rows: set<int>) {
    && (forall id | id in users && link(users[id]).Some? :: link(users[id]).value in rows)
    && (forall i, j | i in users && j in users && link(users[i]).Some? ::
          link(users[i]) == link(users[j]) ==> i == j)
  }

  /** Adding an account whose identification is free keeps identifications unique. */
  lemma InsertKeepsUnique(users: map<UserId, Account>, id: UserId, a: Account)
    requires UniqueIdentifications(users)
    requires id !in users && !IdentificationTaken(users, a.identification)
    ensures UniqueIdentifications(users[id := a])
    ensures IdentificationTaken(users[id := a], a.identification)
  {
    var u := users[id := a];
    assert u[id].identification == a.identification;
    forall i, j | i in u && j in u && u[i].identification == u[j].identification
      ensures i == j
    {
      if i != id && j != id {
        assert users[i].identification == users[j].identification;
      }
    }
  }

  /** Linking a row that is stored and linked by no-one to a new account keeps
      the ownership one-to-one. */
  lemma InsertKeepsOwnedOnce(users: map<UserId, Account>, link: Account -> Option<int>,
                             rows: set<int>, id: UserId, a: Account, row: int)
    requires OwnedOnce(users, link, rows)
    requires id !in users && row !in rows
    requires link(a) == Some(row)
    ensures OwnedOnce(users[id := a], link, rows + {row})
  {
    var u := users[id := a];
    forall i, j | i in u && j in u && link(u[i]).Some? && link(u[i]) == link(u[j])
      ensures i == j
    {
    }
  }

  /** Overwriting an account without touching its link keeps the ownership one-to-one. */
  lemma UpdateKeepsOwnedOnce(users: map<UserId, Account>, link: Account -> Option<int>,
                             rows: set<int>, id: UserId, a: Account)
    requires OwnedOnce(users, link, rows)
    requires id in users && link(a) == link(users[id])
    ensures OwnedOnce(users[id := a], link, rows)
  {
    var u := users[id := a];
    forall i | i in u && link(u[i]).Some?
      ensures link(u[i]).value in rows
    {
      assert link(u[i]) == link(users[i]);
    }
    forall i, j | i in u && j in u && link(u[i]).Some? && link(u[i]) == link(u[j])
      ensures i == j
    {
      assert link(u[i]) == link(users[i]) && link(u[j]) == link(users[j]);
    }
  }
}
