/** The persistence collaborators of the workflow as in-memory tables.
    Each repository hands out ids from its own counter, as the database's
    identity columns do; `SaveNew` inserts a row and `SaveExisting` updates one. */
module Repositories {
  import opened Wrappers
  import opened Accounts

  /** The user table. Its invariant is the uniqueness of identifications. */
  class UserRepository {
    var users: map<UserId, Account>
    var nextId: UserId

    ghost predicate Valid()
      reads this
    {
      && 0 < nextId
      && (forall id | id in users :: 0 < id < nextId)
      && UniqueIdentifications(users)
    }

    constructor ()
      ensures Valid() && users == map[] && nextId == 1
    {
      users := map[];
      nextId := 1;
    }

    /** `findByIdentification`: the id of the account with this identification, if any. */
    method FindByIdentification(identification: string) returns (found: Option<UserId>)
      requires Valid()
      ensures found.None? <==> !IdentificationTaken(users, identification)
      ensures found.Some? ==> found.value in users && users[found.value].identification == identification
      ensures found.Some? ==> forall id | id in users && users[id].identification == identification :: id == found.value
    {
      if id :| id in users && users[id].identification == identification {
        found := Some(id);
      } else {
        found := None;
      }
    }

    /** `findById`. */
    method FindById(id: UserId) returns (found: Option<Account>)
      ensures found.None? <==> id !in users
      ensures found.Some? ==> id in users && found.value == users[id]
    {
      found := if id in users then Some(users[id]) else None;
    }

    /** `save` of a new entity: the row gets the next id. */
    method SaveNew(account: Account) returns (id: UserId)
      requires Valid()
      requires !IdentificationTaken(users, account.identification)
      modifies this
      ensures Valid()
      ensures id == old(nextId) && id !in old(users)
      ensures users == old(users)[id := account]
      ensures |users| == |old(users)| + 1
    {
      id := nextId;
      InsertKeepsUnique(users, id, account);
      users := users[id := account];
      nextId := nextId + 1;
    }

    /** `save` of an entity already stored: its row is overwritten.
        Identifications never change once stored. */
    method SaveExisting(id: UserId, account: Account)
      requires Valid()
      requires id in users && users[id].identification == account.identification
      modifies this
      ensures Valid()
      ensures users == old(users)[id := account] && nextId == old(nextId)
      ensures users.Keys == old(users.Keys)
    {
      users := users[id := account];
    }
  }

  /** The cart table. */
  class CartRepository {
    var carts: map<CartId, Cart>
    var nextId: CartId

    ghost predicate Valid()
      reads this
    {
      0 < nextId && forall id | id in carts :: 0 < id < nextId
    }

    constructor ()
      ensures Valid() && carts == map[] && nextId == 1
    {
      carts := map[];
      nextId := 1;
    }

    method SaveNew(cart: Cart) returns (id: CartId)
      requires Valid()
      modifies this
      ensures Valid()
      ensures id == old(nextId) && id !in old(carts)
      ensures carts == old(carts)[id := cart]
    {
      id := nextId;
      carts := carts[id := cart];
      nextId := nextId + 1;
    }
  }

  /** The wish-list table. */
  class WishListRepository {
    var wishLists: map<WishListId, WishList>
    var nextId: WishListId

    ghost predicate Valid()
      reads this
    {
      0 < nextId && forall id | id in wishLists :: 0 < id < nextId
    }

    constructor ()
      ensures Valid() && wishLists == map[] && nextId == 1
    {
      wishLists := map[];
      nextId := 1;
    }

    method SaveNew(wishList: WishList) returns (id: WishListId)
      requires Valid()
      modifies this
      ensures Valid()
      ensures id == old(nextId) && id !in old(wishLists)
      ensures wishLists == old(wishLists)[id := wishList]
    {
      id := nextId;
      wishLists := wishLists[id := wishList];
      nextId := nextId + 1;
    }
  }

  /** The delivery-address collaborator, as far as the workflow queries it. */
  class DeliveryAddressService {
    const addresses: set<DeliveryAddress>

    constructor (addresses: set<DeliveryAddress>)
      ensures this.addresses == addresses
    {
      this.addresses := addresses;
    }

    /** `getDeliveryAddresses`: the addresses registered for one user. */
    function GetDeliveryAddresses(userId: UserId): (r: set<DeliveryAddress>)
      ensures r <= addresses
      ensures forall a | a in addresses :: a in r <==> a.userId == userId
    {
      set a | a in addresses && a.userId == userId
    }
  }
}
