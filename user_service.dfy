/** The user service: sign-up of customers and administrators, the
    identification availability check, login (the refresh-token update) and
    the my-page query. Every failure is raised before anything is saved. */
module UserServices {
  import opened Wrappers
  import opened Dates
  import opened Accounts
  import opened Repositories

  /** The sign-up form. */
  datatype SignUpDto = SignUpDto(
    identification: string,
    password: string,
    confirmPassword: string,
    name: string,
    birthDate: string,
    phoneNumber: string)

  datatype LoginRequestDto = LoginRequestDto(identification: string, password: string)

  /** The my-page view of one user. */
  datatype MyPageResponseDto = MyPageResponseDto(
    identification: string,
    name: Option<string>,
    birthDate: Option<LocalDate>,
    phoneNumber: Option<string>,
    deliveryAddresses: set<DeliveryAddress>)

  /** A form passes every check of the sign-up workflow against this table:
      the identification is free, the confirmation matches and the birth date parses. */
  predicate SignUpAccepted(users: map<UserId, Account>, dto: SignUpDto) {
    && !IdentificationTaken(users, dto.identification)
    && dto.password == dto.confirmPassword
    && Parse(dto.birthDate).Some?
  }

  /** The account carries the profile fields of the form, and nothing from it
      in clear text: the password is the encoder's hash of it. */
  ghost predicate HoldsProfileOf(a: Account, dto: SignUpDto, encoder: PasswordEncoder) {
    && a.identification == dto.identification
    && a.password == Some(encoder.encode(dto.password))
    && a.name == Some(dto.name)
    && a.birthDate == Parse(dto.birthDate)
    && a.phoneNumber == Some(dto.phoneNumber)
    && a.refreshToken == None
  }

  /** The row a successful customer sign-up stores. */
  ghost predicate IsRegisteredUser(a: Account, dto: SignUpDto, encoder: PasswordEncoder,
                                   cartId: CartId, wishListId: WishListId) {
    && HoldsProfileOf(a, dto, encoder)
    && a.point == Some(0)
    && a.tier == Some(IRON)
    && a.amountToNextTier == Some(50000)
    && a.role == Some(USER)
    && a.cart == Some(cartId)
    && a.wishList == Some(wishListId)
  }

  /** The row a successful administrator sign-up stores: no cart, no wish
      list and none of the loyalty defaults. */
  ghost predicate IsRegisteredAdmin(a: Account, dto: SignUpDto, encoder: PasswordEncoder) {
    && HoldsProfileOf(a, dto, encoder)
    && a.role == Some(ADMIN)
    && a.point == None && a.tier == None && a.amountToNextTier == None
    && a.cart == None && a.wishList == None
  }

  /** The user mapper: copies the profile fields of the form and parses the
      birth date, failing as `LocalDate.parse` does. */
  function MapToUser(dto: SignUpDto): (r: Result<Account, ServiceError>)
    ensures r.Err? <==> Parse(dto.birthDate).None?
    ensures r.Err? ==> r.error == DateTimeParse(dto.birthDate)
    ensures r.Ok? ==> && r.value.identification == dto.identification
                      && r.value.birthDate.Some? && IsValidDate(r.value.birthDate.value)
                      && Format(r.value.birthDate.value) == dto.birthDate
                      && r.value.name == Some(dto.name)
                      && r.value.phoneNumber == Some(dto.phoneNumber)
                      && r.value.role == None && r.value.cart == None && r.value.wishList == None
  {
    match Parse(dto.birthDate)
    case None => Err(DateTimeParse(dto.birthDate))
    case Some(date) =>
      Ok(NewAccount(dto.identification).(name := Some(dto.name), birthDate := Some(date),
                                         phoneNumber := Some(dto.phoneNumber)))
  }

  /** `createAdditionalUserInfo`: the loyalty and role defaults of a new customer. */
  function CreateAdditionalUserInfo(user: Account): (r: Account)
    ensures r.point == Some(0) && r.tier == Some(IRON)
    ensures r.amountToNextTier == Some(50000) && r.role == Some(USER)
    ensures r == user.(point := r.point, tier := r.tier, amountToNextTier := r.amountToNextTier, role := r.role)
  {
    user.(point := Some(0), tier := Some(IRON), amountToNextTier := Some(50000), role := Some(USER))
  }

  class UserServiceImpl {
    const userRepository: UserRepository
    const cartRepository: CartRepository
    const wishListRepository: WishListRepository
    const deliveryAddressService: DeliveryAddressService
    const passwordEncoder: PasswordEncoder

    /** The tables are consistent: identifications are unique and every
        cart and wish list belongs to at most one account. */
    ghost predicate Valid()
      reads this, userRepository, cartRepository, wishListRepository
    {
      && userRepository.Valid()
      && cartRepository.Valid()
      && wishListRepository.Valid()
      && OwnedOnce(userRepository.users, (a: Account) => a.cart, cartRepository.carts.Keys)
      && OwnedOnce(userRepository.users, (a: Account) => a.wishList, wishListRepository.wishLists.Keys)
    }

    constructor (userRepository: UserRepository, cartRepository: CartRepository,
                 wishListRepository: WishListRepository,
                 deliveryAddressService: DeliveryAddressService, passwordEncoder: PasswordEncoder)
      requires userRepository.Valid() && cartRepository.Valid() && wishListRepository.Valid()
      requires OwnedOnce(userRepository.users, (a: Account) => a.cart, cartRepository.carts.Keys)
      requires OwnedOnce(userRepository.users, (a: Account) => a.wishList, wishListRepository.wishLists.Keys)
      ensures Valid()
      ensures this.userRepository == userRepository && this.cartRepository == cartRepository
      ensures this.wishListRepository == wishListRepository
      ensures this.deliveryAddressService == deliveryAddressService
      ensures this.passwordEncoder == passwordEncoder
    {
      this.userRepository := userRepository;
      this.cartRepository := cartRepository;
      this.wishListRepository := wishListRepository;
      this.deliveryAddressService := deliveryAddressService;
      this.passwordEncoder := passwordEncoder;
    }

    /** `signUpAccount`: duplicate check, then confirmation check, then the
        mapping; on success one account with the customer defaults, one cart
        with total 0 and one wish list are stored and linked. */
    method SignUpAccount(dto: SignUpDto) returns (outcome: Outcome<ServiceError>)
      requires Valid()
      modifies userRepository, cartRepository, wishListRepository
      ensures Valid()
      ensures outcome.Pass? <==> old(SignUpAccepted(userRepository.users, dto))
      ensures old(IdentificationTaken(userRepository.users, dto.identification)) ==>
                outcome == Fail(DuplicateIdentification(DUPLICATE_ID_MESSAGE))
      ensures old(!IdentificationTaken(userRepository.users, dto.identification))
              && dto.password != dto.confirmPassword ==>
                outcome == Fail(PasswordMismatch(PASSWORD_MISMATCH_MESSAGE))
      ensures old(!IdentificationTaken(userRepository.users, dto.identification))
              && dto.password == dto.confirmPassword && Parse(dto.birthDate).None? ==>
                outcome == Fail(DateTimeParse(dto.birthDate))
      ensures outcome.Fail? ==> unchanged(userRepository, cartRepository, wishListRepository)
      ensures outcome.Pass? ==>
                var id, cartId, wishListId :=
                  old(userRepository.nextId), old(cartRepository.nextId), old(wishListRepository.nextId);
                && id !in old(userRepository.users) && id in userRepository.users
                && userRepository.users == old(userRepository.users)[id := userRepository.users[id]]
                && IsRegisteredUser(userRepository.users[id], dto, passwordEncoder, cartId, wishListId)
                && cartId !in old(cartRepository.carts)
                && cartRepository.carts == old(cartRepository.carts)[cartId := Cart(0)]
                && wishListId !in old(wishListRepository.wishLists)
                && wishListRepository.wishLists == old(wishListRepository.wishLists)[wishListId := EmptyWishList]
    {
      var found := userRepository.FindByIdentification(dto.identification);
      if found.Some? {
        return Fail(DuplicateIdentification(DUPLICATE_ID_MESSAGE));
      }
      if dto.password != dto.confirmPassword {
        return Fail(PasswordMismatch(PASSWORD_MISMATCH_MESSAGE));
      }
      var mapped := MapToUser(dto);
      if mapped.Err? {
        return Fail(mapped.error);
      }
      var user := EncodePassword(mapped.value, dto.password);
      ghost var users0 := userRepository.users;
      user := CreateCartAndWishList(user);
      user := CreateAdditionalUserInfo(user);
      var id := userRepository.SaveNew(user);
      InsertKeepsOwnedOnce(users0, (a: Account) => a.cart, old(cartRepository.carts.Keys), id, user, user.cart.value);
      InsertKeepsOwnedOnce(users0, (a: Account) => a.wishList, old(wishListRepository.wishLists.Keys), id, user, user.wishList.value);
      outcome := Pass;
    }

    /** `checkDuplicateIdentification`: fails exactly when the identification is taken. */
    method CheckDuplicateIdentification(identification: string) returns (outcome: Outcome<ServiceError>)
      requires Valid()
      ensures outcome.Fail? <==> IdentificationTaken(userRepository.users, identification)
      ensures outcome.Fail? ==> outcome.error == DuplicateIdentification(DUPLICATE_ID_MESSAGE)
    {
      var taken := IsIdentificationExist(identification);
      outcome := if taken then Fail(DuplicateIdentification(DUPLICATE_ID_MESSAGE)) else Pass;
    }

    /** The authentication step of login: the account whose identification is
        given and whose stored hash matches the given password. An absent
        account, a missing hash and a wrong password are not told apart. */
    ghost predicate AuthenticatesAs(users: map<UserId, Account>, request: LoginRequestDto, id: UserId) {
      && id in users
      && users[id].identification == request.identification
      && users[id].password.Some?
      && passwordEncoder.Matches(request.password, users[id].password.value)
    }

    /** The authentication manager's verdict on a login request. */
    method Authenticate(request: LoginRequestDto) returns (principal: Option<UserId>)
      requires Valid()
      ensures principal.Some? <==> exists id :: AuthenticatesAs(userRepository.users, request, id)
      ensures principal.Some? ==> AuthenticatesAs(userRepository.users, request, principal.value)
    {
      var found := userRepository.FindByIdentification(request.identification);
      if found.None? {
        forall id | AuthenticatesAs(userRepository.users, request, id)
          ensures IdentificationTaken(userRepository.users, request.identification)
        {
        }
        return None;
      }
      var hash := userRepository.users[found.value].password;
      if hash.Some? && passwordEncoder.Matches(request.password, hash.value) {
        assert AuthenticatesAs(userRepository.users, request, found.value);
        principal := found;
      } else {
        forall id | AuthenticatesAs(userRepository.users, request, id)
          ensures id == found.value
        {
        }
        principal := None;
      }
    }

    /** `loginByIdentificationAndPassword`: on successful authentication the
        user's refresh token, and nothing else, is replaced by the freshly
        issued `refreshToken`, and that user is returned; otherwise
        `BadCredentials` and nothing is saved. */
    method LoginByIdentificationAndPassword(request: LoginRequestDto, refreshToken: string)
      returns (r: Result<(UserId, Account), ServiceError>)
      requires Valid()
      modifies userRepository
      ensures Valid()
      ensures r.Ok? <==> exists id :: AuthenticatesAs(old(userRepository.users), request, id)
      ensures r.Err? ==> r.error == BadCredentials && unchanged(userRepository)
      ensures r.Ok? ==>
                var id := r.value.0;
                && AuthenticatesAs(old(userRepository.users), request, id)
                && r.value.1 == old(userRepository.users)[id].(refreshToken := Some(refreshToken))
                && userRepository.users == old(userRepository.users)[id := r.value.1]
                && userRepository.nextId == old(userRepository.nextId)
    {
      var principal := Authenticate(request);
      if principal.None? {
        return Err(BadCredentials);
      }
      var id := principal.value;
      var user := userRepository.users[id];
      user := user.(refreshToken := Some(refreshToken));
      UpdateKeepsOwnedOnce(userRepository.users, (a: Account) => a.cart, cartRepository.carts.Keys, id, user);
      UpdateKeepsOwnedOnce(userRepository.users, (a: Account) => a.wishList, wishListRepository.wishLists.Keys, id, user);
      userRepository.SaveExisting(id, user);
      r := Ok((id, user));
    }

    /** `getUserDetails`: the profile of the user with this id together with
        exactly the delivery addresses registered for them, or `NotFound`. */
    method GetUserDetails(userId: UserId) returns (r: Result<MyPageResponseDto, ServiceError>)
      ensures r.Err? <==> userId !in userRepository.users
      ensures r.Err? ==> r.error == NotFound(userId)
      ensures r.Ok? ==>
                var user := userRepository.users[userId];
                && r.value.identification == user.identification
                && r.value.name == user.name
                && r.value.birthDate == user.birthDate
                && r.value.phoneNumber == user.phoneNumber
                && forall a :: a in r.value.deliveryAddresses <==>
                                 a in deliveryAddressService.addresses && a.userId == userId
    {
      var found := userRepository.FindById(userId);
      if found.None? {
        return Err(NotFound(userId));
      }
      var user := found.value;
      var addresses := deliveryAddressService.GetDeliveryAddresses(userId);
      r := Ok(MyPageResponseDto(user.identification, user.name, user.birthDate, user.phoneNumber, addresses));
    }

    /** `signUpAdminAccount`: the same two checks in the same order, then one
        account with the ADMIN role; no cart, wish list or loyalty defaults. */
    method SignUpAdminAccount(dto: SignUpDto) returns (outcome: Outcome<ServiceError>)
      requires Valid()
      modifies userRepository
      ensures Valid()
      ensures outcome.Pass? <==> old(SignUpAccepted(userRepository.users, dto))
      ensures old(IdentificationTaken(userRepository.users, dto.identification)) ==>
                outcome == Fail(DuplicateIdentification(DUPLICATE_ID_MESSAGE))
      ensures old(!IdentificationTaken(userRepository.users, dto.identification))
              && dto.password != dto.confirmPassword ==>
                outcome == Fail(PasswordMismatch(PASSWORD_MISMATCH_MESSAGE))
      ensures old(!IdentificationTaken(userRepository.users, dto.identification))
              && dto.password == dto.confirmPassword && Parse(dto.birthDate).None? ==>
                outcome == Fail(DateTimeParse(dto.birthDate))
      ensures outcome.Fail? ==> unchanged(userRepository)
      ensures outcome.Pass? ==>
                var id := old(userRepository.nextId);
                && id !in old(userRepository.users) && id in userRepository.users
                && userRepository.users == old(userRepository.users)[id := userRepository.users[id]]
                && IsRegisteredAdmin(userRepository.users[id], dto, passwordEncoder)
    {
      var found := userRepository.FindByIdentification(dto.identification);
      if found.Some? {
        return Fail(DuplicateIdentification(DUPLICATE_ID_MESSAGE));
      }
      if dto.password != dto.confirmPassword {
        return Fail(PasswordMismatch(PASSWORD_MISMATCH_MESSAGE));
      }
      var mapped := MapToUser(dto);
      if mapped.Err? {
        return Fail(mapped.error);
      }
      var user := EncodePassword(mapped.value, dto.password);
      user := user.(role := Some(ADMIN));
      ghost var users0 := userRepository.users;
      var id := userRepository.SaveNew(user);
      assert OwnedOnce(userRepository.users, (a: Account) => a.cart, cartRepository.carts.Keys) by {
        assert forall i | i in userRepository.users :: i == id || userRepository.users[i].cart == users0[i].cart;
      }
      assert OwnedOnce(userRepository.users, (a: Account) => a.wishList, wishListRepository.wishLists.Keys) by {
        assert forall i | i in userRepository.users :: i == id || userRepository.users[i].wishList == users0[i].wishList;
      }
      outcome := Pass;
    }

    /** `createCartAndWishList`: saves a cart with total 0 and a wish list and
        links both to the user. */
    method CreateCartAndWishList(user: Account) returns (linked: Account)
      requires cartRepository.Valid() && wishListRepository.Valid()
      modifies cartRepository, wishListRepository
      ensures cartRepository.Valid() && wishListRepository.Valid()
      ensures old(cartRepository.nextId) !in old(cartRepository.carts)
      ensures cartRepository.carts == old(cartRepository.carts)[old(cartRepository.nextId) := Cart(0)]
      ensures old(wishListRepository.nextId) !in old(wishListRepository.wishLists)
      ensures wishListRepository.wishLists ==
                old(wishListRepository.wishLists)[old(wishListRepository.nextId) := EmptyWishList]
      ensures linked == user.(cart := Some(old(cartRepository.nextId)),
                              wishList := Some(old(wishListRepository.nextId)))
    {
      var cartId := cartRepository.SaveNew(Cart(0));
      var wishListId := wishListRepository.SaveNew(EmptyWishList);
      linked := user.(cart := Some(cartId), wishList := Some(wishListId));
    }

    /** `encodePassword`: the stored password becomes the encoder's hash of
        the raw one, which the encoder then accepts; nothing else changes. */
    function EncodePassword(user: Account, password: string): (encoded: Account)
      ensures encoded.password.Some? && passwordEncoder.Matches(password, encoded.password.value)
      ensures encoded == user.(password := encoded.password)
    {
      user.(password := Some(passwordEncoder.encode(password)))
    }

    /** `isIdentificationExist`. */
    method IsIdentificationExist(identification: string) returns (taken: bool)
      requires Valid()
      ensures taken <==> IdentificationTaken(userRepository.users, identification)
    {
      var found := userRepository.FindByIdentification(identification);
      taken := found.Some?;
    }
  }
}
