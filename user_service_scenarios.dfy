/** Clients of the user service that replay the service's unit-test
    scenarios against the contracts alone. */
module UserServiceScenarios {
  import opened Wrappers
  import opened Dates
  import opened Accounts
  import opened Repositories
  import opened UserServices

  /** A stand-in encoder: any function would do for these scenarios. */
  function TestEncoder(): PasswordEncoder {
    PasswordEncoder(raw => "{hash}" + raw)
  }

  /** The form every scenario signs up with. */
  function TestSignUp(identification: string): SignUpDto {
    SignUpDto(identification, "abcd123!@#", "abcd123!@#", "Min Jihong", "1999-12-30", "01012341234")
  }

  /** A service over empty account, cart and wish-list tables and the given delivery addresses. */
  method NewService(addresses: set<DeliveryAddress>) returns (service: UserServiceImpl)
    ensures fresh(service) && fresh(service.userRepository)
    ensures fresh(service.cartRepository) && fresh(service.wishListRepository)
    ensures service.Valid() && service.userRepository.users == map[] && service.userRepository.nextId == 1
    ensures service.deliveryAddressService.addresses == addresses
    ensures service.passwordEncoder == TestEncoder()
  {
    var users := new UserRepository();
    var carts := new CartRepository();
    var wishLists := new WishListRepository();
    var addressService := new DeliveryAddressService(addresses);
    service := new UserServiceImpl(users, carts, wishLists, addressService, TestEncoder());
  }

  /** The duplicate check passes a free identification and refuses it once
      an account holds it; signing up again with it is refused too, even with
      a mismatched confirmation. */
  method SignUpTwice() returns (checkBefore: Outcome<ServiceError>, first: Outcome<ServiceError>,
                                checkAfter: Outcome<ServiceError>, second: Outcome<ServiceError>,
                                mismatched: Outcome<ServiceError>)
    ensures checkBefore == Pass && first == Pass
    ensures checkAfter == Fail(DuplicateIdentification(DUPLICATE_ID_MESSAGE))
    ensures second == Fail(DuplicateIdentification(DUPLICATE_ID_MESSAGE))
    ensures mismatched == Fail(DuplicateIdentification(DUPLICATE_ID_MESSAGE))
  {
    var service := NewService({});
    SignUpTestDateAccepted();
    var dto := TestSignUp("abcd123");
    checkBefore := service.CheckDuplicateIdentification("abcd123");
    first := service.SignUpAccount(dto);
    checkAfter := service.CheckDuplicateIdentification("abcd123");
    assert IdentificationTaken(service.userRepository.users, "abcd123");
    second := service.SignUpAccount(dto);
    mismatched := service.SignUpAccount(dto.(confirmPassword := "aaaa!@#"));
  }

  /** An account stored with only an identification makes a sign-up with
      that identification fail with the duplicate error. */
  method SignUpOverStoredAccount() returns (outcome: Outcome<ServiceError>)
    ensures outcome == Fail(DuplicateIdentification(DUPLICATE_ID_MESSAGE))
  {
    var service := NewService({});
    var id := service.userRepository.SaveNew(NewAccount("abc123"));
    assert service.Valid();
    outcome := service.SignUpAccount(TestSignUp("abc123"));
  }

  /** A mismatched confirmation is refused, and a malformed birth date too. */
  method SignUpRejected() returns (mismatch: Outcome<ServiceError>, badDate: Outcome<ServiceError>)
    ensures mismatch == Fail(PasswordMismatch(PASSWORD_MISMATCH_MESSAGE))
    ensures badDate == Fail(DateTimeParse("1999-15-30"))
  {
    var service := NewService({});
    mismatch := service.SignUpAccount(TestSignUp("abcd123").(confirmPassword := "aaaa!@#"));
    SignUpTestDatesOutOfRange();
    badDate := service.SignUpAccount(TestSignUp("abcd123").(birthDate := "1999-15-30"));
  }

  /** A service holding the one account signed up with `TestSignUp(identification)`,
      under id 1, and the given delivery addresses. */
  method SignedUpService(identification: string, addresses: set<DeliveryAddress>) returns (service: UserServiceImpl)
    ensures fresh(service.userRepository)
    ensures service.Valid() && service.passwordEncoder == TestEncoder()
    ensures service.deliveryAddressService.addresses == addresses
    ensures service.userRepository.users.Keys == {1}
    ensures service.userRepository.users[1].identification == identification
    ensures service.userRepository.users[1].password == Some("{hash}abcd123!@#")
    ensures service.userRepository.users[1].name == Some("Min Jihong")
    ensures service.userRepository.users[1].birthDate == Some(LocalDate(1999, 12, 30))
    ensures service.userRepository.users[1].phoneNumber == Some("01012341234")
  {
    service := NewService(addresses);
    SignUpTestDateAccepted();
    var dto := TestSignUp(identification);
    var signUp := service.SignUpAccount(dto);
    assert signUp == Pass;
    ghost var users := service.userRepository.users;
    assert 1 in users && users == map[][1 := users[1]];
    TestProfileStored(users[1], identification);
  }

  /** The fields an account holding the profile of `TestSignUp(identification)` stores. */
  lemma TestProfileStored(a: Account, identification: string)
    requires HoldsProfileOf(a, TestSignUp(identification), TestEncoder())
    ensures a.identification == identification && a.password == Some("{hash}abcd123!@#")
    ensures a.name == Some("Min Jihong") && a.phoneNumber == Some("01012341234")
    ensures a.birthDate == Some(LocalDate(1999, 12, 30))
  {
    SignUpTestDateAccepted();
    assert TestEncoder().encode("abcd123!@#") == "{hash}abcd123!@#";
  }

  /** After signing up, the right password logs in and sets a refresh token. */
  method LoginAfterSignUp() returns (ok: Result<(UserId, Account), ServiceError>)
    ensures ok.Ok? && ok.value.0 == 1 && ok.value.1.identification == "abcd123"
    ensures ok.value.1.refreshToken == Some("refresh-1")
  {
    var service := SignedUpService("abcd123", {});
    var request := LoginRequestDto("abcd123", "abcd123!@#");
    assert service.AuthenticatesAs(service.userRepository.users, request, 1);
    ok := service.LoginByIdentificationAndPassword(request, "refresh-1");
  }

  /** A wrong or an empty password for the signed-up identification does not log in. */
  method LoginRefusedPassword() returns (wrongPassword: Result<(UserId, Account), ServiceError>,
                                         emptyPassword: Result<(UserId, Account), ServiceError>)
    ensures wrongPassword == Err(BadCredentials)
    ensures emptyPassword == Err(BadCredentials)
  {
    var service := SignedUpService("abcd123", {});
    assert "{hash}wrongPassword" != "{hash}abcd123!@#";
    wrongPassword := service.LoginByIdentificationAndPassword(LoginRequestDto("abcd123", "wrongPassword"), "t1");
    assert "{hash}" != "{hash}abcd123!@#";
    emptyPassword := service.LoginByIdentificationAndPassword(LoginRequestDto("abcd123", ""), "t2");
  }

  /** An unknown or an empty identification does not log in, whatever the password. */
  method LoginRefusedIdentification() returns (unknown: Result<(UserId, Account), ServiceError>,
                                               bothWrong: Result<(UserId, Account), ServiceError>,
                                               emptyIdentification: Result<(UserId, Account), ServiceError>)
    ensures unknown == Err(BadCredentials)
    ensures bothWrong == Err(BadCredentials)
    ensures emptyIdentification == Err(BadCredentials)
  {
    var service := SignedUpService("abcd123", {});
    unknown := service.LoginByIdentificationAndPassword(LoginRequestDto("wrongId", "abcd123!@#"), "t1");
    bothWrong := service.LoginByIdentificationAndPassword(LoginRequestDto("wrongId", "wrongPassword"), "t2");
    emptyIdentification := service.LoginByIdentificationAndPassword(LoginRequestDto("", "abcd123!@#"), "t3");
  }

  /** The my-page query returns the signed-up profile with no addresses. */
  method DetailsAfterSignUp() returns (details: Result<MyPageResponseDto, ServiceError>)
    ensures details.Ok? && details.value.identification == "abcd123"
    ensures details.value.name == Some("Min Jihong") && details.value.phoneNumber == Some("01012341234")
    ensures details.value.birthDate == Some(LocalDate(1999, 12, 30))
    ensures details.value.deliveryAddresses == {}
  {
    var service := NewService({});
    SignUpTestDateAccepted();
    var signUp := service.SignUpAccount(TestSignUp("abcd123"));
    assert signUp == Pass && 1 in service.userRepository.users;
    details := service.GetUserDetails(1);
  }

  /** The my-page query of an id no account has fails with `NotFound`. */
  method DetailsOfUnknownUser() returns (missing: Result<MyPageResponseDto, ServiceError>)
    ensures missing == Err(NotFound(-1))
  {
    var service := NewService({});
    missing := service.GetUserDetails(-1);
  }

  /** A delivery address of `userId` that differs from the others by its id. */
  function TestAddress(id: int, userId: UserId): DeliveryAddress {
    DeliveryAddress(id, userId, "Min Jihong", "01012341234", 14235, "abc-ro 123-gil", "101-1234")
  }

  /** With two addresses registered for the signed-up user and one for
      another user, the my-page query returns exactly the user's two. */
  method DetailsWithAddresses() returns (details: Result<MyPageResponseDto, ServiceError>)
    ensures details.Ok? && details.value.identification == "abcd123"
    ensures details.value.name == Some("Min Jihong") && details.value.phoneNumber == Some("01012341234")
    ensures details.value.birthDate == Some(LocalDate(1999, 12, 30))
    ensures details.value.deliveryAddresses == {TestAddress(1, 1), TestAddress(2, 1)}
    ensures |details.value.deliveryAddresses| == 2
  {
    var service := SignedUpService("abcd123", {TestAddress(1, 1), TestAddress(2, 1), TestAddress(3, 2)});
    details := service.GetUserDetails(1);
  }
}
