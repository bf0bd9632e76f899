# HongShopping user accounts: a Dafny model

This project models the account side of the HongShopping e-commerce backend. It covers:

- the user service's customer and administrator sign-up;
- the identification availability check;
- login, as far as it updates the stored refresh token;
- the my-page query;
- the start-up seeding of the super administrator;
- the declared field constraints of the item request form;
- the two factories of the login response.

The database is a set of in-memory tables, one repository class per table:

- `UserRepository` holds `users: map<UserId, Account>`;
- `CartRepository` holds the carts;
- `WishListRepository` holds the wish lists.

Each table hands out ids from its own counter. `UserRepository.Valid()` is the invariant that no two accounts share an identification. `UserServiceImpl.Valid()` adds that every cart and every wish list belongs to at most one account. Every state-changing method preserves these invariants. Each method says exactly what the tables hold afterwards. On every error path the tables are unchanged.

The collaborators the service is given are modelled as follows:

- The password encoder is a value holding an arbitrary total function `encode`. `Matches(raw, hash)` holds when `encode(raw) == hash`.
- The JWT provider is reduced to the freshly issued refresh token, which the login method takes as a parameter.
- The delivery-address service is reduced to the set of stored addresses.

`UserMapper` is not part of this model. Its date parsing is assumed to be `java.time.LocalDate.parse`: the ISO `yyyy-MM-dd` form with strict calendar checks. The tests only require that four malformed or out-of-range texts are rejected and that a well-formed date is read as `LocalDate.parse` reads it, which this assumption meets. `Dates.Parse` and `Dates.Format` are proved to be inverse on valid dates, in both directions.

Modules, one per file:

- `Wrappers`: `Option`, `Result`, `Outcome`.
- `Dates`: `LocalDate`, parsing and formatting.
- `Accounts`: entities, errors, the table invariants.
- `Repositories`: the tables.
- `UserServices`: the user service.
- `DataInitializers`: the super-admin seeding.
- `ItemRequests`: the item form validator.
- `LoginResponses`: the login response.
- `UserServiceScenarios`: clients that replay the service's unit-test scenarios against the contracts.

## Model

| member | source | states |
|---|---|---|
| `UserServices.UserServiceImpl.SignUpAccount` | src/main/java/jihong99/shoppingmall/service/UserServiceImpl.java:55-69 | Succeeds exactly when the identification is free, the confirmation equals the password and the birth date parses. The duplicate error comes first, even if the passwords differ; the mismatch error comes next, with its message; then the date error. On failure no table changes. On success exactly one new account is added under a fresh id: the form's profile, the encoder's hash of the password, point 0, tier IRON, 50000 to the next tier, role USER, no refresh token. It is linked to one new cart with total 0 and one new wish list, and no other row changes. Identifications stay unique and carts and wish lists stay owned once. |
| `UserServices.UserServiceImpl.SignUpAdminAccount` | src/main/java/jihong99/shoppingmall/service/UserServiceImpl.java:154-167 | The same checks in the same order with the same errors. On success one new account is added with the form's profile, the hashed password and role ADMIN. It has no cart, no wish list and no point, tier or threshold. The cart and wish-list tables are not touched, and on failure nothing changes. |
| `UserServices.UserServiceImpl.CheckDuplicateIdentification` | src/main/java/jihong99/shoppingmall/service/UserServiceImpl.java:78-82 | Fails, with "The ID already exists.", exactly when some account holds the identification. It changes nothing. |
| `UserServices.UserServiceImpl.IsIdentificationExist` | src/main/java/jihong99/shoppingmall/service/UserServiceImpl.java:213-215 | True exactly when some account holds the identification. |
| `UserServices.UserServiceImpl.Authenticate` | src/main/java/jihong99/shoppingmall/service/UserServiceImpl.java:94-99 | Yields a user exactly when some account has the given identification and a stored hash the encoder matches against the given password, and then it yields that account. |
| `UserServices.UserServiceImpl.LoginByIdentificationAndPassword` | src/main/java/jihong99/shoppingmall/service/UserServiceImpl.java:93-106 | Succeeds exactly when the credentials authenticate. It then replaces only that account's refresh token, with the issued one, and returns that account under its id. Otherwise it fails with BadCredentials and saves nothing. |
| `UserServices.UserServiceImpl.GetUserDetails` | src/main/java/jihong99/shoppingmall/service/UserServiceImpl.java:138-143 | Fails with NotFound for that id exactly when no account has the id. Otherwise it returns the account's identification, name, birth date and phone number, and exactly the delivery addresses registered for that user, possibly none. It changes nothing. |
| `UserServices.UserServiceImpl.CreateCartAndWishList` | src/main/java/jihong99/shoppingmall/service/UserServiceImpl.java:187-194 | Adds one cart with total 0 and one wish list under fresh ids, and links both to the user record. |
| `UserServices.UserServiceImpl.EncodePassword` | src/main/java/jihong99/shoppingmall/service/UserServiceImpl.java:202-205 | The stored password becomes a hash that the encoder matches against the raw password. No other field changes. |
| `UserServices.CreateAdditionalUserInfo` | src/main/java/jihong99/shoppingmall/service/UserServiceImpl.java:175-180 | Sets point 0, tier IRON, 50000 to the next tier and role USER, and leaves every other field as it was. |
| `UserServices.MapToUser` | src/main/java/jihong99/shoppingmall/service/UserServiceImpl.java:63-64 | Fails with the date error exactly when the birth date does not parse. Otherwise the record carries the identification, name and phone number of the form, and a valid date that formats back to the submitted text. It has no role, cart or wish list. |
| `Repositories.UserRepository.FindByIdentification` | src/main/java/jihong99/shoppingmall/service/UserServiceImpl.java:56-57 | Finds nothing exactly when no account holds the identification. Otherwise it finds the one account that does. |
| `Repositories.UserRepository.FindById` | src/main/java/jihong99/shoppingmall/service/UserServiceImpl.java:139-140 | Finds the account stored under the id, or nothing when there is none. |
| `Repositories.UserRepository.SaveNew` | src/main/java/jihong99/shoppingmall/service/UserServiceImpl.java:68 | Inserts under a fresh id, so the table grows by exactly one, and keeps identifications unique. |
| `Repositories.UserRepository.SaveExisting` | src/main/java/jihong99/shoppingmall/service/UserServiceImpl.java:103 | Overwrites one stored account; the set of ids and the uniqueness invariant are kept. |
| `Repositories.CartRepository.SaveNew` | src/main/java/jihong99/shoppingmall/service/UserServiceImpl.java:190 | Inserts the cart under a fresh id. |
| `Repositories.WishListRepository.SaveNew` | src/main/java/jihong99/shoppingmall/service/UserServiceImpl.java:191 | Inserts the wish list under a fresh id. |
| `Repositories.DeliveryAddressService.GetDeliveryAddresses` | src/main/java/jihong99/shoppingmall/service/UserServiceImpl.java:141 | Returns a stored address exactly when it belongs to the given user. |
| `Accounts.InsertKeepsUnique` | src/main/java/jihong99/shoppingmall/service/UserServiceImpl.java:56-68 | Adding an account whose identification is free keeps identifications unique, and the identification is taken afterwards. |
| `Accounts.InsertKeepsOwnedOnce` | src/main/java/jihong99/shoppingmall/service/UserServiceImpl.java:187-194 | Linking a new, unlinked row to a new account keeps the ownership one-to-one. |
| `Accounts.UpdateKeepsOwnedOnce` | src/main/java/jihong99/shoppingmall/service/UserServiceImpl.java:101-103 | Overwriting an account without changing its link keeps the ownership one-to-one. |
| `Accounts.TakenIdentificationHasOneHolder` | src/main/java/jihong99/shoppingmall/service/UserServiceImpl.java:213-215 | When identifications are unique, a taken identification is held by exactly one account. |
| `Accounts.NewAccount` | src/main/java/jihong99/shoppingmall/config/DataInitializer.java:30-33 | A built record carries the identification, and has no password, role, cart or wish list. |
| `Dates.Parse` | src/test/java/jihong99/shoppingmall/service/UserServiceImplTest.java:133-143 | Whatever parses is a valid date, and that date formats back to exactly the parsed text. |
| `Dates.ParseFormat` | src/test/java/jihong99/shoppingmall/service/UserServiceImplTest.java:65-77 | Every valid date parses back from its formatted text. |
| `Dates.ParseAcceptsExactlyFormattedDates` | src/test/java/jihong99/shoppingmall/service/UserServiceImplTest.java:133-143 | A text parses exactly when it is the formatted form of a valid date. |
| `Dates.SignUpTestDateAccepted` | src/test/java/jihong99/shoppingmall/service/UserServiceImplTest.java:67-77 | "1999-12-30" parses to 30 December 1999. |
| `Dates.SignUpTestDatesOutOfRange` | src/test/java/jihong99/shoppingmall/service/UserServiceImplTest.java:133-143 | "1999-15-30" (month 15) and "1999-12-32" (day 32) are rejected. |
| `Dates.SignUpTestDatesMalformed` | src/test/java/jihong99/shoppingmall/service/UserServiceImplTest.java:133-143 | "1999-12" and "19991230" are rejected. |
| `Dates.LeapDayOnlyInLeapYears` | src/test/java/jihong99/shoppingmall/service/UserServiceImplTest.java:133-143 | February 29 is a valid date exactly in leap years. |
| `DataInitializers.DataInitializer.Init` | src/main/java/jihong99/shoppingmall/config/DataInitializer.java:21-23 | Leaves the user table as `WithSuperAdmin` of the old table and the next fresh id. The table stays valid. |
| `DataInitializers.DataInitializer.CreateSuperAdmin` | src/main/java/jihong99/shoppingmall/config/DataInitializer.java:25-38 | The same as `Init`. When "superadmin" is already taken, the table is untouched. |
| `DataInitializers.WithSuperAdmin` | src/main/java/jihong99/shoppingmall/config/DataInitializer.java:29-35 | Afterwards "superadmin" is taken and every earlier account is present and unchanged. If it was taken before, the table is the same. Otherwise exactly one account is added under the fresh id: the super-admin record. |
| `DataInitializers.SuperAdminAccount` | src/main/java/jihong99/shoppingmall/config/DataInitializer.java:26-34 | Identification "superadmin", a hash the encoder matches against "superadmin_password", role SUPER_ADMIN, and no other field set. |
| `DataInitializers.SeedingIsIdempotent` | src/main/java/jihong99/shoppingmall/config/DataInitializer.java:29-35 | Seeding a seeded table changes nothing, whatever fresh id the second run would use. |
| `DataInitializers.SeedingKeepsUnique` | src/main/java/jihong99/shoppingmall/config/DataInitializer.java:29-35 | Seeding keeps identifications unique. |
| `DataInitializers.SeedingLeavesOneSuperAdmin` | src/main/java/jihong99/shoppingmall/config/DataInitializer.java:29-35 | After seeding exactly one account holds "superadmin". |
| `ItemRequests.Validate` | src/main/java/jihong99/shoppingmall/dto/ItemRequestDto.java:15-32 | Reports a constraint's error exactly when that constraint is violated, and reports nothing else. It reports nothing exactly when the form is valid, and never reports the same error twice, so there is one entry per violated constraint. |
| `ItemRequests.ViolationsExactly` | src/main/java/jihong99/shoppingmall/dto/ItemRequestDto.java:15-32 | Checking a list of constraints with no repeats yields exactly the errors of the violated ones, with no error reported twice. |
| `ItemRequests.DeclaredViolations` | src/main/java/jihong99/shoppingmall/dto/ItemRequestDto.java:15-32 | The same facts for the nine declared constraints: an error appears exactly when its constraint is violated, nothing else appears, and no error appears twice. |
| `ItemRequests.NullReportsOnlyRequired` | src/main/java/jihong99/shoppingmall/dto/ItemRequestDto.java:15-32 | A null name, price, inventory or keyword reports its required-field message and not its size or minimum message. Null category ids report the not-empty message. |
| `ItemRequests.PresentFieldBounds` | src/main/java/jihong99/shoppingmall/dto/ItemRequestDto.java:15-32 | A present name or keyword reports its size message exactly when its length is outside 3..50. A present price or inventory reports its minimum message exactly when it is negative. Category ids report exactly when null or empty. |
| `LoginResponses.Success` | src/main/java/jihong99/shoppingmall/dto/LoginResponseDto.java:16-17 | Status 200 with the login-success message, carrying exactly the given access token, refresh token and user id. |
| `LoginResponses.Error` | src/main/java/jihong99/shoppingmall/dto/LoginResponseDto.java:20-21 | The given status code and message unchanged, and no tokens and no user id. |
| `LoginResponses.ErrorIsNeverSuccess` | src/main/java/jihong99/shoppingmall/dto/LoginResponseDto.java:16-21 | An error response never carries tokens and never equals a success response. |
| `UserServiceScenarios.SignUpTwice` | src/test/java/jihong99/shoppingmall/service/UserServiceImplTest.java:163-196 | The duplicate check passes a free identification and, once a sign-up has stored it, fails with "The ID already exists.". A second sign-up with it fails with the same error, and so does one that also has a mismatched confirmation. |
| `UserServiceScenarios.SignUpOverStoredAccount` | src/test/java/jihong99/shoppingmall/service/UserServiceImplTest.java:98-111 | With an account stored that has only an identification, signing up with that identification fails with the duplicate error. |
| `UserServiceScenarios.SignUpRejected` | src/test/java/jihong99/shoppingmall/service/UserServiceImplTest.java:117-143 | A mismatched confirmation fails with "Passwords do not match.", and the birth date "1999-15-30" fails with the date error. |
| `UserServiceScenarios.SignedUpService` | src/test/java/jihong99/shoppingmall/service/UserServiceImplTest.java:65-85 | After one sign-up the table holds that account alone, under id 1, with the hashed password. |
| `UserServiceScenarios.LoginAfterSignUp` | src/test/java/jihong99/shoppingmall/service/UserServiceImplTest.java:201-223 | The right credentials log in the account and give it the issued refresh token. |
| `UserServiceScenarios.LoginRefusedPassword` | src/test/java/jihong99/shoppingmall/service/UserServiceImplTest.java:228-249 | Of the refused pairs, the wrong password and the empty password for the signed-up identification fail with BadCredentials. |
| `UserServiceScenarios.LoginRefusedIdentification` | src/test/java/jihong99/shoppingmall/service/UserServiceImplTest.java:228-249 | Of the refused pairs, the unknown identification, the unknown identification with a wrong password and the empty identification fail with BadCredentials. |
| `UserServiceScenarios.DetailsAfterSignUp` | src/test/java/jihong99/shoppingmall/service/UserServiceImplTest.java:251-270 | The my-page query returns the signed-up identification, name, birth date and phone number with no addresses. |
| `UserServiceScenarios.DetailsWithAddresses` | src/test/java/jihong99/shoppingmall/service/UserServiceImplTest.java:272-298 | With two addresses registered for the signed-up user and one for another user, the my-page query returns the profile and exactly the user's two addresses. |
| `UserServiceScenarios.DetailsOfUnknownUser` | src/test/java/jihong99/shoppingmall/service/UserServiceImplTest.java:300-309 | The my-page query of id -1, which no account has, fails with NotFound. |

## Left out

- Spring Security's authentication manager and the security context are out of the model. Authentication is the `AuthenticatesAs` predicate: an account with the identification and a stored hash that the encoder matches. Account status flags (locked, disabled, expired) are taken to be always fine, because the user-details class is not part of this model.
- Password hashing is reduced to a deterministic function chosen by the caller. Salting, which makes BCrypt's `encode` differ from call to call, is not modelled; `Matches` is "`encode` gives the stored hash".
- The JWT provider (`generateAccessToken`, `generateRefreshToken`, token validation and the token-refresh endpoint) is not part of this model. The issued refresh token is a parameter of the login method.
- `getUsers` paging is left out: it only wraps a generated query that is not part of this model.
- UserServices.MapToUser: `UserMapper` is not part of this model. The model copies identification, name, birth date and phone number and leaves every other field null. The `Users` entity is not part of this model either, so fields the code never sets are taken to stay null, with no builder defaults.
- Dates.Parse: accepts only the four-digit, unsigned year form (0000 to 9999). `LocalDate.parse` also reads signed years of more digits, such as `+10000-01-01`. If the mapper instead used a pattern formatter with its default lenient (SMART) resolver, it would read a day past the end of the month, such as `1999-02-30`, as the last day of that month, where `Dates.Parse` rejects it.
- Repositories.UserRepository.SaveNew: requires the identification to be free, which keeps uniqueness an invariant of the table. The database's own unique constraint, which would turn a racing duplicate insert into an error, is not part of this model; every caller in the model checks the identification first, as the source does.
- Registration date, creation and modification timestamps are left out: they come from the clock.
- The super-admin creation message printed to standard output is left out: it is I/O.
- Transactions and the race between the duplicate check and the insert are not modelled; each method runs alone on the tables. Every failure path raises before anything is saved, so no rollback is needed.
- UserServices.UserServiceImpl.GetUserDetails: reports `NotFound` with the id it was given. The message text "User not found with id: " followed by the id is not built.
- LoginResponses.Success: the values of the constants class (`STATUS_200`, `MESSAGE_200_LoginSuccess`) are not part of this model. The strings used for them are placeholders, and the contracts name the constants only.
- ItemRequests.Validate: returns its errors in declaration order. Bean Validation returns an unordered set of violations, so only membership, not order, matches the source.
- String lengths in `ItemRequests` count Unicode scalar values. Java's `String.length()` counts UTF-16 code units, so a character outside the Basic Multilingual Plane counts once here and twice in the source.
- Integer widths are left out: Java's `Integer`/`Long` overflow happens while the request is read, before validation.
- Null strings on the sign-up and login forms are left out: the model's form fields are non-null strings. In the Java code a null confirmation makes `equals` return false, so sign-up fails with the password-mismatch error. A null password fails with a null-pointer exception only after the duplicate check, so a taken identification still gives the duplicate error. A null identification reaches the repository's `is null` query without an exception. Null login fields are refused by the authentication manager as bad credentials.
