/** Start-up seeding: the super administrator account is inserted when, and
    only when, no account holds its identification yet. */
module DataInitializers {
  import opened Wrappers
  import opened Accounts
  import opened Repositories

  const SUPER_ADMIN_IDENTIFICATION := "superadmin"
  const SUPER_ADMIN_PASSWORD := "superadmin_password"

  /** The super administrator record: identification, hashed password and the
      SUPER_ADMIN role, nothing else. */
  function SuperAdminAccount(encoder: PasswordEncoder): (a: Account)
    ensures a.identification == SUPER_ADMIN_IDENTIFICATION
    ensures a.password.Some? && encoder.Matches(SUPER_ADMIN_PASSWORD, a.password.value)
    ensures a.role == Some(SUPER_ADMIN)
    ensures a == NewAccount(SUPER_ADMIN_IDENTIFICATION).(password := a.password, role := a.role)
  {
    NewAccount(SUPER_ADMIN_IDENTIFICATION).(password := Some(encoder.encode(SUPER_ADMIN_PASSWORD)),
                                            role := Some(SUPER_ADMIN))
  }

  /** The user table after seeding, where `freshId` is the id the next insert gets.
      Afterwards the super administrator exists, and every account that was
      there before is still there, unchanged. */
  function WithSuperAdmin(users: map<UserId, Account>, freshId: UserId, encoder: PasswordEncoder)
    : (r: map<UserId, Account>)
    requires freshId !in users
    ensures IdentificationTaken(r, SUPER_ADMIN_IDENTIFICATION)
    ensures forall id | id in users :: id in r && r[id] == users[id]
    ensures IdentificationTaken(users, SUPER_ADMIN_IDENTIFICATION) ==> r == users
    ensures !IdentificationTaken(users, SUPER_ADMIN_IDENTIFICATION) ==>
              r.Keys == users.Keys + {freshId} && r[freshId] == SuperAdminAccount(encoder)
  {
    if IdentificationTaken(users, SUPER_ADMIN_IDENTIFICATION) then users
    else
      var r := users[freshId := SuperAdminAccount(encoder)];
      assert r[freshId].identification == SUPER_ADMIN_IDENTIFICATION;
      r
  }

  /** Seeding twice leaves the table as seeding once, whatever id the second
      run would have used. */
  lemma SeedingIsIdempotent(users: map<UserId, Account>, freshId: UserId, laterId: UserId,
                            encoder: PasswordEncoder)
    requires freshId !in users
    requires laterId !in WithSuperAdmin(users, freshId, encoder)
    ensures WithSuperAdmin(WithSuperAdmin(users, freshId, encoder), laterId, encoder)
         == WithSuperAdmin(users, freshId, encoder)
  {
  }

  /** Seeding keeps identifications unique. */
  lemma SeedingKeepsUnique(users: map<UserId, Account>, freshId: UserId, encoder: PasswordEncoder)
    requires UniqueIdentifications(users) && freshId !in users
    ensures UniqueIdentifications(WithSuperAdmin(users, freshId, encoder))
  {
    if !IdentificationTaken(users, SUPER_ADMIN_IDENTIFICATION) {
      InsertKeepsUnique(users, freshId, SuperAdminAccount(encoder));
    }
  }

  /** After seeding exactly one account is the super administrator. */
  lemma SeedingLeavesOneSuperAdmin(users: map<UserId, Account>, freshId: UserId, encoder: PasswordEncoder)
    requires UniqueIdentifications(users) && freshId !in users
    ensures |HoldersOf(WithSuperAdmin(users, freshId, encoder), SUPER_ADMIN_IDENTIFICATION)| == 1
  {
    SeedingKeepsUnique(users, freshId, encoder);
    TakenIdentificationHasOneHolder(WithSuperAdmin(users, freshId, encoder), SUPER_ADMIN_IDENTIFICATION);
  }

  class DataInitializer {
    const userRepository: UserRepository
    const passwordEncoder: PasswordEncoder

    constructor (userRepository: UserRepository, passwordEncoder: PasswordEncoder)
      ensures this.userRepository == userRepository && this.passwordEncoder == passwordEncoder
    {
      this.userRepository := userRepository;
      this.passwordEncoder := passwordEncoder;
    }

    /** `init`, run once the application has started. */
    method Init()
      requires userRepository.Valid()
      modifies userRepository
      ensures userRepository.Valid()
      ensures old(userRepository.nextId) !in old(userRepository.users)
      ensures userRepository.users ==
                WithSuperAdmin(old(userRepository.users), old(userRepository.nextId), passwordEncoder)
    {
      CreateSuperAdmin();
    }

    /** `createSuperAdmin`: the conditional insert. */
    method CreateSuperAdmin()
      requires userRepository.Valid()
      modifies userRepository
      ensures userRepository.Valid()
      ensures old(userRepository.nextId) !in old(userRepository.users)
      ensures userRepository.users ==
                WithSuperAdmin(old(userRepository.users), old(userRepository.nextId), passwordEncoder)
      ensures IdentificationTaken(old(userRepository.users), SUPER_ADMIN_IDENTIFICATION) ==>
                unchanged(userRepository)
    {
      var found := userRepository.FindByIdentification(SUPER_ADMIN_IDENTIFICATION);
      if found.None? {
        var superAdmin := NewAccount(SUPER_ADMIN_IDENTIFICATION)
                            .(password := Some(passwordEncoder.encode(SUPER_ADMIN_PASSWORD)));
        superAdmin := superAdmin.(role := Some(SUPER_ADMIN));
        var id := userRepository.SaveNew(superAdmin);
      }
    }
  }
}
