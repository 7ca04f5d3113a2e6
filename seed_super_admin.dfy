/** The start-up seeding of the super admin account from the three `SUPERADMIN_*` settings:
    at most one insert, guarded by the settings being present and by no account having the
    seed email yet. Every failure is logged and swallowed, so the method has no result. */
module SeedSuperAdmin {
  import opened Common
  import opened Records
  import opened AuthRoutes

  datatype SeedConfig = SeedConfig(email: Option<string>, username: Option<string>, password: Option<string>)

  predicate Configured(config: SeedConfig) {
    Truthy(config.email) && Truthy(config.username) && Truthy(config.password)
  }

  /** Whether a run inserts: the settings are present, no account has the seed email, and the
      save succeeds (`saveOk`; a failed save is caught and only logged). The save also fails
      when the seed username is already taken, through the unique username index, so the
      caller passes `saveOk` false then. */
  predicate Inserts(users: seq<User>, config: SeedConfig, saveOk: bool) {
    Configured(config) && FindByEmail(users, config.email.value).None? && saveOk
  }

  /** `seedSuperAdmin()` against the store. */
  method Seed(store: AccountStore, config: SeedConfig, hash: string -> string, saveOk: bool, now: int)
    requires store.Valid()
    modifies store`users, store`nextId
    ensures store.Valid()
    ensures !Inserts(old(store.users), config, saveOk) ==> store.users == old(store.users)
    ensures Inserts(old(store.users), config, saveOk) ==>
              store.users == old(store.users) + [User(old(store.nextId), config.username.value, config.email.value,
                                                      hash(config.password.value), SuperAdminRole, false, now, now)]
  {
    if !Truthy(config.email) || !Truthy(config.username) || !Truthy(config.password) {
      return;
    }
    var existing := FindByEmail(store.users, config.email.value);
    if existing.Some? {
      return;
    }
    if !saveOk {
      return;
    }
    store.AddUser(config.username.value, config.email.value, hash(config.password.value), SuperAdminRole, now);
  }

  /** After a run that inserted, the seed email is taken, so any later run inserts nothing. */
  lemma SeedIdempotent(users: seq<User>, config: SeedConfig, saveOk: bool, seeded: User, saveOk2: bool)
    requires Inserts(users, config, saveOk)
    requires seeded.email == config.email.value
    ensures !Inserts(users + [seeded], config, saveOk2)
  {
    var after := users + [seeded];
    assert after[|users|].email == config.email.value;
  }

  /** An account under the seed email blocks the seed even when it is not a super admin. */
  lemma ExistingEmailBlocksSeed(users: seq<User>, config: SeedConfig, saveOk: bool, i: nat)
    requires i < |users| && Configured(config) && users[i].email == config.email.value
    ensures !Inserts(users, config, saveOk)
  {
  }
}
