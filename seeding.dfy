/** Seeding the user registry with the fixed regular and admin usernames. */
module Seeding {
  import opened RedisCommands
  import opened Store

  const REGULAR_USERS: seq<string> := ["Alice", "Malory"]
  const ADMIN_USERS: seq<string> := ["Dizzzmas", "Ilya"]

  /** The store after seed_db: both registry sets gain their fixed names, nothing else changes. */
  function Seed(ks: Keyspace): (s: Keyspace)
    ensures s.regularUsers == ks.regularUsers + {"Alice", "Malory"}
    ensures s.adminUsers == ks.adminUsers + {"Dizzzmas", "Ilya"}
    ensures s == ks.(regularUsers := s.regularUsers, adminUsers := s.adminUsers)
  {
    ks.(regularUsers := SAdd(ks.regularUsers, REGULAR_USERS),
        adminUsers := SAdd(ks.adminUsers, ADMIN_USERS))
  }

  /** seed_db: SADD the regular names, then SADD the admin names. */
  method SeedDb(r: Redis)
    modifies r
    ensures r.Snapshot() == Seed(old(r.Snapshot()))
  {
    r.regularUsers := SAdd(r.regularUsers, REGULAR_USERS);
    r.adminUsers := SAdd(r.adminUsers, ADMIN_USERS);
  }

  /** Seeding twice leaves the store as seeding once does. */
  lemma SeedIdempotent(ks: Keyspace)
    ensures Seed(Seed(ks)) == Seed(ks)
  {
  }

  /** Seeding only adds: every registry member before is still one after. */
  lemma SeedOnlyAdds(ks: Keyspace)
    ensures ks.regularUsers <= Seed(ks).regularUsers && ks.adminUsers <= Seed(ks).adminUsers
  {
  }
}
