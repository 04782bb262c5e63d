/**
 * First-start seeding. On start each record kind's storage class is
 * registered; the first time a kind is registered (its storage is created,
 * so it holds no records) the defaults of that kind are added one by one.
 * Kinds are seeded in the order users, roles, privileges, mappings, and a
 * failing add aborts the start.
 */
module Seeding {
  import opened Wrappers
  import opened Entities
  import opened Store

  /** What the defaults source returns; each list may be null. */
  datatype SecurityDefaults = SecurityDefaults(
    users: Option<seq<CUser>>,
    roles: Option<seq<CRole>>,
    privileges: Option<seq<CPrivilege>>,
    userRoleMappings: Option<seq<CUserRoleMapping>>)

  /** The durable state: which kinds have their storage class, and the records of each kind. */
  datatype Database = Database(
    registered: set<Kind>,
    users: map<string, Doc<CUser>>,
    roles: map<string, Doc<CRole>>,
    privileges: map<string, Doc<CPrivilege>>,
    mappings: map<MappingKey, Doc<CUserRoleMapping>>)

  /** Records are stored under their own identity, and a kind whose storage was never created has none. */
  ghost predicate ValidDatabase(db: Database) {
    && KeyedBy(db.users, UserKey)
    && KeyedBy(db.roles, RoleKey)
    && KeyedBy(db.privileges, PrivilegeKey)
    && KeyedBy(db.mappings, MappingKeyOf)
    && (UserKind !in db.registered ==> db.users == map[])
    && (RoleKind !in db.registered ==> db.roles == map[])
    && (PrivilegeKind !in db.registered ==> db.privileges == map[])
    && (MappingKind !in db.registered ==> db.mappings == map[])
  }

  /** One kind's `register` call: its callback seeds the defaults only the first time the kind is registered. */
  function Stage<K, E>(registered: set<Kind>, kind: Kind, m: map<K, Doc<E>>, defaults: Option<seq<E>>, keyOf: E -> K): Batch<K, E> {
    if kind in registered then Batch(m, None) else Seed(m, defaults, keyOf)
  }

  /** `doStart`: the four registrations in order; the first failing add ends the start with that error. */
  function Bootstrap(db: Database, d: SecurityDefaults): (Database, Outcome<Error>) {
    var u := Stage(db.registered, UserKind, db.users, d.users, UserKey);
    var db1 := db.(registered := db.registered + {UserKind}, users := u.records);
    if u.duplicate.Some? then (db1, Fail(DuplicateKey)) else
    var r := Stage(db1.registered, RoleKind, db1.roles, d.roles, RoleKey);
    var db2 := db1.(registered := db1.registered + {RoleKind}, roles := r.records);
    if r.duplicate.Some? then (db2, Fail(DuplicateKey)) else
    var p := Stage(db2.registered, PrivilegeKind, db2.privileges, d.privileges, PrivilegeKey);
    var db3 := db2.(registered := db2.registered + {PrivilegeKind}, privileges := p.records);
    if p.duplicate.Some? then (db3, Fail(DuplicateKey)) else
    var m := Stage(db3.registered, MappingKind, db3.mappings, d.userRoleMappings, MappingKeyOf);
    var db4 := db3.(registered := db3.registered + {MappingKind}, mappings := m.records);
    (db4, if m.duplicate.Some? then Fail(DuplicateKey) else Pass)
  }

  /** The list a defaults getter returns, a null list read as an empty one. */
  function Listed<E>(defaults: Option<seq<E>>): seq<E> {
    if defaults.None? then [] else defaults.value
  }

  /** Every kind is one of the four. */
  lemma KindsAreAll(s: set<Kind>)
    ensures s <= AllKinds
  {
    forall k | k in s ensures k in AllKinds {
      match k
      case UserKind =>
      case RoleKind =>
      case PrivilegeKind =>
      case MappingKind =>
    }
  }

  /** A `register` call keeps every record under its own identity. */
  lemma StageKeeps<K, E>(registered: set<Kind>, kind: Kind, m: map<K, Doc<E>>, defaults: Option<seq<E>>, keyOf: E -> K)
    requires KeyedBy(m, keyOf)
    ensures KeyedBy(Stage(registered, kind, m, defaults, keyOf).records, keyOf)
  {
    if kind !in registered && defaults.Some? && defaults.value != [] {
      AddAllKeeps(m, defaults.value, keyOf);
    }
  }

  /** Starting keeps the database consistent, whether it succeeds or not, and registers every kind it reached. */
  lemma BootstrapValid(db: Database, d: SecurityDefaults)
    requires ValidDatabase(db)
    ensures ValidDatabase(Bootstrap(db, d).0)
    ensures db.registered <= Bootstrap(db, d).0.registered
    ensures Bootstrap(db, d).1 == Pass ==> Bootstrap(db, d).0.registered == AllKinds
  {
    var u := Stage(db.registered, UserKind, db.users, d.users, UserKey);
    StageKeeps(db.registered, UserKind, db.users, d.users, UserKey);
    var db1 := db.(registered := db.registered + {UserKind}, users := u.records);
    assert ValidDatabase(db1);
    if u.duplicate.Some? {
      assert Bootstrap(db, d).0 == db1;
      return;
    }
    var r := Stage(db1.registered, RoleKind, db1.roles, d.roles, RoleKey);
    StageKeeps(db1.registered, RoleKind, db1.roles, d.roles, RoleKey);
    var db2 := db1.(registered := db1.registered + {RoleKind}, roles := r.records);
    assert ValidDatabase(db2);
    if r.duplicate.Some? {
      assert Bootstrap(db, d).0 == db2;
      return;
    }
    var p := Stage(db2.registered, PrivilegeKind, db2.privileges, d.privileges, PrivilegeKey);
    StageKeeps(db2.registered, PrivilegeKind, db2.privileges, d.privileges, PrivilegeKey);
    var db3 := db2.(registered := db2.registered + {PrivilegeKind}, privileges := p.records);
    assert ValidDatabase(db3);
    if p.duplicate.Some? {
      assert Bootstrap(db, d).0 == db3;
      return;
    }
    var m := Stage(db3.registered, MappingKind, db3.mappings, d.userRoleMappings, MappingKeyOf);
    StageKeeps(db3.registered, MappingKind, db3.mappings, d.userRoleMappings, MappingKeyOf);
    var db4 := db3.(registered := db3.registered + {MappingKind}, mappings := m.records);
    assert ValidDatabase(db4);
    assert Bootstrap(db, d).0 == db4;
    KindsAreAll(db.registered);
    assert db4.registered == db.registered + AllKinds;
  }

  /** A database whose kinds are all registered (a restart) is left exactly as it is: defaults are never applied twice. */
  lemma BootstrapIdempotent(db: Database, d: SecurityDefaults)
    requires db.registered == AllKinds
    ensures Bootstrap(db, d) == (db, Pass)
  {
    assert db.registered + {UserKind} == db.registered;
    assert db.registered + {RoleKind} == db.registered;
    assert db.registered + {PrivilegeKind} == db.registered;
    assert db.registered + {MappingKind} == db.registered;
  }

  /** Starting twice seeds at most once: whatever the first start did, a second one that follows a successful start changes nothing. */
  lemma BootstrapTwice(db: Database, d: SecurityDefaults, d': SecurityDefaults)
    requires ValidDatabase(db)
    requires Bootstrap(db, d).1 == Pass
    ensures Bootstrap(Bootstrap(db, d).0, d') == (Bootstrap(db, d).0, Pass)
  {
    BootstrapValid(db, d);
    BootstrapIdempotent(Bootstrap(db, d).0, d');
  }

  /** A start never changes the records of a kind already registered: its defaults are not applied again, even to an emptied store. */
  lemma RegisteredKindsUntouched(db: Database, d: SecurityDefaults)
    ensures UserKind in db.registered ==> Bootstrap(db, d).0.users == db.users
    ensures RoleKind in db.registered ==> Bootstrap(db, d).0.roles == db.roles
    ensures PrivilegeKind in db.registered ==> Bootstrap(db, d).0.privileges == db.privileges
    ensures MappingKind in db.registered ==> Bootstrap(db, d).0.mappings == db.mappings
  {
  }

  /**
   * A failed seeding is not rolled back. Default users `[a, a, c]` make the
   * first start store `a`, register the user kind and fail at the second
   * `a`; a restart with the same defaults then succeeds, and under any
   * defaults it keeps `a` as the only user: `c` is never seeded.
   */
  lemma FailedSeedingPersists(a: CUser, c: CUser, d': SecurityDefaults)
    requires a.id != c.id
    ensures var d := SecurityDefaults(Some([a, a, c]), None, None, None);
      var first := Bootstrap(EmptyDatabase(), d);
      && first.1 == Fail(DuplicateKey)
      && UserKind in first.0.registered
      && first.0.users.Keys == {a.id}
      && Bootstrap(first.0, d).1 == Pass
      && Bootstrap(first.0, d').0.users.Keys == {a.id}
  {
    var d := SecurityDefaults(Some([a, a, c]), None, None, None);
    var items := [a, a, c];
    var m1 := map[a.id := Doc(a, InitialVersion)];
    assert AddAll(map[], items, UserKey) == AddAll(m1, items[1..], UserKey);
    assert AddAll(m1, items[1..], UserKey) == Batch(m1, Some(a.id));
    var first := Bootstrap(EmptyDatabase(), d);
    assert first.0.users == m1;
    RegisteredKindsUntouched(first.0, d');
  }

  /** One kind seeded into empty storage with distinct identities: exactly the defaults are stored, one record each. */
  lemma SeedIntoEmpty<K, E>(defaults: Option<seq<E>>, keyOf: E -> K)
    requires FreshKeys(map[], Listed(defaults), keyOf)
    ensures Seed(map[], defaults, keyOf).duplicate.None?
    ensures Seed(map[], defaults, keyOf).records.Keys == KeysOf(Listed(defaults), keyOf)
    ensures |Seed(map[], defaults, keyOf).records| == |Listed(defaults)|
  {
    var items := Listed(defaults);
    AddAllSucceedsIffFresh(map[], items, keyOf);
    AddAllStoredKeys(map[], items, keyOf);
    AddAllSize(map[], items, keyOf);
    assert KeysOf([], keyOf) == {};
  }

  /** Storage that has never been started: no kind registered, no records. */
  function EmptyDatabase(): Database {
    Database({}, map[], map[], map[], map[])
  }

  /** Every kind registered, and each holding the records its defaults seed into empty storage. */
  function Seeded(d: SecurityDefaults): Database {
    Database(AllKinds,
      Seed(map[], d.users, UserKey).records,
      Seed(map[], d.roles, RoleKey).records,
      Seed(map[], d.privileges, PrivilegeKey).records,
      Seed(map[], d.userRoleMappings, MappingKeyOf).records)
  }

  /** Against empty storage, a start whose four seedings each succeed registers every kind and stores what they seeded. */
  lemma BootstrapEmptyStages(d: SecurityDefaults)
    requires Seed(map[], d.users, UserKey).duplicate.None?
    requires Seed(map[], d.roles, RoleKey).duplicate.None?
    requires Seed(map[], d.privileges, PrivilegeKey).duplicate.None?
    requires Seed(map[], d.userRoleMappings, MappingKeyOf).duplicate.None?
    ensures Bootstrap(EmptyDatabase(), d) == (Seeded(d), Pass)
  {
    assert Stage({}, UserKind, map[], d.users, UserKey) == Seed(map[], d.users, UserKey);
    assert Stage({UserKind}, RoleKind, map[], d.roles, RoleKey) == Seed(map[], d.roles, RoleKey);
    assert Stage({UserKind, RoleKind}, PrivilegeKind, map[], d.privileges, PrivilegeKey)
      == Seed(map[], d.privileges, PrivilegeKey);
    assert Stage({UserKind, RoleKind, PrivilegeKind}, MappingKind, map[], d.userRoleMappings, MappingKeyOf)
      == Seed(map[], d.userRoleMappings, MappingKeyOf);
    assert {} + {UserKind} == {UserKind};
    assert {UserKind} + {RoleKind} == {UserKind, RoleKind};
    assert {UserKind, RoleKind} + {PrivilegeKind} == {UserKind, RoleKind, PrivilegeKind};
    assert {UserKind, RoleKind, PrivilegeKind} + {MappingKind} == AllKinds;
  }

  /**
   * Starting against empty storage, with defaults whose identities are
   * distinct within each kind, succeeds and leaves each kind holding exactly
   * its defaults: as many records as the defaults list has entries.
   */
  lemma BootstrapEmpty(d: SecurityDefaults)
    requires FreshKeys(map[], Listed(d.users), UserKey)
    requires FreshKeys(map[], Listed(d.roles), RoleKey)
    requires FreshKeys(map[], Listed(d.privileges), PrivilegeKey)
    requires FreshKeys(map[], Listed(d.userRoleMappings), MappingKeyOf)
    ensures Bootstrap(EmptyDatabase(), d) == (Seeded(d), Pass)
    ensures |Seeded(d).users| == |Listed(d.users)|
    ensures |Seeded(d).roles| == |Listed(d.roles)|
    ensures |Seeded(d).privileges| == |Listed(d.privileges)|
    ensures |Seeded(d).mappings| == |Listed(d.userRoleMappings)|
    ensures Seeded(d).users.Keys == KeysOf(Listed(d.users), UserKey)
    ensures Seeded(d).roles.Keys == KeysOf(Listed(d.roles), RoleKey)
    ensures Seeded(d).privileges.Keys == KeysOf(Listed(d.privileges), PrivilegeKey)
    ensures Seeded(d).mappings.Keys == KeysOf(Listed(d.userRoleMappings), MappingKeyOf)
  {
    SeedIntoEmpty(d.users, UserKey);
    SeedIntoEmpty(d.roles, RoleKey);
    SeedIntoEmpty(d.privileges, PrivilegeKey);
    SeedIntoEmpty(d.userRoleMappings, MappingKeyOf);
    BootstrapEmptyStages(d);
  }
}
