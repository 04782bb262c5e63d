/**
 * The security configuration source: a create/read/update/delete facade
 * over the stored users, roles, privileges and user/role mappings, with
 * an optimistic version check on every update, a default-source mapping
 * kept beside every user, and first-start seeding from the defaults.
 *
 * The configuration view the source hands out holds no state of its own,
 * so its operations are methods of the source here, acting on the
 * database the source owns: four maps from identity to stored record, the
 * set of record kinds whose storage class exists, and the lifecycle's
 * started flag that every operation checks first.
 */
module SecuritySource {
  import opened Wrappers
  import opened Entities
  import opened Store
  import opened Seeding

  /** What `read` and `browse` give a caller: the stored fields, carrying the stored version's token. */
  function UserView(d: Doc<CUser>): (u: CUser)
    ensures u.id == d.entity.id && u.version == Some(Token(d))
  {
    d.entity.(version := Some(Token(d)))
  }

  function RoleView(d: Doc<CRole>): (r: CRole)
    ensures r.id == d.entity.id && r.version == Some(Token(d))
  {
    d.entity.(version := Some(Token(d)))
  }

  function PrivilegeView(d: Doc<CPrivilege>): (p: CPrivilege)
    ensures p.id == d.entity.id && p.version == Some(Token(d))
  {
    d.entity.(version := Some(Token(d)))
  }

  function MappingView(d: Doc<CUserRoleMapping>): (m: CUserRoleMapping)
    ensures MappingKeyOf(m) == MappingKeyOf(d.entity) && m.version == Some(Token(d))
  {
    d.entity.(version := Some(Token(d)))
  }

  /** `mapping(userId, roles)`: the user's mapping under the default source, carrying no version. */
  function Mapping(userId: string, roles: set<string>): (m: CUserRoleMapping)
    ensures MappingKeyOf(m) == MappingKey(userId, DEFAULT_SOURCE)
    ensures m.roles == roles && m.version.None?
  {
    CUserRoleMapping(userId, DEFAULT_SOURCE, None, roles)
  }

  /** `readDocument`: the stored record at an identity, if any. */
  function ReadDocument<K, E>(m: map<K, Doc<E>>, k: K): (d: Option<Doc<E>>)
    ensures d.Some? <==> k in m
    ensures d.Some? ==> d.value == m[k]
  {
    if k in m then Some(m[k]) else None
  }

  class OrientSecurityConfigurationSource {
    var started: bool
    var registered: set<Kind>
    var users: map<string, Doc<CUser>>
    var roles: map<string, Doc<CRole>>
    var privileges: map<string, Doc<CPrivilege>>
    var mappings: map<MappingKey, Doc<CUserRoleMapping>>

    /** The durable state, as one value. */
    ghost function Db(): Database
      reads this
    {
      Database(registered, users, roles, privileges, mappings)
    }

    /** The database is consistent, and a started source has every kind's storage in place. */
    ghost predicate Valid()
      reads this
    {
      ValidDatabase(Db()) && (started ==> registered == AllKinds)
    }

    /** A stopped source over a database (empty, or restored from an earlier run). */
    constructor (db: Database)
      requires ValidDatabase(db)
      ensures Valid() && !started && Db() == db
    {
      started := false;
      registered := db.registered;
      users := db.users;
      roles := db.roles;
      privileges := db.privileges;
      mappings := db.mappings;
    }

    //
    // Lifecycle
    //

    /** `register`: creates the kind's storage class if it does not exist; the callback runs only when it did not. */
    method Register(kind: Kind) returns (firstUse: bool)
      modifies this`registered
      ensures registered == old(registered) + {kind}
      ensures firstUse == (kind !in old(registered))
    {
      firstUse := kind !in registered;
      registered := registered + {kind};
    }

    /** `userEntityAdapter.register` with the callback that adds the default users. */
    method RegisterUsers(defaults: Option<seq<CUser>>) returns (b: Batch<string, CUser>)
      modifies this`registered, this`users
      ensures b == Stage(old(registered), UserKind, old(users), defaults, UserKey)
      ensures registered == old(registered) + {UserKind} && users == b.records
    {
      var firstUse := Register(UserKind);
      b := Batch(users, None);
      if firstUse && defaults.Some? && defaults.value != [] {
        b := AddEach(users, defaults.value, UserKey);
        users := b.records;
      }
    }

    /** `roleEntityAdapter.register` with the callback that adds the default roles. */
    method RegisterRoles(defaults: Option<seq<CRole>>) returns (b: Batch<string, CRole>)
      modifies this`registered, this`roles
      ensures b == Stage(old(registered), RoleKind, old(roles), defaults, RoleKey)
      ensures registered == old(registered) + {RoleKind} && roles == b.records
    {
      var firstUse := Register(RoleKind);
      b := Batch(roles, None);
      if firstUse && defaults.Some? && defaults.value != [] {
        b := AddEach(roles, defaults.value, RoleKey);
        roles := b.records;
      }
    }

    /** `privilegeEntityAdapter.register` with the callback that adds the default privileges. */
    method RegisterPrivileges(defaults: Option<seq<CPrivilege>>) returns (b: Batch<string, CPrivilege>)
      modifies this`registered, this`privileges
      ensures b == Stage(old(registered), PrivilegeKind, old(privileges), defaults, PrivilegeKey)
      ensures registered == old(registered) + {PrivilegeKind} && privileges == b.records
    {
      var firstUse := Register(PrivilegeKind);
      b := Batch(privileges, None);
      if firstUse && defaults.Some? && defaults.value != [] {
        b := AddEach(privileges, defaults.value, PrivilegeKey);
        privileges := b.records;
      }
    }

    /** `userRoleMappingEntityAdapter.register` with the callback that adds the default mappings. */
    method RegisterMappings(defaults: Option<seq<CUserRoleMapping>>) returns (b: Batch<MappingKey, CUserRoleMapping>)
      modifies this`registered, this`mappings
      ensures b == Stage(old(registered), MappingKind, old(mappings), defaults, MappingKeyOf)
      ensures registered == old(registered) + {MappingKind} && mappings == b.records
    {
      var firstUse := Register(MappingKind);
      b := Batch(mappings, None);
      if firstUse && defaults.Some? && defaults.value != [] {
        b := AddEach(mappings, defaults.value, MappingKeyOf);
        mappings := b.records;
      }
    }

    /** `doStart`: registers the four kinds in order; an add that fails while seeding aborts the start. */
    method DoStart(d: SecurityDefaults) returns (r: Outcome<Error>)
      requires Valid() && !started
      modifies this`registered, this`users, this`roles, this`privileges, this`mappings
      ensures Valid()
      ensures (Db(), r) == Bootstrap(old(Db()), d)
    {
      ghost var db0 := Db();
      BootstrapValid(db0, d);
      var seededUsers := RegisterUsers(d.users);
      ghost var db1 := db0.(registered := db0.registered + {UserKind}, users := seededUsers.records);
      assert Db() == db1;
      if seededUsers.duplicate.Some? {
        return Fail(DuplicateKey);
      }
      var seededRoles := RegisterRoles(d.roles);
      ghost var db2 := db1.(registered := db1.registered + {RoleKind}, roles := seededRoles.records);
      assert Db() == db2;
      if seededRoles.duplicate.Some? {
        return Fail(DuplicateKey);
      }
      var seededPrivileges := RegisterPrivileges(d.privileges);
      ghost var db3 := db2.(registered := db2.registered + {PrivilegeKind}, privileges := seededPrivileges.records);
      assert Db() == db3;
      if seededPrivileges.duplicate.Some? {
        return Fail(DuplicateKey);
      }
      var seededMappings := RegisterMappings(d.userRoleMappings);
      assert Db() == db3.(registered := db3.registered + {MappingKind}, mappings := seededMappings.records);
      r := if seededMappings.duplicate.Some? then Fail(DuplicateKey) else Pass;
    }

    /** The lifecycle's start: the source is started exactly when seeding succeeded. */
    method Start(d: SecurityDefaults) returns (r: Outcome<Error>)
      requires Valid() && !started
      modifies this
      ensures Valid()
      ensures (Db(), r) == Bootstrap(old(Db()), d)
      ensures started <==> r == Pass
    {
      BootstrapValid(Db(), d);
      r := DoStart(d);
      started := r == Pass;
    }

    /** The lifecycle's stop: the records stay, the operations are refused until the next start. */
    method Stop()
      requires Valid()
      modifies this`started
      ensures Valid() && !started
    {
      started := false;
    }

    /** `openDb`: every operation first insists that the source is started. */
    method OpenDb() returns (r: Outcome<Error>)
      ensures r == Pass <==> started
      ensures r.Fail? ==> r.error == NotStarted
    {
      r := if started then Pass else Fail(NotStarted);
    }

    //
    // Users
    //

    method GetUsers() returns (r: Result<seq<CUser>, Error>)
      requires Valid()
      ensures !started ==> r == Failure(NotStarted)
      ensures started ==> r.Success? && |r.value| == |users|
      ensures started ==> forall id :: id in users ==> UserView(users[id]) in r.value
      ensures started ==> forall u :: u in r.value ==> u.id in users && u == UserView(users[u.id])
    {
      var db := OpenDb();
      if db.Fail? {
        return Failure(db.error);
      }
      var all := Browse(users, UserView);
      return Success(all);
    }

    method GetUser(id: string) returns (r: Result<Option<CUser>, Error>)
      ensures !started ==> r == Failure(NotStarted)
      ensures started ==> r.Success? && (r.value.Some? <==> id in users)
      ensures started && id in users ==> r.value == Some(UserView(users[id]))
    {
      var db := OpenDb();
      if db.Fail? {
        return Failure(db.error);
      }
      var document := ReadDocument(users, id);
      return Success(if document.Some? then Some(UserView(document.value)) else None);
    }

    /** Stores the user, then its mapping under the default source; each add is refused on an identity already stored. */
    method AddUser(user: CUser, roleIds: set<string>) returns (r: Outcome<Error>)
      requires Valid()
      modifies this`users, this`mappings
      ensures Valid()
      ensures !started ==> r == Fail(NotStarted) && users == old(users) && mappings == old(mappings)
      ensures started && user.id in old(users) ==>
        r == Fail(DuplicateKey) && users == old(users) && mappings == old(mappings)
      ensures started && user.id !in old(users) ==>
        users == old(users)[user.id := Doc(user, InitialVersion)]
      ensures started && user.id !in old(users) && MappingKey(user.id, DEFAULT_SOURCE) in old(mappings) ==>
        r == Fail(DuplicateKey) && mappings == old(mappings)
      ensures started && user.id !in old(users) && MappingKey(user.id, DEFAULT_SOURCE) !in old(mappings) ==>
        r == Pass && mappings == old(mappings)[MappingKey(user.id, DEFAULT_SOURCE) := Doc(Mapping(user.id, roleIds), InitialVersion)]
    {
      var db := OpenDb();
      if db.Fail? {
        return db;
      }
      if user.id in users {
        return Fail(DuplicateKey);
      }
      users := users[user.id := Doc(user, InitialVersion)];
      r := AddUserRoleMapping(Mapping(user.id, roleIds));
    }

    /**
     * Checks and writes the user, then writes its default-source mapping
     * with the new roles, adding the mapping instead when there is none.
     */
    method UpdateUser(user: CUser, roleIds: set<string>) returns (r: Outcome<Error>)
      requires Valid()
      modifies this`users, this`mappings
      ensures Valid()
      ensures !started ==> r == Fail(NotStarted) && users == old(users) && mappings == old(mappings)
      ensures started ==> match CheckVersion(old(users), user.id, user.version)
        case Missing =>
          r == Fail(UserNotFound(user.id)) && users == old(users) && mappings == old(mappings)
        case Stale =>
          r == Fail(ConcurrentlyModified("User", user.id)) && users == old(users) && mappings == old(mappings)
        case Current =>
          && r == Pass
          && users == Write(old(users), user.id, user)
          && var key := MappingKey(user.id, DEFAULT_SOURCE);
             mappings == if key in old(mappings) then Write(old(mappings), key, Mapping(user.id, roleIds))
                         else old(mappings)[key := Doc(Mapping(user.id, roleIds), InitialVersion)]
      ensures r == Pass ==>
        var key := MappingKey(user.id, DEFAULT_SOURCE);
        key in mappings && mappings[key].entity.roles == roleIds
    {
      var db := OpenDb();
      if db.Fail? {
        return db;
      }
      var document := ReadDocument(users, user.id);
      if document.None? {
        return Fail(UserNotFound(user.id));
      }
      if user.version.Some? && user.version.value != Token(document.value) {
        return Fail(ConcurrentlyModified("User", user.id));
      }
      assert CheckVersion(users, user.id, user.version) == Current;
      users := Write(users, user.id, user);
      var mapping := Mapping(user.id, roleIds);
      assert mapping.version.None? && MappingKeyOf(mapping) == MappingKey(user.id, DEFAULT_SOURCE);
      r := UpdateUserRoleMapping(mapping);
      if r.Fail? && r.error.NoSuchRoleMapping? {
        r := AddUserRoleMapping(mapping);
      }
    }

    /** Deletes the user and, only when it existed, its default-source mapping; answers whether it existed. */
    method RemoveUser(id: string) returns (r: Result<bool, Error>)
      requires Valid()
      modifies this`users, this`mappings
      ensures Valid()
      ensures !started ==> r == Failure(NotStarted) && users == old(users) && mappings == old(mappings)
      ensures started ==> r == Success(id in old(users)) && users == old(users) - {id}
      ensures started && id in old(users) ==> mappings == old(mappings) - {MappingKey(id, DEFAULT_SOURCE)}
      ensures started && id !in old(users) ==> mappings == old(mappings)
    {
      var db := OpenDb();
      if db.Fail? {
        return Failure(db.error);
      }
      var deleted := id in users;
      users := users - {id};
      if deleted {
        var mappingRemoved := RemoveUserRoleMapping(id, DEFAULT_SOURCE);
        return Success(true);
      }
      return Success(false);
    }

    //
    // Privileges
    //

    method GetPrivileges() returns (r: Result<seq<CPrivilege>, Error>)
      requires Valid()
      ensures !started ==> r == Failure(NotStarted)
      ensures started ==> r.Success? && |r.value| == |privileges|
      ensures started ==> forall id :: id in privileges ==> PrivilegeView(privileges[id]) in r.value
      ensures started ==> forall p :: p in r.value ==> p.id in privileges && p == PrivilegeView(privileges[p.id])
    {
      var db := OpenDb();
      if db.Fail? {
        return Failure(db.error);
      }
      var all := Browse(privileges, PrivilegeView);
      return Success(all);
    }

    method GetPrivilege(id: string) returns (r: Result<Option<CPrivilege>, Error>)
      ensures !started ==> r == Failure(NotStarted)
      ensures started ==> r.Success? && (r.value.Some? <==> id in privileges)
      ensures started && id in privileges ==> r.value == Some(PrivilegeView(privileges[id]))
    {
      var db := OpenDb();
      if db.Fail? {
        return Failure(db.error);
      }
      var document := ReadDocument(privileges, id);
      return Success(if document.Some? then Some(PrivilegeView(document.value)) else None);
    }

    method AddPrivilege(privilege: CPrivilege) returns (r: Outcome<Error>)
      requires Valid()
      modifies this`privileges
      ensures Valid()
      ensures !started ==> r == Fail(NotStarted) && privileges == old(privileges)
      ensures started && privilege.id in old(privileges) ==> r == Fail(DuplicateKey) && privileges == old(privileges)
      ensures started && privilege.id !in old(privileges) ==>
        r == Pass && privileges == old(privileges)[privilege.id := Doc(privilege, InitialVersion)]
    {
      var db := OpenDb();
      if db.Fail? {
        return db;
      }
      if privilege.id in privileges {
        return Fail(DuplicateKey);
      }
      privileges := privileges[privilege.id := Doc(privilege, InitialVersion)];
      return Pass;
    }

    method UpdatePrivilege(privilege: CPrivilege) returns (r: Outcome<Error>)
      requires Valid()
      modifies this`privileges
      ensures Valid()
      ensures !started ==> r == Fail(NotStarted) && privileges == old(privileges)
      ensures started ==> match CheckVersion(old(privileges), privilege.id, privilege.version)
        case Missing =>
          r == Fail(NoSuchPrivilege(privilege.id)) && privileges == old(privileges)
        case Stale =>
          r == Fail(ConcurrentlyModified("Privilege", privilege.id)) && privileges == old(privileges)
        case Current =>
          r == Pass && privileges == Write(old(privileges), privilege.id, privilege)
    {
      var db := OpenDb();
      if db.Fail? {
        return db;
      }
      var document := ReadDocument(privileges, privilege.id);
      if document.None? {
        return Fail(NoSuchPrivilege(privilege.id));
      }
      if privilege.version.Some? && privilege.version.value != Token(document.value) {
        return Fail(ConcurrentlyModified("Privilege", privilege.id));
      }
      privileges := Write(privileges, privilege.id, privilege);
      return Pass;
    }

    method RemovePrivilege(id: string) returns (r: Result<bool, Error>)
      requires Valid()
      modifies this`privileges
      ensures Valid()
      ensures !started ==> r == Failure(NotStarted) && privileges == old(privileges)
      ensures started ==> r == Success(id in old(privileges)) && privileges == old(privileges) - {id}
    {
      var db := OpenDb();
      if db.Fail? {
        return Failure(db.error);
      }
      var deleted := id in privileges;
      privileges := privileges - {id};
      return Success(deleted);
    }

    //
    // Roles
    //

    method GetRoles() returns (r: Result<seq<CRole>, Error>)
      requires Valid()
      ensures !started ==> r == Failure(NotStarted)
      ensures started ==> r.Success? && |r.value| == |roles|
      ensures started ==> forall id :: id in roles ==> RoleView(roles[id]) in r.value
      ensures started ==> forall x :: x in r.value ==> x.id in roles && x == RoleView(roles[x.id])
    {
      var db := OpenDb();
      if db.Fail? {
        return Failure(db.error);
      }
      var all := Browse(roles, RoleView);
      return Success(all);
    }

    method GetRole(id: string) returns (r: Result<Option<CRole>, Error>)
      ensures !started ==> r == Failure(NotStarted)
      ensures started ==> r.Success? && (r.value.Some? <==> id in roles)
      ensures started && id in roles ==> r.value == Some(RoleView(roles[id]))
    {
      var db := OpenDb();
      if db.Fail? {
        return Failure(db.error);
      }
      var document := ReadDocument(roles, id);
      return Success(if document.Some? then Some(RoleView(document.value)) else None);
    }

    method AddRole(role: CRole) returns (r: Outcome<Error>)
      requires Valid()
      modifies this`roles
      ensures Valid()
      ensures !started ==> r == Fail(NotStarted) && roles == old(roles)
      ensures started && role.id in old(roles) ==> r == Fail(DuplicateKey) && roles == old(roles)
      ensures started && role.id !in old(roles) ==>
        r == Pass && roles == old(roles)[role.id := Doc(role, InitialVersion)]
    {
      var db := OpenDb();
      if db.Fail? {
        return db;
      }
      if role.id in roles {
        return Fail(DuplicateKey);
      }
      roles := roles[role.id := Doc(role, InitialVersion)];
      return Pass;
    }

    method UpdateRole(role: CRole) returns (r: Outcome<Error>)
      requires Valid()
      modifies this`roles
      ensures Valid()
      ensures !started ==> r == Fail(NotStarted) && roles == old(roles)
      ensures started ==> match CheckVersion(old(roles), role.id, role.version)
        case Missing =>
          r == Fail(NoSuchRole(role.id)) && roles == old(roles)
        case Stale =>
          r == Fail(ConcurrentlyModified("Role", role.id)) && roles == old(roles)
        case Current =>
          r == Pass && roles == Write(old(roles), role.id, role)
    {
      var db := OpenDb();
      if db.Fail? {
        return db;
      }
      var document := ReadDocument(roles, role.id);
      if document.None? {
        return Fail(NoSuchRole(role.id));
      }
      if role.version.Some? && role.version.value != Token(document.value) {
        return Fail(ConcurrentlyModified("Role", role.id));
      }
      roles := Write(roles, role.id, role);
      return Pass;
    }

    method RemoveRole(id: string) returns (r: Result<bool, Error>)
      requires Valid()
      modifies this`roles
      ensures Valid()
      ensures !started ==> r == Failure(NotStarted) && roles == old(roles)
      ensures started ==> r == Success(id in old(roles)) && roles == old(roles) - {id}
    {
      var db := OpenDb();
      if db.Fail? {
        return Failure(db.error);
      }
      var deleted := id in roles;
      roles := roles - {id};
      return Success(deleted);
    }

    //
    // User/role mappings
    //

    method GetUserRoleMappings() returns (r: Result<seq<CUserRoleMapping>, Error>)
      requires Valid()
      ensures !started ==> r == Failure(NotStarted)
      ensures started ==> r.Success? && |r.value| == |mappings|
      ensures started ==> forall key :: key in mappings ==> MappingView(mappings[key]) in r.value
      ensures started ==> forall m :: m in r.value ==>
        MappingKeyOf(m) in mappings && m == MappingView(mappings[MappingKeyOf(m)])
    {
      var db := OpenDb();
      if db.Fail? {
        return Failure(db.error);
      }
      var all := Browse(mappings, MappingView);
      return Success(all);
    }

    method GetUserRoleMapping(userId: string, source: string) returns (r: Result<Option<CUserRoleMapping>, Error>)
      ensures !started ==> r == Failure(NotStarted)
      ensures started ==> r.Success? && (r.value.Some? <==> MappingKey(userId, source) in mappings)
      ensures started && MappingKey(userId, source) in mappings ==>
        r.value == Some(MappingView(mappings[MappingKey(userId, source)]))
    {
      var db := OpenDb();
      if db.Fail? {
        return Failure(db.error);
      }
      var document := ReadDocument(mappings, MappingKey(userId, source));
      return Success(if document.Some? then Some(MappingView(document.value)) else None);
    }

    method AddUserRoleMapping(mapping: CUserRoleMapping) returns (r: Outcome<Error>)
      requires Valid()
      modifies this`mappings
      ensures Valid()
      ensures !started ==> r == Fail(NotStarted) && mappings == old(mappings)
      ensures started && MappingKeyOf(mapping) in old(mappings) ==>
        r == Fail(DuplicateKey) && mappings == old(mappings)
      ensures started && MappingKeyOf(mapping) !in old(mappings) ==>
        r == Pass && mappings == old(mappings)[MappingKeyOf(mapping) := Doc(mapping, InitialVersion)]
    {
      var db := OpenDb();
      if db.Fail? {
        return db;
      }
      if MappingKeyOf(mapping) in mappings {
        return Fail(DuplicateKey);
      }
      mappings := mappings[MappingKeyOf(mapping) := Doc(mapping, InitialVersion)];
      return Pass;
    }

    method UpdateUserRoleMapping(mapping: CUserRoleMapping) returns (r: Outcome<Error>)
      requires Valid()
      modifies this`mappings
      ensures Valid()
      ensures !started ==> r == Fail(NotStarted) && mappings == old(mappings)
      ensures started ==> match CheckVersion(old(mappings), MappingKeyOf(mapping), mapping.version)
        case Missing =>
          r == Fail(NoSuchRoleMapping(mapping.userId)) && mappings == old(mappings)
        case Stale =>
          r == Fail(ConcurrentlyModified("User-role mapping", mapping.userId)) && mappings == old(mappings)
        case Current =>
          r == Pass && mappings == Write(old(mappings), MappingKeyOf(mapping), mapping)
    {
      var db := OpenDb();
      if db.Fail? {
        return db;
      }
      var document := ReadDocument(mappings, MappingKeyOf(mapping));
      if document.None? {
        return Fail(NoSuchRoleMapping(mapping.userId));
      }
      if mapping.version.Some? && mapping.version.value != Token(document.value) {
        return Fail(ConcurrentlyModified("User-role mapping", mapping.userId));
      }
      mappings := Write(mappings, MappingKeyOf(mapping), mapping);
      return Pass;
    }

    method RemoveUserRoleMapping(userId: string, source: string) returns (r: Result<bool, Error>)
      requires Valid()
      modifies this`mappings
      ensures Valid()
      ensures !started ==> r == Failure(NotStarted) && mappings == old(mappings)
      ensures started ==>
        r == Success(MappingKey(userId, source) in old(mappings))
        && mappings == old(mappings) - {MappingKey(userId, source)}
    {
      var db := OpenDb();
      if db.Fail? {
        return Failure(db.error);
      }
      var deleted := MappingKey(userId, source) in mappings;
      mappings := mappings - {MappingKey(userId, source)};
      return Success(deleted);
    }
  }
}
