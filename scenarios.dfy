/**
 * Call sequences a client of the configuration source relies on, proved
 * from the operations' contracts alone.
 */
module Scenarios {
  import opened Wrappers
  import opened Entities
  import opened Store
  import opened Seeding
  import opened SecuritySource

  /** Adding a user creates its default-source mapping with exactly the given roles. */
  method AddUserThenReadMapping(s: OrientSecurityConfigurationSource, user: CUser, roleIds: set<string>)
    returns (added: Outcome<Error>, read: Result<Option<CUserRoleMapping>, Error>)
    requires s.Valid() && s.started
    requires user.id !in s.users && MappingKey(user.id, DEFAULT_SOURCE) !in s.mappings
    modifies s
    ensures added == Pass
    ensures read.Success? && read.value.Some?
    ensures read.value.value.userId == user.id && read.value.value.source == DEFAULT_SOURCE
    ensures read.value.value.roles == roleIds
  {
    added := s.AddUser(user, roleIds);
    read := s.GetUserRoleMapping(user.id, DEFAULT_SOURCE);
  }

  /**
   * Updating a user that has no mapping, with no version or with the version
   * last read, gives it one with the new roles instead of failing.
   */
  method UpdateUserHealsMapping(s: OrientSecurityConfigurationSource, user: CUser, roleIds: set<string>)
    returns (updated: Outcome<Error>, read: Result<Option<CUserRoleMapping>, Error>)
    requires s.Valid() && s.started
    requires CheckVersion(s.users, user.id, user.version) == Current
    requires MappingKey(user.id, DEFAULT_SOURCE) !in s.mappings
    modifies s
    ensures updated == Pass
    ensures read.Success? && read.value.Some? && read.value.value.roles == roleIds
  {
    updated := s.UpdateUser(user, roleIds);
    read := s.GetUserRoleMapping(user.id, DEFAULT_SOURCE);
  }

  /** Removing an existing user leaves neither the user nor its default-source mapping behind. */
  method RemoveUserThenRead(s: OrientSecurityConfigurationSource, id: string)
    returns (removed: Result<bool, Error>, user: Result<Option<CUser>, Error>, read: Result<Option<CUserRoleMapping>, Error>)
    requires s.Valid() && s.started
    modifies s
    ensures removed == Success(id in old(s.users))
    ensures user == Success(None)
    ensures removed == Success(true) ==> read == Success(None)
    ensures removed == Success(false) ==> s.mappings == old(s.mappings)
  {
    removed := s.RemoveUser(id);
    user := s.GetUser(id);
    read := s.GetUserRoleMapping(id, DEFAULT_SOURCE);
  }

  /**
   * A lost update is refused: two writers read the same user and both send
   * back the version they read; the first is written, the second is refused
   * as concurrently modified, and the stored user holds the first one's fields.
   */
  method LostUpdateRefused(s: OrientSecurityConfigurationSource, id: string, first: CUser, second: CUser)
    returns (r1: Outcome<Error>, r2: Outcome<Error>)
    requires s.Valid() && s.started
    requires id in s.users && first.id == id && second.id == id
    modifies s
    ensures r1 == Pass
    ensures r2 == Fail(ConcurrentlyModified("User", id))
    ensures id in s.users && s.users[id].entity.id == id
    ensures s.users[id].entity.attributes == first.attributes
  {
    var read := s.GetUser(id);
    var version := read.value.value.version;
    ReadVersionIsCurrent(s.users, id);
    CompareAndSwap(s.users, id, version.value, first.(version := version));
    r1 := s.UpdateUser(first.(version := version), {});
    r2 := s.UpdateUser(second.(version := version), {});
  }

  /** A restart never re-applies the defaults: the second start succeeds and changes no record. */
  method Restart(s: OrientSecurityConfigurationSource, d: SecurityDefaults, d': SecurityDefaults)
    returns (r1: Outcome<Error>, r2: Outcome<Error>)
    requires s.Valid() && !s.started
    modifies s
    ensures r1 == Pass ==> r2 == Pass && s.started
    ensures r1 == Pass ==> s.Db() == Bootstrap(old(s.Db()), d).0
  {
    r1 := s.Start(d);
    if r1 != Pass {
      return r1, r1;
    }
    ghost var afterFirst := s.Db();
    s.Stop();
    BootstrapIdempotent(s.Db(), d');
    r2 := s.Start(d');
    assert s.Db() == afterFirst;
  }
}
