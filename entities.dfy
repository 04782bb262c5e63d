/**
 * The four security record kinds the configuration store persists, and the
 * errors its operations raise. The profile, role and privilege fields are
 * opaque to the store and are kept as a name-to-value attribute map.
 */
module Entities {
  import opened Wrappers

  /** The source of the mappings the store itself manages (`UserManager.DEFAULT_SOURCE`). */
  const DEFAULT_SOURCE: string := "default"

  /** `version` is the caller's optimistic-concurrency token: null means "update unconditionally". */
  datatype CUser = CUser(id: string, version: Option<string>, attributes: map<string, string>)

  datatype CRole = CRole(id: string, version: Option<string>, attributes: map<string, string>)

  datatype CPrivilege = CPrivilege(id: string, version: Option<string>, attributes: map<string, string>)

  datatype CUserRoleMapping = CUserRoleMapping(userId: string, source: string, version: Option<string>, roles: set<string>)

  /** The composite identity of a user/role mapping. */
  datatype MappingKey = MappingKey(userId: string, source: string)

  /** The record kinds, one storage class each. */
  datatype Kind = UserKind | RoleKind | PrivilegeKind | MappingKind

  const AllKinds: set<Kind> := {UserKind, RoleKind, PrivilegeKind, MappingKind}

  /** What each operation can throw. */
  datatype Error =
    | NotStarted                                    // `ensureStarted` refused: the store is not started
    | UserNotFound(id: string)                      // UserNotFoundException
    | NoSuchPrivilege(id: string)                   // NoSuchPrivilegeException
    | NoSuchRole(id: string)                        // NoSuchRoleException
    | NoSuchRoleMapping(userId: string)             // NoSuchRoleMappingException (carries the user id only)
    | ConcurrentlyModified(kind: string, value: string) // "<kind> '<value>' updated in the meantime"
    | DuplicateKey                                  // raised by storage when `add` meets an existing identity

  function UserKey(u: CUser): string { u.id }

  function RoleKey(r: CRole): string { r.id }

  function PrivilegeKey(p: CPrivilege): string { p.id }

  function MappingKeyOf(m: CUserRoleMapping): MappingKey { MappingKey(m.userId, m.source) }
}
