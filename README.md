# Security configuration store (Nexus) — a Dafny model

This project models the Orient-backed security configuration source of
Sonatype Nexus. That source persists four kinds of authorization records:
users, roles, privileges, and user→role mappings keyed by (user id, source).
It gives callers a create/read/update/delete facade over them. On top of
plain storage calls the facade adds three pieces of logic:

- **Optimistic version check.** Every update first reads the stored document.
  A missing record fails with that kind's not-found error. A caller-supplied
  version that differs from the decimal rendering of the stored version fails
  with a concurrent-modification error. Otherwise the caller's entity is
  written, and storage advances the version.
- **User/mapping consistency.** Adding a user also adds its mapping under the
  default source. Updating a user updates that mapping, or adds it when it is
  missing. Removing a user removes that mapping, but only when the user
  existed.
- **First-start seeding.** On start each kind's storage class is registered.
  The first time a kind is registered, every record from the defaults source
  is added, in list order. Every facade operation requires the started state.

Layout:

- `wrappers.dfy` (`Wrappers`): `Option`, `Result` and `Outcome`. They stand
  for Java's nullable returns and thrown exceptions.
- `decimal.dfy` (`Decimal`): `String.valueOf` on a stored version, its inverse,
  and the proof that the rendering is injective.
- `entities.dfy` (`Entities`): the four record kinds, the mapping key, the
  error kinds and `DEFAULT_SOURCE`.
- `store.dfy` (`Store`): storage for one kind. It is a map from identity to a
  stored document (entity plus version). It holds the version-check verdict,
  `write`, the seeding loop and its specification, and `browse`.
- `seeding.dfy` (`Seeding`): the defaults, the database as one value, and
  `doStart` as a function (`Bootstrap`) with its properties.
- `source.dfy` (`SecuritySource`): the class `OrientSecurityConfigurationSource`.
  It holds the started flag, the registered kinds and the four record maps.
  Its methods are the lifecycle and every facade operation. The configuration
  view the Java source hands out is stateless, so its methods are flattened
  onto the class.
- `scenarios.dfy` (`Scenarios`): client call sequences proved from the
  operations' contracts alone.

Points of the code's behaviour that the model reproduces as written:

- Seeding runs on a kind's first registration, not whenever its store is
  empty. The defaults are added inside the `register` callback, which runs
  only when the kind's storage class is created. The model keys seeding on
  "not yet registered". A registered kind whose records were all removed
  later (every user deleted, say) is never seeded again, by the code or by
  the model.
- A failed seeding is not rolled back. The adds at lines 121-123 run one by
  one with no transaction, and the kind stays registered. With default
  users `[a, a, c]` the first start stores `a`, registers the user kind and
  fails with `DuplicateKey`; a restart then succeeds with `a` as the only
  user, and `c` is never seeded. `Seeding.FailedSeedingPersists` proves this
  case, and `Seeding.RegisteredKindsUntouched` proves that no start ever
  changes the records of a kind already registered.
- `addUser` makes two independent adds and is not atomic. If a
  default-source mapping already exists, it stores the user and then fails
  with the duplicate-key error. `AddUser` states exactly this.
- `removeUser` removes the default-source mapping only when the user
  existed. `RemoveUser` leaves the mappings untouched otherwise.
- The remove operations make no version check.
- `NoSuchRoleMappingException` carries the user id only, not the source.

Storage behaviour the model assumes, because the entity adapters are not part
of this model:

- `add` refuses an identity that is already stored, with `DuplicateKey`.
- A new record gets version 1 (`Store.InitialVersion`).
- `write` advances the version by one.
- `read` and `browse` return the stored entity carrying the decimal string of
  its stored version.
- `register` runs its callback only when it creates the kind's storage class.
- `UserManager.DEFAULT_SOURCE` is taken to be `"default"`. `UserManager` is not
  part of this model.

## Model

| member | source | states |
|---|---|---|
| Decimal.DecimalString | components/nexus-core/src/main/java/org/sonatype/nexus/internal/security/model/OrientSecurityConfigurationSource.java:244 | `String.valueOf` of a version is a non-empty string of decimal digits, a single digit exactly for versions below 10. |
| Decimal.DecimalStringShape | components/nexus-core/src/main/java/org/sonatype/nexus/internal/security/model/OrientSecurityConfigurationSource.java:244 | The rendering `valueOf(version)` is a non-empty digit string whose first digit is 0 only for version 0. |
| Decimal.ParseDecimalString | components/nexus-core/src/main/java/org/sonatype/nexus/internal/security/model/OrientSecurityConfigurationSource.java:244 | Parsing the rendering of a version gives back that version (round trip). |
| Decimal.DecimalStringInjective | components/nexus-core/src/main/java/org/sonatype/nexus/internal/security/model/OrientSecurityConfigurationSource.java:244 | Two versions render to the same string iff they are equal, so the string comparison of the version check compares versions exactly. |
| Store.CheckVersion | components/nexus-core/src/main/java/org/sonatype/nexus/internal/security/model/OrientSecurityConfigurationSource.java:240-246 | The checks before an update: Missing iff no record is stored at the identity; Stale only when the caller sent a version; when they pass with a caller version, that version string denotes exactly the stored version. |
| Store.Write | components/nexus-core/src/main/java/org/sonatype/nexus/internal/security/model/OrientSecurityConfigurationSource.java:247 | `write` keeps the set of identities, stores the caller's entity, strictly advances that record's version and leaves every other record as it was. |
| Store.ReadVersionIsCurrent | components/nexus-core/src/main/java/org/sonatype/nexus/internal/security/model/OrientSecurityConfigurationSource.java:240-247 | An update carrying the version just read, or carrying no version, passes the checks. |
| Store.UnconditionalUpdate | components/nexus-core/src/main/java/org/sonatype/nexus/internal/security/model/OrientSecurityConfigurationSource.java:244 | With a null caller version an update is never refused as stale; it goes ahead iff the record exists. |
| Store.CompareAndSwap | components/nexus-core/src/main/java/org/sonatype/nexus/internal/security/model/OrientSecurityConfigurationSource.java:240-247 | Of two updates carrying the same version, once the first is written the second is refused as stale, and the record holds the first one's entity. |
| Store.AddAllKeeps | components/nexus-core/src/main/java/org/sonatype/nexus/internal/security/model/OrientSecurityConfigurationSource.java:119-123 | Seeding never drops or alters a record already stored, and keeps every record under its own identity. |
| Store.AddAllSucceedsIffFresh | components/nexus-core/src/main/java/org/sonatype/nexus/internal/security/model/OrientSecurityConfigurationSource.java:119-123 | Adding the defaults one by one succeeds iff their identities are pairwise distinct and none is stored yet. |
| Store.AddAllStoredKeys | components/nexus-core/src/main/java/org/sonatype/nexus/internal/security/model/OrientSecurityConfigurationSource.java:121-123 | A successful seeding stores exactly the identities already there plus those of the defaults. |
| Store.AddAllSize | components/nexus-core/src/main/java/org/sonatype/nexus/internal/security/model/OrientSecurityConfigurationSource.java:121-123 | A successful seeding adds exactly one record per default. |
| Store.AddAllStoresEveryItem | components/nexus-core/src/main/java/org/sonatype/nexus/internal/security/model/OrientSecurityConfigurationSource.java:121-123 | A successful seeding stores every default at its identity with the initial version. |
| Store.AddAllStopsAtClash | components/nexus-core/src/main/java/org/sonatype/nexus/internal/security/model/OrientSecurityConfigurationSource.java:121-123 | Defaults are added in list order: when an add clashes, all earlier defaults were added, none later, and the clashing identity is stored. |
| Store.AddEach | components/nexus-core/src/main/java/org/sonatype/nexus/internal/security/model/OrientSecurityConfigurationSource.java:121-123 | The seeding loop computes exactly `AddAll`: each default is added in order, and the first clash stops it. |
| Store.ListKeys | components/nexus-core/src/main/java/org/sonatype/nexus/internal/security/model/OrientSecurityConfigurationSource.java:207 | Enumerating a store lists every stored identity exactly once. |
| Store.Browse | components/nexus-core/src/main/java/org/sonatype/nexus/internal/security/model/OrientSecurityConfigurationSource.java:207 | `browse` gives one view per stored record: the same count, every record's view present, nothing else, and an enumeration of the stored identities, each exactly once, whose i-th record's view is the i-th entry. |
| Seeding.BootstrapValid | components/nexus-core/src/main/java/org/sonatype/nexus/internal/security/model/OrientSecurityConfigurationSource.java:111-170 | Starting, whether it succeeds or aborts, keeps the database consistent and never unregisters a kind; a successful start registers all four kinds. |
| Seeding.BootstrapIdempotent | components/nexus-core/src/main/java/org/sonatype/nexus/internal/security/model/OrientSecurityConfigurationSource.java:114-168 | With every kind already registered, starting changes nothing and succeeds: defaults are never applied twice. |
| Seeding.BootstrapTwice | components/nexus-core/src/main/java/org/sonatype/nexus/internal/security/model/OrientSecurityConfigurationSource.java:111-170 | After a successful start, a second start with any defaults leaves the database unchanged. |
| Seeding.RegisteredKindsUntouched | components/nexus-core/src/main/java/org/sonatype/nexus/internal/security/model/OrientSecurityConfigurationSource.java:114-168 | A start leaves the records of every already registered kind exactly as they are, even when that kind's store is empty. |
| Seeding.FailedSeedingPersists | components/nexus-core/src/main/java/org/sonatype/nexus/internal/security/model/OrientSecurityConfigurationSource.java:114-126 | A seeding that fails part-way is not rolled back: with default users `[a, a, c]` the start fails with DuplicateKey leaving `a` stored and the user kind registered; a restart then succeeds and never stores `c`. |
| Seeding.SeedIntoEmpty | components/nexus-core/src/main/java/org/sonatype/nexus/internal/security/model/OrientSecurityConfigurationSource.java:118-124 | One kind seeded into empty storage from distinct defaults (a null list reads as empty) succeeds and holds exactly those identities, one record each. |
| Seeding.BootstrapEmpty | components/nexus-core/src/main/java/org/sonatype/nexus/internal/security/model/OrientSecurityConfigurationSource.java:111-170 | Starting against empty storage, with defaults whose identities are distinct within each kind, succeeds, registers every kind, and leaves each kind with exactly its defaults: as many records as its list has entries. |
| SecuritySource.Mapping | components/nexus-core/src/main/java/org/sonatype/nexus/internal/security/model/OrientSecurityConfigurationSource.java:419-425 | The built mapping is keyed at (userId, DEFAULT_SOURCE), has the given role set and carries no version. |
| SecuritySource.ReadDocument | components/nexus-core/src/main/java/org/sonatype/nexus/internal/security/model/OrientSecurityConfigurationSource.java:240-243 | `readDocument` finds a record iff one is stored at the identity, and returns that record. |
| SecuritySource.OrientSecurityConfigurationSource.constructor | components/nexus-core/src/main/java/org/sonatype/nexus/internal/security/model/OrientSecurityConfigurationSource.java:85-99 | A new source is stopped and sits over the given, consistent database. |
| SecuritySource.OrientSecurityConfigurationSource.Register | components/nexus-core/src/main/java/org/sonatype/nexus/internal/security/model/OrientSecurityConfigurationSource.java:114 | Registering a kind marks it registered and reports first use iff it was not registered before. |
| SecuritySource.OrientSecurityConfigurationSource.RegisterUsers | components/nexus-core/src/main/java/org/sonatype/nexus/internal/security/model/OrientSecurityConfigurationSource.java:114-126 | Registers users; on first registration adds the default users unless the list is null or empty. |
| SecuritySource.OrientSecurityConfigurationSource.RegisterRoles | components/nexus-core/src/main/java/org/sonatype/nexus/internal/security/model/OrientSecurityConfigurationSource.java:128-140 | Same for roles. |
| SecuritySource.OrientSecurityConfigurationSource.RegisterPrivileges | components/nexus-core/src/main/java/org/sonatype/nexus/internal/security/model/OrientSecurityConfigurationSource.java:142-154 | Same for privileges. |
| SecuritySource.OrientSecurityConfigurationSource.RegisterMappings | components/nexus-core/src/main/java/org/sonatype/nexus/internal/security/model/OrientSecurityConfigurationSource.java:156-168 | Same for user/role mappings. |
| SecuritySource.OrientSecurityConfigurationSource.DoStart | components/nexus-core/src/main/java/org/sonatype/nexus/internal/security/model/OrientSecurityConfigurationSource.java:111-170 | The new database and outcome are exactly `Bootstrap` of the old database, whose properties are the `Seeding` lemmas; consistency is kept. |
| SecuritySource.OrientSecurityConfigurationSource.Start | components/nexus-core/src/main/java/org/sonatype/nexus/internal/security/model/OrientSecurityConfigurationSource.java:101-104 | Starting runs `doStart`; the source is started iff seeding succeeded. |
| SecuritySource.OrientSecurityConfigurationSource.Stop | components/nexus-core/src/main/java/org/sonatype/nexus/internal/security/model/OrientSecurityConfigurationSource.java:106-109 | Stopping keeps every record and closes the gate. |
| SecuritySource.OrientSecurityConfigurationSource.OpenDb | components/nexus-core/src/main/java/org/sonatype/nexus/internal/security/model/OrientSecurityConfigurationSource.java:186-189 | The gate passes iff the source is started, and otherwise fails with NotStarted. |
| SecuritySource.OrientSecurityConfigurationSource.GetUsers | components/nexus-core/src/main/java/org/sonatype/nexus/internal/security/model/OrientSecurityConfigurationSource.java:202-209 | Not started: NotStarted. Started: one view per stored user, every stored user present, each entry the view of the user stored under its id. |
| SecuritySource.OrientSecurityConfigurationSource.GetUser | components/nexus-core/src/main/java/org/sonatype/nexus/internal/security/model/OrientSecurityConfigurationSource.java:211-219 | Not started: NotStarted. Started: a user iff one is stored under the id (absent is not an error), carrying its stored version token. |
| SecuritySource.OrientSecurityConfigurationSource.AddUser | components/nexus-core/src/main/java/org/sonatype/nexus/internal/security/model/OrientSecurityConfigurationSource.java:221-231 | An existing id: DuplicateKey, nothing changes. Otherwise the user is stored, then the mapping (id, DEFAULT_SOURCE) with exactly the given roles; if that mapping already existed the user stays stored and DuplicateKey is returned. |
| SecuritySource.OrientSecurityConfigurationSource.UpdateUser | components/nexus-core/src/main/java/org/sonatype/nexus/internal/security/model/OrientSecurityConfigurationSource.java:233-260 | Missing user: UserNotFound. Stale version: ConcurrentlyModified("User", id). Either way nothing changes. Otherwise the user is written and the default-source mapping is written with the new roles, or added if missing. After success that mapping exists with exactly those roles. |
| SecuritySource.OrientSecurityConfigurationSource.RemoveUser | components/nexus-core/src/main/java/org/sonatype/nexus/internal/security/model/OrientSecurityConfigurationSource.java:262-277 | Returns true iff the user existed; the user is gone afterwards; the (id, DEFAULT_SOURCE) mapping is removed when it returns true, and no mapping changes when it returns false. |
| SecuritySource.OrientSecurityConfigurationSource.GetPrivileges | components/nexus-core/src/main/java/org/sonatype/nexus/internal/security/model/OrientSecurityConfigurationSource.java:283-290 | As `GetUsers`, for privileges. |
| SecuritySource.OrientSecurityConfigurationSource.GetPrivilege | components/nexus-core/src/main/java/org/sonatype/nexus/internal/security/model/OrientSecurityConfigurationSource.java:292-300 | As `GetUser`, for privileges. |
| SecuritySource.OrientSecurityConfigurationSource.AddPrivilege | components/nexus-core/src/main/java/org/sonatype/nexus/internal/security/model/OrientSecurityConfigurationSource.java:302-311 | Stores the privilege with the initial version, or fails with DuplicateKey and changes nothing. No other kind is touched. |
| SecuritySource.OrientSecurityConfigurationSource.UpdatePrivilege | components/nexus-core/src/main/java/org/sonatype/nexus/internal/security/model/OrientSecurityConfigurationSource.java:313-332 | Missing: NoSuchPrivilege. Stale version: ConcurrentlyModified("Privilege", id). Either way nothing changes. Otherwise only that privilege is overwritten, with its version advanced. |
| SecuritySource.OrientSecurityConfigurationSource.RemovePrivilege | components/nexus-core/src/main/java/org/sonatype/nexus/internal/security/model/OrientSecurityConfigurationSource.java:334-345 | Returns whether the privilege existed, and it is gone afterwards. Mappings and every other kind are untouched (the frame). |
| SecuritySource.OrientSecurityConfigurationSource.GetRoles | components/nexus-core/src/main/java/org/sonatype/nexus/internal/security/model/OrientSecurityConfigurationSource.java:351-358 | As `GetUsers`, for roles. |
| SecuritySource.OrientSecurityConfigurationSource.GetRole | components/nexus-core/src/main/java/org/sonatype/nexus/internal/security/model/OrientSecurityConfigurationSource.java:360-368 | As `GetUser`, for roles. |
| SecuritySource.OrientSecurityConfigurationSource.AddRole | components/nexus-core/src/main/java/org/sonatype/nexus/internal/security/model/OrientSecurityConfigurationSource.java:370-379 | Stores the role with the initial version, or fails with DuplicateKey and changes nothing. |
| SecuritySource.OrientSecurityConfigurationSource.UpdateRole | components/nexus-core/src/main/java/org/sonatype/nexus/internal/security/model/OrientSecurityConfigurationSource.java:381-400 | Missing: NoSuchRole. Stale version: ConcurrentlyModified("Role", id). Either way nothing changes. Otherwise only that role is overwritten, with its version advanced. |
| SecuritySource.OrientSecurityConfigurationSource.RemoveRole | components/nexus-core/src/main/java/org/sonatype/nexus/internal/security/model/OrientSecurityConfigurationSource.java:402-413 | Returns whether the role existed, and it is gone afterwards. No cascade: mappings that name the role are untouched. |
| SecuritySource.OrientSecurityConfigurationSource.GetUserRoleMappings | components/nexus-core/src/main/java/org/sonatype/nexus/internal/security/model/OrientSecurityConfigurationSource.java:427-434 | As `GetUsers`, for mappings keyed by (userId, source). |
| SecuritySource.OrientSecurityConfigurationSource.GetUserRoleMapping | components/nexus-core/src/main/java/org/sonatype/nexus/internal/security/model/OrientSecurityConfigurationSource.java:436-445 | As `GetUser`, looked up by (userId, source). |
| SecuritySource.OrientSecurityConfigurationSource.AddUserRoleMapping | components/nexus-core/src/main/java/org/sonatype/nexus/internal/security/model/OrientSecurityConfigurationSource.java:447-457 | Stores the mapping under (userId, source), or fails with DuplicateKey and changes nothing. |
| SecuritySource.OrientSecurityConfigurationSource.UpdateUserRoleMapping | components/nexus-core/src/main/java/org/sonatype/nexus/internal/security/model/OrientSecurityConfigurationSource.java:459-479 | Missing (userId, source): NoSuchRoleMapping(userId). Stale version: ConcurrentlyModified("User-role mapping", userId). Either way nothing changes. Otherwise only that mapping is overwritten. |
| SecuritySource.OrientSecurityConfigurationSource.RemoveUserRoleMapping | components/nexus-core/src/main/java/org/sonatype/nexus/internal/security/model/OrientSecurityConfigurationSource.java:481-493 | Returns whether the mapping existed, and it is gone afterwards. |
| Scenarios.AddUserThenReadMapping | components/nexus-core/src/main/java/org/sonatype/nexus/internal/security/model/OrientSecurityConfigurationSource.java:221-231 | After adding a user whose id and (id, DEFAULT_SOURCE) mapping are both absent, reading (id, DEFAULT_SOURCE) yields a mapping with exactly the given roles. |
| Scenarios.UpdateUserHealsMapping | components/nexus-core/src/main/java/org/sonatype/nexus/internal/security/model/OrientSecurityConfigurationSource.java:249-255 | Updating a user that has no mapping, with no version or the version last read, succeeds and creates the mapping with the new roles. |
| Scenarios.RemoveUserThenRead | components/nexus-core/src/main/java/org/sonatype/nexus/internal/security/model/OrientSecurityConfigurationSource.java:262-273 | After removal the user reads as absent; when it existed its mapping reads as absent too; when it did not, the mappings are unchanged. |
| Scenarios.LostUpdateRefused | components/nexus-core/src/main/java/org/sonatype/nexus/internal/security/model/OrientSecurityConfigurationSource.java:239-247 | Two writers sending back the same read version: the first succeeds, the second gets ConcurrentlyModified("User", id), and the first one's fields are stored. |
| Scenarios.Restart | components/nexus-core/src/main/java/org/sonatype/nexus/internal/security/model/OrientSecurityConfigurationSource.java:111-170 | After a successful start and a stop, a second start succeeds and changes no record. |

## Left out

- The OrientDB connection, its pool and transactions (`connect`, `acquire`, try-with-resources). The database is the class's four record maps and its set of registered kinds.
- The translation of a storage-raised `OConcurrentModificationException` into `ConcurrentModificationException` (lines 257-259, 274-276 and their counterparts). It only arises when another writer races inside storage. The model is sequential, so `write` and `delete` never conflict.
- The internals of the entity adapters: document mapping, the duplicate-key check on `add`, and the once-only guarantee of `register`. The behaviour the model assumes from them is listed above.
- `LifecycleSupport` is not part of this model. `Start` models only the stopped-to-started transition, and `ensureStarted` is the `started` flag. The event-bus subscriptions are wiring, and `Start`/`Stop` stand for the calls they make.
- Logging, and the `checkNotNull` preconditions. Identities and entities are non-null by type.
- `loadConfiguration`/`getConfiguration` (lines 172-181). They only cache the stateless configuration view in a field.
- The text of exception messages. `ConcurrentlyModified` carries the kind name and the id the message is built from (line 195).
- 32-bit versions. Stored versions are unbounded natural numbers. `String.valueOf` is modelled for non-negative versions only, which are the only versions storage hands out.
- The profile, role and privilege fields. They are opaque to the store and modelled as an attribute map.
- The order of `browse`. `Store.Browse` promises one entry per stored record, in an unspecified order.
