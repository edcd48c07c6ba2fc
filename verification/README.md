# Verified model of the unified-ui platform service

unified-ui is a multi-tenant service: tenants own resources (chat agents, workflows, credentials and others), users and
groups hold tenant roles and per-resource permissions, and most readings are cached in Redis under keys that writes
invalidate by glob pattern. This project models that core in Dafny and proves what it keeps.

- **Tables** (`Schema`, `Rbac`, `RowEffects`, `Effects`): principals, tenant roles, custom-group members, resources and resource
  members as sets and maps of rows under their unique keys and PostgreSQL cascades, with one function per handler call. A call that
  raises is `None`: its session is rolled back. `RowEffects` says when each call goes through and what it writes, row by row;
  `Effects` what that gives or takes and which calls undo each other.
- **Permissions** (`Permissions`, `Listing`, `ListContents`, `UserTenants`, `PermissionListing`, `Search`, `Dashboard`): every way
  the handlers read access, against one hierarchy ADMIN > WRITE > READ. `ListContents` says what lists and details show.
- **Cache** (`Text`, `Wildcard`, `CacheKeys`, `CacheClient`, `Coherence`, `CacheEffects`, `RoleCoherence`, `Contexts`, `ListCoherence`):
  keys and patterns are real strings and Redis globs are matched character by character. A state is the tables together with the
  cache; runs interleave calls and cached reads; the theorems say that cached readings are the fresh ones in every
  reachable state. `CacheEffects` says which entries each read leaves and each call takes.
- **Where the cache goes wrong** (`StaleCaches`, `StalePages`, `StaleGrants`, `StaleRuns`): for each call whose
  invalidation falls short, exactly when a reading stays right after it, and one run from the empty system after which it
  is wrong.
- **Handlers that change state** (`RbacService`, `SecretService`, `RecentVisitsHandler`, `Dashboard`, `CacheClient`,
  `ReactionMigration`): classes whose methods work step by step and are proved to be the steps of the state machines above.
- **Names, secrets, visits, feedback, migration** (`CopyNames`, `CopyNameRuns`, `SecretKeys`, `RecentVisits`, `FeedbackStats`,
  `ReactionMigration`): freshness of generated names over whole runs, vault writes with a failure possible after each of
  them, eviction and over-fetching, and statistics computed along several routes.

Run `dafny verify dfyconfig.toml` to check everything.

## What the theorems assume

- A user context has typed groups (`TypedGroups`: identity groups and custom groups only), custom groups are the custom
  ones among its groups, and its tenants are what `get_user_tenants_with_permissions` returned; `UserTenants` closes that
  last link from the admin check down to the tenant-member rows.
- Ids made by `uuid4` are new, and the ids in cache keys contain no `:` and no glob metacharacter (`Plain`).
- The identity provider is a fixed directory of users, groups and memberships; it may not know an id.
- Handler calls are atomic, except in `SecretKeys`, where any single write may be the last one to happen.
- `RolesFreshAlways`, `DetailFreshIffAlways` and `PageFreshIffAlways` cover every call, role changes naming a principal by
  its stored type; `SetRoleFreshIff` and `DeleteRoleFreshIff` say exactly when cached roles stay right under any type.
- `ListsFreshAlways` speaks of one reader of one tenant and of all runs whose calls spare that reader (`Spares`). Left out
  are only: a role change of an identity group that makes or unmakes the reader administrator of the tenant, the deletion of
  the tenant, and a grant or a group membership that registers an identity group of the reader's which the reader's cached
  groups do not name. What they do to a page or detail that was right is said exactly by `GroupRolePageFreshIff`,
  `GroupRoleRemovalPageFreshIff`, `TenantDeletionPageFreshIff`, `TenantDeletionDetailFreshIff`, `GroupGrantFreshIff` and
  `GroupGrantPageFreshIff`; what reads make of cached groups that lag behind, by `DetailFreshIffAlways` and
  `PageFreshIffAlways`.
- `GroupRolePageFreshIff` takes the acting user's id, and `PageStaysIff` the ids of the users a call is about, to be no word of the
  page-key format (`NoKeyWord`); `DetailStaysIff` takes no tenant to be called `user`.
- Names given by users are not themselves of the form `X Copy(n)`; wildcards and escape characters are allowed in them.
- Column widths are those PostgreSQL enforces for the names of resources and tenants (255) and the resource ids of visits (36).

## Where code and documentation disagree

The model follows the code.

- The session factory sets `autoflush=False` (unifiedui/core/database/client.py:56). The upsert of recent visits
  therefore does not find a row that the same request has just added, and a request that names one new resource twice
  fails on the unique constraint as a whole, and so does one with an id too long for its column, which the request model
  lets through; `CommitSucceedsIff` is the exact condition. The migration script opens a plain
  `Session`, which does flush before it queries.
- The pattern that is meant to clear a tenant's entries never matches its detail key (`TenantPatternMisses`).
- Deleting a resource clears a permission-list pattern that its own entries do not have (`PermissionPatterns`).
- Clearing a user's cache leaves the user's dashboard and identity-provider group entries (`ClearingMissesUser`), and
  deleting a custom group leaves the group entries that name it (`DeletedGroupMissesGroups`); the coherence theorems
  show that such dead ids do no harm.
- `_generate_copy_name` can invent a taken name after deletes or renames: `ClashIff` is the exact condition for all runs,
  `ClashAfterDeletes` for runs that delete last, `DeleteRefutesFreshness` is a run of each kind. It puts the name into a LIKE
  pattern without escaping it: a name with a backslash and no wildcard can be duplicated only once
  (`SecondDuplicateClashesIff`, `BackslashMissesCopies`).
- Search does not escape its query either: a backslash in it is taken as an escape (`HitIsContainment`).
- A grant to an identity group leaves the cached groups of its members, so a member keeps what the cached groups give
  (`GroupGrantFreshIff`), whether or not some tenant knew the group (`KnownGrantUnseen`).
- `update_credential` ignores a vault that refuses the new secret and reports success (`UpdatedSecretReads`).
- Deletions remove the vault secret before their commit; `DeletionDanglesIff` says when a dangling URI is left.
- The dry run of the migration can announce more inserts than the run makes (`DryRunPredictsIff`).

## Model

| member | source | states |
|---|---|---|
| `CacheKeys.UserPatternsReach` | unifiedui/caching/client.py:48-57 | A key is reached by clearing user U exactly when `user:U` is an interior pair of its segments or it ends in a group segment of U |
| `CacheKeys.ClearingReachesUser` | unifiedui/caching/client.py:37-57 | Clearing U reaches U's role entry, group entry and every list page of U, for every tenant, resource prefix and page |
| `CacheKeys.ClearingMissesUser` | unifiedui/handlers/dashboard.py:148 | It does not reach U's dashboard entry nor U's identity-provider group ids |
| `CacheKeys.ListPatternExact` | unifiedui/handlers/cache_utils.py:38-41 | The list pattern of a prefix and tenant matches a list key exactly when both agree |
| `CacheKeys.ListKeyInjective` | unifiedui/handlers/chat_agents.py:166-170 | Two list requests share a key only if tenant, user and all page parameters are equal |
| `CacheKeys.DeletedGroupReaches` | unifiedui/handlers/custom_groups.py:360-370 | The group-deletion pattern reaches every role entry and every list page of every user |
| `CacheKeys.DeletedGroupMissesGroups` | unifiedui/core/identity/users.py:159 | It never reaches a user's cached groups |
| `CacheKeys.AllTenantRolesReached` | unifiedui/handlers/principals.py:676-682 | The identity-group branch reaches every user's role entry |
| `CacheKeys.PermissionPatterns` | unifiedui/handlers/resource_permissions.py:729-739 | The pattern of a permission change reaches the cached permission list of the resource, the pattern of the resource's deletion does not |
| `CacheKeys.TenantPatternMisses` | unifiedui/caching/client.py:70-82 | The tenant pattern matches no tenant detail key |
| `CacheClient.Cache.DeletePattern` | unifiedui/caching/redis/cache.py:105-124 | Exactly the matching entries go, and their number is returned |
| `CacheClient.Cache.ClearCacheForUser` | unifiedui/caching/client.py:37-57 | Exactly the entries some user pattern reaches go; the total counts each removed entry once |
| `CacheClient.ClearedUserHasNoEntries` | unifiedui/caching/client.py:37-57 | Afterwards no role, group or list entry of the user is left and no other entry changed value |
| `CacheClient.ResourceCacheInvalidator.InvalidateList` | unifiedui/handlers/cache_utils.py:38-41 | The new cache is the old one without what the list pattern matches |
| `CacheClient.DetailInvalidationIsLocal` | unifiedui/handlers/cache_utils.py:43-47 | Dropping one resource's detail entry drops no other resource's, no other tenant's and no list page |
| `CacheClient.ResourceCacheInvalidator.InvalidatePermissions` | unifiedui/handlers/cache_utils.py:49-54 | The new cache is the old one without what the permission pattern matches |
| `CacheEffects.GroupsRemembered` | unifiedui/core/identity/users.py:146-239 | A read of a user's groups answers with the cached entry if there is one, leaves one, and writes nothing else |
| `CacheEffects.RolesRemembered` | unifiedui/core/identity/users.py:263-306 | So does a read of a user's roles, with the group entry beside it |
| `CacheEffects.PageRemembered` | unifiedui/handlers/chat_agents.py:166-276 | So does a read of a list page |
| `CacheEffects.DetailRemembered` | unifiedui/handlers/chat_agents.py:278-342 | A detail read answers with the cached resource if there is one, leaves an entry without the permission, and leaves none for a resource that is not there |
| `CacheEffects.RolesEntryStaysIff` | unifiedui/handlers/principals.py:639-696 | A call that goes through takes a user's role entry exactly if it is about the user, changes a role of an identity group, or deletes a custom group or a tenant; a set membership is about its member and whoever acts |
| `CacheEffects.GroupsEntryStaysIff` | unifiedui/handlers/custom_groups.py:360-370 | It takes the group entry in the first two of these cases only |
| `CacheEffects.PageStaysIff` | unifiedui/handlers/cache_utils.py:38-41 | It takes a user's page of a tenant exactly if it is about the user, on a resource of that tenant, or deletes a custom group |
| `CacheEffects.DetailStaysIff` | unifiedui/handlers/cache_utils.py:43-47 | No call but the deletion of a custom group takes a detail entry unless it updates or deletes that resource |
| `Permissions.CheckIsResolvedLevel` | unifiedui/handlers/resource_permissions.py:631-663 | A level is granted exactly when the resolved permission exists and weighs at least as much |
| `Permissions.ListResolveCheckAgree` | unifiedui/handlers/chat_agents.py:196-254 | For a resource of the tenant: listed, resolved to something and granted READ are equivalent |
| `Permissions.JoinListsTheSame` | unifiedui/handlers/workflows.py:216-262 | The join-and-distinct list shows the same resources as the member-subquery list |
| `Permissions.SamePrincipals` | unifiedui/handlers/permission_resolver.py:23-38 | The two ways of collecting a user's principal ids name the same principals |
| `Permissions.BestIsHeaviest` | unifiedui/handlers/permission_resolver.py:81-89 | The resolved action is the one of greatest weight, and absent exactly when there is no role |
| `Permissions.PrincipalIdsAre` | unifiedui/handlers/permission_resolver.py:23-38 | A caller's principals are the user and the groups of the context, no more and no fewer |
| `Permissions.AdminHolds` | unifiedui/handlers/permission_resolver.py:41-57 | The admin check holds exactly when the first entry of the context for the tenant names one of the administrating roles |
| `Permissions.ResolveMyPermission` | unifiedui/handlers/permission_resolver.py:60-89 | The maximum by weight over the fetched roles is the heaviest action of their set |
| `Permissions.ResolveMyPermissionsBulk` | unifiedui/handlers/permission_resolver.py:92-130 | The dictionary fold holds, for every id, the heaviest of the roles its rows give it, and nothing for an id without rows |
| `Permissions.BulkIsPointwise` | unifiedui/handlers/permission_resolver.py:112-130 | On the query's rows, in any order, every requested id gets its single-resource permission, absence included |
| `Listing.ArrangeIsSortedPermutation` | unifiedui/handlers/chat_agents.py:233-243 | Ordering a list loses and repeats nothing and respects the requested column and direction |
| `Listing.PageDependsOn` | unifiedui/handlers/chat_agents.py:187-267 | A page depends on the tables only through the tenant's resources and the caller's roles on them |
| `ListContents.WholeListShows` | unifiedui/handlers/chat_agents.py:187-267 | The whole list shows a resource exactly if it is in the tenant, passes the active filter, and the caller administers it or has a member row on it; it shows the row as it is, with ADMIN or the highest level of those rows |
| `ListContents.ActivePages` | unifiedui/handlers/chat_agents.py:223-225 | Every item of a page under "1" is active, every item of a page under "0" inactive |
| `ListContents.ActiveListsSplit` | unifiedui/handlers/chat_agents.py:223-225 | Each item of the unfiltered whole list is on exactly one of the two filtered ones, nothing else is on either, and the sizes add up |
| `ListContents.PagesAreOrdered` | unifiedui/handlers/chat_agents.py:236-242 | Every page runs by name or creation time, up or down as asked, and newest first if neither column is named |
| `ListContents.PageIsStretch` | unifiedui/handlers/chat_agents.py:244 | A page is the stretch of the whole list that its offset and limit name, item by item |
| `ListContents.ResolvedIsHighest` | unifiedui/handlers/permission_resolver.py:60-89 | The resolved permission is ADMIN for administrators and for anybody else the highest level a member row in the tenant gives one of the caller's principals, or none |
| `ListContents.DetailShows` | unifiedui/handlers/chat_agents.py:278-342 | A detail shows a resource of the tenant as it is, with the level the caller has on it |
| `ListContents.RolesAre` | unifiedui/handlers/tenants.py:313-380 | A user has a role in a tenant exactly when a row gives it to the user, an identity group or a custom group of the user's |
| `ListContents.AdministratorsAre` | unifiedui/handlers/permission_resolver.py:41-57 | Administrators of chat agents are exactly the holders of TENANT_GLOBAL_ADMIN or CHAT_AGENTS_ADMIN |
| `ListContents.PrincipalsAre` | unifiedui/core/identity/users.py:146-239 | Member rows count that name the user, a custom group the user is in, or an identity group of the user's that some tenant knows |
| `Text.LeqIsLexicographic` | unifiedui/handlers/chat_agents.py:236-239 | The order of names is lexicographic: a text comes before what it begins and before what first differs in a larger character |
| `UserTenants.GroupUserTenants` | unifiedui/handlers/tenants.py:347-380 | Each tenant once, in row order, with exactly its rows' roles, sorted and without duplicates |
| `UserTenants.SortRoles` | unifiedui/handlers/tenants.py:373-380 | A set of roles becomes a strictly sorted list with the same members |
| `UserTenants.AdminCheckIsMembership` | unifiedui/handlers/permission_resolver.py:41-57 | End to end, the admin check holds exactly when some tenant-member row gives one of the principals one of the roles in the tenant |
| `UserTenants.RolesAreMonotone` | unifiedui/handlers/tenants.py:347-380 | Whatever the response for fewer principals lists, the response for more principals lists |
| `UserTenants.RolesAreDetermined` | unifiedui/handlers/tenants.py:367-380 | Equal row sets, in whatever order, give every tenant the same role list |
| `Rbac.EnsureKeepsIntegrity` | unifiedui/handlers/principals_helper.py:43-91 | Registering a principal keeps integrity and leaves the principal registered |
| `Rbac.SetRoleKeepsIntegrity` | unifiedui/handlers/principals.py:404-512 | Setting a tenant role keeps integrity |
| `Rbac.DeleteRoleKeepsIntegrity` | unifiedui/handlers/principals.py:514-597 | Deleting one keeps integrity |
| `Rbac.CreateTenantKeepsIntegrity` | unifiedui/handlers/tenants.py:148-219 | Creating a tenant keeps integrity, at most one tenant for each organization, name and environment included |
| `Rbac.DeleteTenantKeepsIntegrity` | unifiedui/handlers/tenants.py:270-311 | The cascade of a tenant deletion keeps integrity |
| `Rbac.CreateGroupKeepsIntegrity` | unifiedui/handlers/custom_groups.py:195-269 | Creating a group with its creator's membership keeps integrity |
| `Rbac.UpsertGroupRowKeepsIntegrity` | unifiedui/handlers/custom_groups.py:606-636 | A membership upsert never meets a second row of the pair, always goes through and keeps integrity, one row a pair included; which role it leaves is `RowEffects.SetMemberWrites` |
| `Rbac.DeleteGroupKeepsIntegrity` | unifiedui/handlers/custom_groups.py:331-374 | The cascade of a group deletion keeps integrity |
| `Rbac.CreateAgentKeepsIntegrity` | unifiedui/handlers/resource_permissions.py:750-790 | A new resource with its creator's ADMIN grant keeps integrity |
| `Rbac.UpsertMemberRowKeepsIntegrity` | unifiedui/handlers/resource_permissions.py:473-521 | A grant never meets a second row of the pair and leaves exactly one |
| `Rbac.DeletePermissionKeepsIntegrity` | unifiedui/handlers/resource_permissions.py:539-595 | Revoking keeps integrity |
| `Rbac.DeleteAgentKeepsIntegrity` | unifiedui/handlers/chat_agents.py:493-531 | Deleting a resource keeps integrity |
| `Coherence.IntegrityAlways` | alembic/versions/ab923788c135_initial_schema.py:273-276 | After every run of calls and reads, member rows join existing resources and principals of one tenant, with at most one row for each pair |
| `Effects.RoleReachesItsPrincipals` | unifiedui/handlers/principals.py:404-512 | After a role is set, a user has gained it exactly when the principal is the user or one of the user's groups, and nothing else changed |
| `Effects.DeletedRoleLeavesOthers` | unifiedui/handlers/principals.py:514-597 | After a role is deleted, a user has it exactly when another of the user's principals holds it |
| `Effects.RoleRoundTrip` | unifiedui/handlers/principals.py:514-597 | Deleting a role just given restores the tables |
| `Effects.GrantSetsLevel` | unifiedui/handlers/resource_permissions.py:473-521 | A grant replaces what its principal held on the resource and changes nothing for any other principal or resource |
| `Effects.RevokeRemovesLevel` | unifiedui/handlers/resource_permissions.py:539-595 | Revoking succeeds exactly when that level is held, and takes away that and nothing else |
| `Effects.GrantRoundTrip` | unifiedui/handlers/resource_permissions.py:539-595 | Revoking a first grant restores the tables |
| `Effects.MembershipDecidesGroups` | unifiedui/handlers/custom_groups.py:548-649 | Setting a member puts exactly that user into exactly that group |
| `Effects.RemovalDecidesGroups` | unifiedui/handlers/custom_groups.py:651-702 | Removing a member takes exactly that user out of exactly that group |
| `Effects.MembershipRoundTrip` | unifiedui/handlers/custom_groups.py:651-702 | Removing a first membership restores the tables |
| `Effects.GroupRoundTrip` | unifiedui/handlers/custom_groups.py:331-374 | Deleting a group just created restores the tables |
| `Effects.AgentRoundTrip` | unifiedui/handlers/chat_agents.py:493-531 | Deleting a resource just created restores the tables |
| `Effects.TenantRoundTrip` | unifiedui/handlers/tenants.py:270-311 | Deleting a tenant just created restores the tables |
| `RowEffects.EnsureRegisters` | unifiedui/handlers/principals_helper.py:43-91 | A principal can be used exactly if it is registered or the identity provider knows it under the type passed; nothing is written but its registration under that type |
| `RowEffects.SetRoleWrites` | unifiedui/handlers/principals.py:404-512 | A role is set exactly if the tenant exists and the principal is known, and adds that one row |
| `RowEffects.DeleteRoleWrites` | unifiedui/handlers/principals.py:514-597 | Deleting a role takes that one row and no other of the principal's |
| `RowEffects.CreateTenantWrites` | unifiedui/handlers/tenants.py:148-219 | A tenant is made exactly if the creator has an organization and is known, the name fits and no sandbox of the organization has it; the row is a deletable sandbox and the creator its only global administrator |
| `RowEffects.DeleteTenantWrites` | unifiedui/handlers/tenants.py:270-311 | A tenant goes exactly if it is there and deletable, with all of its rows and none of any other tenant |
| `RowEffects.CreateGroupWrites` | unifiedui/handlers/custom_groups.py:195-269 | A new group's creator holds exactly ADMIN in it, nobody else anything, and every other membership stays |
| `RowEffects.SetMemberWrites` | unifiedui/handlers/custom_groups.py:548-649 | Setting a member goes through exactly if the group is there and the principal known; afterwards the roles of that tenant, group and principal are exactly the one passed and those of every other triple unchanged |
| `RowEffects.RemoveMemberWrites` | unifiedui/handlers/custom_groups.py:651-702 | Removing a member leaves that triple no role and changes no other's |
| `RowEffects.DeleteGroupWrites` | unifiedui/handlers/custom_groups.py:331-374 | Deleting a group takes the group, its members, its own memberships, roles and levels in its tenant, and nothing else |
| `RowEffects.CreateAgentWrites` | unifiedui/handlers/chat_agents.py:344-416 | A resource is made exactly if its name fits and is free in the tenant and the creator is known; it is the row passed, and its creator alone holds exactly ADMIN on it |
| `RowEffects.DuplicateAgentWrites` | unifiedui/handlers/chat_agents.py:533-604 | A duplicate has the source's content and activity, a free name that begins with the source's, no tags, its own creation time, and its creator alone with ADMIN; every other resource and level stays |
| `RowEffects.DuplicateAgentGoesIff` | unifiedui/handlers/chat_agents.py:533-604 | A duplication goes through exactly if the source is in the tenant, the caller is known and the generated name fits and is free |
| `RowEffects.DuplicateIsCalled` | unifiedui/handlers/chat_agents.py:606-628 | The duplicate of X is called `X Copy` if no name of the tenant matches `X Copy%`, and otherwise `X Copy(n)` with n one more than the number of matches |
| `RowEffects.UpdateAgentWrites` | unifiedui/handlers/chat_agents.py:418-491 | An update goes through exactly if the new name fits and no other resource of the tenant has it; name, content and activity change, tenant, tags, creation time and every other row stay |
| `RowEffects.DeleteAgentWrites` | unifiedui/handlers/chat_agents.py:493-531 | Deleting a resource takes its row and every level on it and nothing else |
| `RowEffects.SetPermissionWrites` | unifiedui/handlers/resource_permissions.py:431-537 | A grant goes through exactly if the resource is in the tenant and the principal known, and writes only that level and the registration |
| `RowEffects.DeletePermissionWrites` | unifiedui/handlers/resource_permissions.py:539-595 | A revocation goes through exactly if the principal holds exactly that level on a resource of the tenant, and takes only that |
| `RoleCoherence.RoleRowConcerns` | unifiedui/handlers/principals.py:653-675 | A role row of a principal stored under its true type concerns only users whose entries are cleared |
| `RoleCoherence.CallKeepsRoles` | unifiedui/handlers/principals.py:639-696 | Every call in scope keeps cached groups and cached tenant roles coherent |
| `RoleCoherence.ReadRolesIsFresh` | unifiedui/core/identity/users.py:262-306 | Roles read through the group cache and the role cache are the freshly computed ones |
| `RoleCoherence.RolesFreshAlways` | unifiedui/handlers/tenants.py:313-390 | In every reachable state each user's cached tenant roles are the fresh ones |
| `Contexts.ContextResolvesIff` | unifiedui/handlers/permission_resolver.py:60-89 | A context whose groups lag behind the tables resolves what a fresh one does exactly when the user is an administrator or no group it misses holds more on the resource than it does |
| `Contexts.ContextPageIff` | unifiedui/handlers/chat_agents.py:187-267 | A page from such a context is the fresh one if that holds for everything the query can show, a whole list only then |
| `Contexts.CallKeepsWide` | unifiedui/handlers/resource_permissions.py:729-748 | Every call keeps cached groups within the user's own and cached details of existing resources current |
| `Contexts.DetailFreshIffAlways` | unifiedui/handlers/chat_agents.py:278-342 | In every reachable state a detail read of an existing resource is right exactly when the user's groups are not cached, the user is an administrator or the cached groups miss nothing of it; of any other, exactly when no detail is cached |
| `Contexts.PageFreshIffAlways` | unifiedui/handlers/chat_agents.py:165-276 | In every reachable state a page that has to be computed is right if that holds for everything the query can show, a whole list only then |
| `Contexts.EmptySystemIsWide` | unifiedui/handlers/chat_agents.py:165-276 | The empty system is a start for every such run |
| `ListCoherence.CallKeepsReader` | unifiedui/handlers/resource_permissions.py:729-748 | A call that spares a reader keeps the reader's pages, details and cached groups right |
| `ListCoherence.ReadListIsFresh` | unifiedui/handlers/chat_agents.py:165-276 | With a right page or none cached, a page read through all caches is the uncached page |
| `ListCoherence.ReadDetailIsFresh` | unifiedui/handlers/chat_agents.py:298-342 | So is a detail, the permission on it resolved for the caller on every read |
| `ListCoherence.ListsFreshAlways` | unifiedui/handlers/chat_agents.py:109-342 | Over every run of calls that spare a reader, with reads by anybody, the reader's list and detail reads equal uncached ones |
| `ListCoherence.EmptySystemIsRight` | unifiedui/handlers/chat_agents.py:165-276 | The empty system is a start for every such run of every reader |
| `StaleCaches.ClearingReachesOnlyOwnRoles` | unifiedui/caching/client.py:48-57 | Clearing one user reaches the role entry of another exactly when they are the same |
| `StaleCaches.RolesReadAfter` | unifiedui/handlers/tenants.py:313-345 | After any call a surviving role entry answers with the roles before it, and a user without one gets the fresh roles |
| `StaleCaches.SetRoleFreshIff` | unifiedui/handlers/principals.py:649-694 | After a role is set under any type, a user's cached roles are right exactly when there were none, the change reached them, or it gave the user nothing |
| `StaleCaches.DeleteRoleFreshIff` | unifiedui/handlers/principals.py:649-694 | The same after a role is deleted: exactly when there were none, the change reached them, or it took nothing |
| `StalePages.ClearingReachesOnlyOwnPages` | unifiedui/caching/client.py:48-57 | Clearing one user reaches a page of another exactly when they are the same |
| `Listing.SamePageIff` | unifiedui/handlers/chat_agents.py:187-267 | Two callers get one page if they have the same permission on everything the query can show, one whole list only then |
| `StalePages.AdminListIff` | unifiedui/handlers/chat_agents.py:196-267 | A member's whole list is an administrator's exactly when the member holds ADMIN on everything the query can show |
| `StalePages.GroupRolePageFreshIff` | unifiedui/handlers/principals.py:676-694 | After a role is set for an identity group, a page that was right stays right if it was not cached, is the acting user's or another tenant's, the role makes nobody administrator or not this user, or the user is one already or holds ADMIN on everything shown; a whole list only then |
| `StalePages.GroupRoleRemovalPageFreshIff` | unifiedui/handlers/principals.py:676-694 | The same after a role of an identity group is deleted |
| `StalePages.TenantDeletionPageFreshIff` | unifiedui/handlers/tenants.py:297-306 | After a tenant is deleted a page is right exactly when it is another tenant's, was not cached or was empty |
| `StalePages.TenantDeletionDetailFreshIff` | unifiedui/handlers/tenants.py:297-306 | A detail is right exactly when it is another tenant's or was not cached |
| `StaleGrants.GroupGrantFreshIff` | unifiedui/handlers/resource_permissions.py:741-748 | After a grant to a group a user's read of the resource is right exactly when the user's groups were not cached, the user is an administrator, or what the unnamed groups hold after the grant weighs no more than what the named principals do, told from the tables before it |
| `StaleGrants.GroupGrantPageFreshIff` | unifiedui/handlers/resource_permissions.py:741-748 | The tenant's pages, computed anew, are right if that holds for everything they can show, whole lists only then |
| `StaleGrants.UnnamedGrantFreshIff` | unifiedui/handlers/resource_permissions.py:741-748 | A grant to a group the cached groups do not name leaves a right read right exactly when the user is an administrator or holds that level through what they name |
| `StaleRuns.RoleSetUnseen` | unifiedui/handlers/principals.py:649-694 | A run after which a member's cached roles miss a role of the group |
| `StaleRuns.RoleDeletionUnseen` | unifiedui/handlers/principals.py:649-694 | A run after which they keep a deleted one |
| `StaleRuns.AdminRoleUnseen` | unifiedui/handlers/principals.py:676-694 | A run after which a new administrator's list stays empty |
| `StaleRuns.AdminRemovalUnseen` | unifiedui/handlers/principals.py:676-694 | A run after which a former administrator's list stays full |
| `StaleRuns.FirstGrantUnseen` | unifiedui/handlers/resource_permissions.py:741-748 | A run after which a granted resource still resolves to nothing |
| `StaleRuns.KnownGrantUnseen` | unifiedui/handlers/resource_permissions.py:741-748 | The same for a group the tenant knew before |
| `StaleRuns.MembershipUnseen` | unifiedui/handlers/custom_groups.py:548-649 | The same for a group that a membership had registered |
| `StaleRuns.TenantDeletionUnseen` | unifiedui/handlers/tenants.py:297-306 | A run after which a deleted tenant's list keeps its resource |
| `RbacService.Service.InvalidateCacheForPrincipal` | unifiedui/handlers/principals.py:639-696 | The new cache lacks exactly what the principal's type, its members and the actor call for |
| `RbacService.Service.SetPrincipalPermission` | unifiedui/handlers/principals.py:404-512 | The call is the state machine's step |
| `RbacService.Service.DeletePrincipalPermission` | unifiedui/handlers/principals.py:514-597 | The call is the state machine's step |
| `RbacService.Service.CreateTenant` | unifiedui/handlers/tenants.py:148-219 | The call is the state machine's step: tenant, creator and administrator role, or nothing without an organization or with its sandbox name taken |
| `RbacService.Service.DeleteTenant` | unifiedui/handlers/tenants.py:270-311 | The call is the state machine's step |
| `RbacService.Service.CreateCustomGroup` | unifiedui/handlers/custom_groups.py:195-269 | The call is the state machine's step |
| `RbacService.Service.SetMemberRole` | unifiedui/handlers/custom_groups.py:548-649 | The call is the state machine's step, and it never fails on a duplicate row; which roles the step leaves is `RowEffects.SetMemberWrites` |
| `RbacService.Service.DeleteMember` | unifiedui/handlers/custom_groups.py:651-702 | The call is the state machine's step; nothing is cleared when there was no membership |
| `RbacService.Service.DeleteCustomGroup` | unifiedui/handlers/custom_groups.py:331-374 | The call is the state machine's step |
| `RbacService.Service.CreateChatAgent` | unifiedui/handlers/chat_agents.py:344-416 | The call is the state machine's step: row, creator grant and principal, or nothing |
| `RbacService.Service.DuplicateChatAgent` | unifiedui/handlers/chat_agents.py:533-604 | The call is the state machine's step, refused when the generated name is taken or too long |
| `RbacService.Service.UpdateChatAgent` | unifiedui/handlers/chat_agents.py:418-491 | The call is the state machine's step |
| `RbacService.Service.DeleteChatAgent` | unifiedui/handlers/chat_agents.py:493-531 | The call is the state machine's step |
| `RbacService.Service.GrantPermission` | unifiedui/handlers/resource_permissions.py:431-537 | The call is the state machine's step, and it never fails on a duplicate row; which roles the step leaves is `RowEffects.SetMemberWrites` |
| `RbacService.Service.RevokePermission` | unifiedui/handlers/resource_permissions.py:539-595 | The call is the state machine's step |
| `RbacService.Service.Groups` | unifiedui/core/identity/users.py:145-238 | Reading groups is the state machine's read |
| `RbacService.Service.TenantRolesOf` | unifiedui/handlers/tenants.py:313-390 | Reading tenant roles is the state machine's read |
| `RbacService.Service.ListChatAgents` | unifiedui/handlers/chat_agents.py:109-276 | Reading a page is the state machine's read, built from the two query answers by the bulk resolver; what a page holds is told by `ListContents` |
| `RbacService.Service.GetChatAgent` | unifiedui/handlers/chat_agents.py:278-342 | Reading a detail is the state machine's read |
| `PermissionListing.GroupPermissions` | unifiedui/handlers/resource_permissions.py:304-325 | The dictionary loop yields one entry a principal, with the record of its first row and its distinct roles in order |
| `PermissionListing.GroupingLosesNothing` | unifiedui/handlers/resource_permissions.py:304-325 | Each principal occurs once and its duplicate-free roles are exactly those of its rows |
| `PermissionListing.ListPermissions` | unifiedui/handlers/principals.py:235-348 | The response is the requested slice of the stably sorted grouping |
| `PermissionListing.PagesListEveryone` | unifiedui/handlers/resource_permissions.py:326-334 | Pages of any positive size, put together, are the whole sorted list, ties in grouping order |
| `PermissionListing.ListedInOrder` | unifiedui/handlers/resource_permissions.py:326-334 | Sorted pages run by name, ascending or descending as asked; unsorted ones in the order in which the principals first occur in the rows |
| `PermissionListing.GroupedInRowOrder` | unifiedui/handlers/resource_permissions.py:304-324 | An entry has the record and, first of all, the role of its principal's first row |
| `CopyNames.NumberedCopyInjective` | unifiedui/handlers/chat_agents.py:618-628 | A numbered copy determines its original and its number |
| `CopyNames.CopyNameSpelled` | unifiedui/handlers/chat_agents.py:606-628 | The generated name, spelled out: `X Copy`, or `X Copy(n)` with n, in decimal, one more than the number of names the pattern finds |
| `Wildcard.LikeAny` | unifiedui/handlers/chat_agents.py:618-623 | Underscores in a pattern stand for as many characters, whichever they are |
| `CopyNames.CopiesAreSimilar` | unifiedui/handlers/chat_agents.py:618-623 | If the pattern of a name finds its first copy, it finds every numbered one |
| `CopyNames.PlainCountsCopies` | unifiedui/handlers/chat_agents.py:618-623 | The pattern of every name without a backslash, wildcards or not, finds its first copy |
| `CopyNames.GeneratedNameUnused` | unifiedui/handlers/chat_agents.py:606-628 | While no copy's number exceeds the LIKE count of its original, the generated name is unused, for every name whose pattern finds its copies |
| `CopyNames.AddingKeepsInvariant` | unifiedui/handlers/workflows.py:730-754 | Adding a generated name, or one not of the form `X Copy(n)`, keeps that bound for every original |
| `CopyNames.CopyNamesStayFresh` | alembic/versions/ab923788c135_initial_schema.py:113 | On every run without deletes or renames every duplication of a name whose pattern finds its copies gets an unused name |
| `CopyNames.SecondDuplicateClashesIff` | unifiedui/handlers/chat_agents.py:606-628 | The second duplication of a name invents a taken name exactly when the name's pattern misses its copies |
| `CopyNames.BackslashMissesCopies` | unifiedui/handlers/chat_agents.py:618-623 | It does for every name with a backslash and no bare wildcard |
| `CopyNames.ClashIff` | unifiedui/handlers/chat_agents.py:606-628 | After any run of creations, duplications, renames and deletions the next duplication of X clashes exactly when a row made by duplicating X, and not renamed since, was made when as many rows were similar to X as are now, or with none similar when `X Copy` is taken |
| `CopyNames.ClashAfterDeletes` | unifiedui/handlers/chat_agents.py:618-628 | After a run of adds and the deletion of any rows, k of them similar to X, the next duplication of X clashes exactly when 0 < k < all of them and the k-th newest survives and was made by duplicating X while there was another |
| `CopyNames.ClashAfterDelete` | unifiedui/handlers/chat_agents.py:618-628 | With one row deleted: exactly when it was similar and the newest similar row is another one, made by duplicating X while there was another |
| `CopyNames.RenamedAwayIsDeleted` | unifiedui/handlers/chat_agents.py:618-628 | A rename to a name not similar to X acts on duplications of X as a deletion |
| `CopyNames.DeleteRefutesFreshness` | unifiedui/handlers/chat_agents.py:606-628 | Two runs, one with a deletion and one with a rename, after which the generated name is taken |
| `CopyNameRuns.DuplicationsAlwaysGoThrough` | unifiedui/handlers/chat_agents.py:533-604 | On every run of all calls and reads that deletes and renames no resource, a duplication of a resource whose name's pattern finds its copies goes through exactly when its creator is known and the new name has at most 255 characters |
| `CopyNameRuns.CallsAreNameSteps` | unifiedui/handlers/chat_agents.py:344-604 | Creating, duplicating, renaming and deleting resources, refused or not, does to a tenant's names what the steps over the names alone do |
| `SecretKeys.UrisDiffer` | unifiedui/handlers/workflows.py:660-676 | Key URIs of different slots, workflows or tenants differ, from each other and from credential URIs |
| `SecretKeys.NeverDangling` | unifiedui/handlers/workflows.py:430-485 | Over every run, each call stopped after any of its writes, committed rows name only secrets that exist, as long as deletions that removed a secret commit |
| `SecretKeys.DeletionDanglesIff` | unifiedui/handlers/credentials.py:529-573 | An interrupted deletion leaves a dangling URI exactly when it stopped after a removal and before its commit |
| `SecretKeys.CreatedKeysReadBack` | unifiedui/handlers/workflows.py:1251-1298 | A workflow made or copied with a vault where keys are allowed reads its keys back under numbers 1 and 2; making it, wherever it stops and whatever is allowed, changes no key of another workflow |
| `SecretKeys.MadeWorkflowRow` | unifiedui/handlers/workflows.py:430-485 | A made workflow's row, and when it is there: the tenant, the URIs of its two slots or none without a vault, and the caller's or the source's permission to use keys |
| `SecretKeys.ForbiddenKeysStayForbidden` | unifiedui/handlers/workflows.py:1251-1341 | A workflow made or copied where keys are forbidden refuses both keys, and a rotation on it writes nothing |
| `SecretKeys.KeysWithoutVault` | unifiedui/handlers/workflows.py:1300-1377 | One made without a vault where they are allowed has no key under either number until a first rotation |
| `SecretKeys.KeyReadsIff` | unifiedui/handlers/workflows.py:1251-1298 | A key reads exactly if the workflow is in the tenant and may use keys, number 1 or 2 names a secret, and that is in the vault and not empty |
| `SecretKeys.CreatedSecretReadsBack` | unifiedui/handlers/credentials.py:327-355 | A created credential's secret reads back |
| `SecretKeys.UpdatedSecretReads` | unifiedui/handlers/credentials.py:327-355 | A completed update reads as the new secret only if the vault accepted it, as the old one otherwise |
| `SecretKeys.CredentialRowWritten` | unifiedui/handlers/credentials.py:387-527 | A completed creation or update leaves the name it was given under the credential's own tenant and URI, and no other row changed |
| `SecretKeys.DeletionRemoves` | unifiedui/handlers/credentials.py:529-573 | A completed deletion leaves no row, takes exactly the secrets it could remove out of the vault and touches nothing else |
| `SecretKeys.OtherTenantsUntouched` | unifiedui/handlers/workflows.py:569-633 | A call on a row of another tenant, or on none, writes nothing |
| `SecretKeys.RotationIsLocal` | unifiedui/handlers/workflows.py:1300-1377 | Rotating a slot changes what no other slot reads, wherever it stops; completed, the slot reads the new key |
| `SecretService.Service.CreateCredential` | unifiedui/handlers/credentials.py:387-437 | Stopped after any write, the stores are those the plan leaves |
| `SecretService.Service.UpdateCredential` | unifiedui/handlers/credentials.py:439-527 | The same; the call succeeds whether or not the vault accepted the secret |
| `SecretService.Service.DeleteCredential` | unifiedui/handlers/credentials.py:529-573 | The same, the removal coming before the commit |
| `SecretService.Service.CreateWorkflow` | unifiedui/handlers/workflows.py:430-485 | The same, both keys coming before the row; what the row and its keys then are is `MadeWorkflowRow`, `CreatedKeysReadBack`, `ForbiddenKeysStayForbidden` and `KeysWithoutVault` |
| `SecretService.Service.DuplicateWorkflow` | unifiedui/handlers/workflows.py:660-720 | The same, with keys of its own and the source's permission to use them; the four lemmas named above cover it too |
| `SecretService.Service.RotateApiKey` | unifiedui/handlers/workflows.py:1343-1371 | The same; the new key is returned exactly when everything was written |
| `SecretService.Service.DeleteWorkflow` | unifiedui/handlers/workflows.py:569-633 | The same, with best-effort removals before the row |
| `RecentVisits.CommitSucceedsIff` | unifiedui/handlers/recent_visits.py:219-246 | The commit succeeds exactly when no two places of the request name the same unknown key and every unknown id has at most 36 characters |
| `RecentVisits.CommittedStamps` | unifiedui/handlers/recent_visits.py:219-243 | The first commit adds exactly the requested rows, stamps them with readings of the clock taken during the call and changes no other row; the names they bear are `CommittedNames` |
| `RecentVisits.CommittedNames` | unifiedui/handlers/recent_visits.py:219-243 | After the commit the row of every requested resource, updated or inserted, bears the name of the request's last item for it; rows not requested are unchanged |
| `RecentVisits.CommittedInOrder` | unifiedui/handlers/recent_visits.py:219-243 | Under an advancing clock known rows are stamped in the order of their last mention and new rows after all of them in the order of theirs |
| `RecentVisits.EvictionKeepsFifty` | unifiedui/handlers/recent_visits.py:166-198 | Eviction leaves the user fifty rows, or all of fewer, none newer gone than kept |
| `RecentVisits.RequestedAreNewest` | unifiedui/handlers/recent_visits.py:219-243 | With a clock that never goes back no other row is newer than a requested one; with one that always advances every other row is older |
| `RecentVisits.SyncedVisitsSurvive` | unifiedui/handlers/recent_visits.py:179-198 | With any strictly increasing clock every visit of a request for at most fifty resources survives its own eviction |
| `RecentVisits.OverfetchIsNaiveIff` | unifiedui/handlers/recent_visits.py:105-117 | The over-fetching list is the first `limit` live visits exactly when the window fills the limit or nothing live lies beyond it |
| `RecentVisits.FewDeadVisits` | unifiedui/handlers/recent_visits.py:105-117 | In particular when at most `limit` visits of the window are dead |
| `RecentVisits.GroupedCheckIsPerVisitIff` | unifiedui/handlers/recent_visits.py:143-164 | The grouped existence check is the per-visit check exactly when no dead visit shares its id with a live one of another type |
| `RecentVisits.ListShowsNewestLive` | unifiedui/handlers/recent_visits.py:79-122 | With ids unique across types the answer holds live visits of the user, newest first, at most `limit` |
| `RecentVisits.ListIsOfTypes` | unifiedui/handlers/recent_visits.py:79-104 | A list shows only the user's visits in the tenant, of the types asked for |
| `RecentVisits.ListIsNewestFirst` | unifiedui/handlers/recent_visits.py:79-122 | A list holds each visit once, newest first, and no more than asked for |
| `RecentVisits.ListShowsExistingIds` | unifiedui/handlers/recent_visits.py:124-164 | While there are no more visits than asked for it shows exactly those whose id exists under the type of some of them |
| `RecentVisits.LeftOutIsOlder` | unifiedui/handlers/recent_visits.py:105-117 | A live visit missing from a list that is not full is behind at least 2 * `limit` others that are no older |
| `RecentVisitsHandler.Handler.SyncRecentVisits` | unifiedui/handlers/recent_visits.py:200-248 | For every accepted request it succeeds exactly when the commit does, changes no row otherwise, commits the rows whose keys, stamps and names the lemmas above tell, keeps the newest fifty of the user's rows and everyone else's, and answers with the newest twenty |
| `RecentVisitsHandler.Handler.CleanupOldVisits` | unifiedui/handlers/recent_visits.py:166-198 | Exactly the excess rows go, none of them newer than a kept one, nobody else's |
| `RecentVisitsHandler.Handler.ListRecentVisits` | unifiedui/handlers/recent_visits.py:79-122 | The first `limit` valid visits of the newest 2 * `limit` of the requested types |
| `RecentVisitsHandler.Handler.FilterExistingResources` | unifiedui/handlers/recent_visits.py:124-164 | The visits whose id exists under the type of some fetched visit, in order |
| `FeedbackStats.ReasonBreakdown` | unifiedui/handlers/feedback_stats.py:152-174 | For any number of rows the breakdown is the histogram over all negative feedback: each reason once, by descending count |
| `FeedbackStats.ReasonsPermuted` | unifiedui/handlers/feedback_stats.py:152-171 | The histogram does not depend on the order of the rows |
| `FeedbackStats.Timeline` | unifiedui/handlers/feedback_stats.py:176-193 | One point a row, oldest first, each with the sum of the deltas up to it |
| `FeedbackStats.GroupsPartition` | unifiedui/handlers/feedback_stats.py:195-215 | Counting a class of rows group by group counts it once |
| `FeedbackStats.PerAgent` | unifiedui/handlers/feedback_stats.py:195-237 | One entry for each agent with feedback, over exactly its rows |
| `FeedbackStats.ListsAreNewest` | unifiedui/handlers/feedback_stats.py:90-135 | The response lists only rows of the rating, at most a hundred and all of fewer, newest first, and leaves out none newer than one listed, for either rating |
| `FeedbackStats.GetFeedbackStats` | unifiedui/handlers/feedback_stats.py:31-250 | Every part of the response is the one `Reports` asks for over the selected rows; what the parts then hold is told by `ListsAreNewest` and the six lemmas that follow |
| `FeedbackStats.SelectedAre` | unifiedui/handlers/feedback_stats.py:50-66 | Selected are the tenant's rows, of conversations of the agents asked for, between the two dates, both included |
| `FeedbackStats.CountsAre` | unifiedui/handlers/feedback_stats.py:68-88 | Total, up and down count the selected rows and those of either rating |
| `FeedbackStats.ScoresRead` | unifiedui/handlers/feedback_stats.py:88 | A score is there exactly if there is feedback, and no number of thousandths is nearer to the share of positive rows, over all rows and for each agent |
| `FeedbackStats.BreakdownCounts` | unifiedui/handlers/feedback_stats.py:152-174 | The breakdown has each reason some negative row names, once, with the number of places that name it, most frequent first |
| `FeedbackStats.TimelineRuns` | unifiedui/handlers/feedback_stats.py:176-193 | The timeline runs forward in time over all rows, one up for a positive and one down for a negative row, each point adding its own to the sum before it |
| `FeedbackStats.EntryCounts` | unifiedui/handlers/feedback_stats.py:195-237 | An agent's entry counts the rows of the agent's conversations, and those of either rating |
| `FeedbackStats.FeedbackIsConserved` | unifiedui/handlers/feedback_stats.py:70-237 | total = up + down = timeline length = sum over agents, likewise for up and down, and the last cumulative value is up - down |
| `FeedbackStats.FloatScoreIsNearest` | unifiedui/handlers/feedback_stats.py:88 | Rounding a quotient as exact as double precision gives a multiple of 0.001 nearest to up / total |
| `FeedbackStats.HalfwayIsBinaryIff` | unifiedui/handlers/feedback_stats.py:88 | A quotient halfway between two multiples is a binary fraction, and so exact, exactly when it is a number of sixteenths; the score is then the even one |
| `FeedbackStats.ScoreIsUniqueIff` | unifiedui/handlers/feedback_stats.py:88 | The score is determined exactly unless the quotient is halfway and no binary fraction; then both neighbours are allowed |
| `FeedbackStats.ScoreError` | unifiedui/handlers/feedback_stats.py:88 | Every score lies in [0, 1] and within 0.0005 of up / total |
| `Search.HitIsContainment` | unifiedui/handlers/search.py:262-270 | A query without bare wildcards hits exactly the rows with a searched column that contains what it stands for, backslashes taken as escapes |
| `Search.SearchFindsWanted` | unifiedui/handlers/search.py:431-487 | The result holds exactly the rows of the requested types that match and that the caller may see (READ granted, or administrator), each key once, by name; the total counts them |
| `Search.SearchShows` | unifiedui/handlers/search.py:378-474 | A row is shown exactly if the query hits it, it is in the tenant and of a type asked for, or of any of the nine if none is, and the caller administers its type or, for the six types with members, a member row gives it to the caller |
| `Search.OpenedToAdmins` | unifiedui/handlers/search.py:58-124 | Which role administers which of the nine types, one by one, beside the global administrator |
| `Search.ItemsSay` | unifiedui/handlers/search.py:489-532 | An item has its row's type, id and name, matched in the name exactly if that contains the query and in the description otherwise, and the tags of the six tagged types |
| `Search.SpaceIs` | unifiedui/handlers/search.py:400-403 | What counts as whitespace, character by character, is what str.strip() takes |
| `Search.StripIs` | unifiedui/handlers/search.py:400-403 | The query is searched without the whitespace at its ends, and without any more |
| `Search.PagesEnumerateSearch` | unifiedui/handlers/search.py:480-487 | Consecutive pages of any positive size enumerate each (type, id) once |
| `Search.LoadedTagsAreOwn` | unifiedui/handlers/search.py:217-234 | What the tag query loads for an entity are exactly its own tags |
| `Search.LoadTagsForEntities` | unifiedui/handlers/search.py:195-234 | Looking up any requested entity gives exactly its own tags |
| `Search.BuiltOrEmpty` | unifiedui/handlers/search.py:431-474 | A type whose subquery is skipped would contribute no row |
| `Search.Search` | unifiedui/handlers/search.py:378-538 | The response is the requested slice of the result, each item with its own tags, and the total; a blank query finds nothing |
| `Dashboard.TotalIsListLengthIff` | unifiedui/handlers/dashboard.py:98-117 | The total is the unpaged list's length exactly unless the user only administers the type and some resource is not shared with them; it never exceeds it |
| `Dashboard.ActiveAndInactive` | unifiedui/handlers/dashboard.py:119-129 | Active and inactive counts are those of the counted resources |
| `Dashboard.StatsCountTheirTables` | unifiedui/handlers/dashboard.py:131-211 | Each of the four parts counts its own table, for a global administrator everything of the tenant and for anybody else what is shared; only agents are split by activity |
| `Dashboard.GrantKeepsDashboardIff` | unifiedui/handlers/dashboard.py:131-211 | Statistics served from before a grant are those after it exactly when the grant shows the user nothing new |
| `Dashboard.RevokeKeepsDashboardIff` | unifiedui/handlers/dashboard.py:131-211 | From before a revocation: exactly when it hides nothing from the user |
| `Dashboard.DeletionKeepsDashboardIff` | unifiedui/handlers/dashboard.py:131-211 | From before a resource's deletion: exactly when it was not counted |
| `Dashboard.RoleKeepsDashboardIff` | unifiedui/handlers/dashboard.py:98-117 | From before the user became or stopped being global administrator: exactly when everything counted has been shared with the user |
| `Dashboard.GrantLeavesDashboard` | unifiedui/handlers/dashboard.py:148 | No grant clears a cached dashboard |
| `ReactionMigration.Script.Migrate` | scripts/migrate_reactions_to_feedback.py:58-125 | The loop's report and rows are those of the run; a dry run changes no row |
| `ReactionMigration.NormalisedIs` | scripts/migrate_reactions_to_feedback.py:33-56 | A document is mappable exactly if it is thumbs_up or thumbs_down and has tenant, conversation, message and user under either spelling; the rating is that thumb, the comment the feedback text, if any |
| `ReactionMigration.SkippedAre` | scripts/migrate_reactions_to_feedback.py:88-94 | Skipped are exactly the mappable documents whose conversation is not in their tenant |
| `ReactionMigration.FirstDecidesConversation` | scripts/migrate_reactions_to_feedback.py:103-113 | A new row has the conversation of the first storable document of its key and an empty list of reasons |
| `ReactionMigration.MigrationCounts` | scripts/migrate_reactions_to_feedback.py:81-120 | scanned = inserted + updated + skipped + unmappable, and the table grows by what was inserted |
| `ReactionMigration.LastWins` | scripts/migrate_reactions_to_feedback.py:93-119 | Each key ends with the rating and comment of its last storable document; keys without one are untouched |
| `ReactionMigration.MigrationIsIdempotent` | scripts/migrate_reactions_to_feedback.py:1-5 | A second run over the same documents in the same order inserts nothing and leaves the table as it is |
| `ReactionMigration.DryRunPredictsIff` | scripts/migrate_reactions_to_feedback.py:109-111 | The dry run announces at least the real inserts, and reports the same exactly when no two documents would insert one key |

## Left out

- Time to live and concurrent reads and writes of the cache: calls are atomic and entries live until they are invalidated.
- Changes in the identity provider during a run, and its own cached group ids.
- Resource types other than chat agents in the coherence theorems: they share the same handlers and key formats.
- Filtered, quick-list and tag-filtered lists: they are not cached, and the workflow list asks for all tags of an
  administrator and any tag of a member.
- RbacService.Service.ListChatAgents: the SQL answers are parameters, constrained to be the page and the member rows of the context; rows
  the order does not separate come in one fixed order.
- Order columns other than name and creation time, glob character classes and escapes.
- CopyNameRuns.DuplicationsAlwaysGoThrough: names whose pattern misses their own copies, for which `ClashIff` is the condition.
- Coherence.IntegrityAlways: custom groups as resources of the generic permission handler are not among the calls.
- Organization handlers and tenant renaming: they change tenants without clearing role entries.
- `refresh_principal`, principal status, tag handlers, conversations, chat widgets, external apps and AI models.
- Audit columns (created and updated by, updated at) and descriptions that no query here reads.
- Descriptions, subtitles and sub-types of search results, which are passed on as they are read.
- Case folding: search takes it as a parameter, so accents and locale are not modelled.
- FeedbackStats.FloatScoreIsNearest: beyond nine million million rows the binary error could cross a halfway point.
- Removal of a workflow's imported data and of a resource's visits when it is deleted.
- Configuration assembly for agents and workflows, route handling, identity tokens, logging and settings.
