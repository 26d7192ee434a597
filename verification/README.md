# A verified model of nexus-mini's core

This project models the parts of nexus-mini, a multi-tenant platform written in Go, where correctness depends on more
than one function: OpenID Connect token families, role delegation, app installation and its history, the per-process
caches, the signed registry cache, the distribution editor, and the department forest. `dafny verify dfyconfig.toml`
checks all of it.

## How it is organised

Each part has a specification in terms of values (a state, steps or requests, runs of them), lemmas about all runs, and
imperative code in the form the source has, proved equal to the specification or to a run of its steps.

| part | specification and laws | code |
|---|---|---|
| token families | `TokenMachine`, `TokenInvariants`, `TokenFamilies`, `TokenProvenance`, `TokenLifetimes`, `TokenFrames` | `TokenHandlers`, `Scopes` |
| grants, roles, delegation | `Grants`, `Rbac`, `Delegation`, `DelegationExact`, `Hops` | `DelegationStore` |
| default grants, upgrade gate | `Seed`, `Upgrade` | `Seed`, `Upgrade` |
| dependency order, install, history | `Resolve`, `History` | `Resolve`, `Install`, `HistoryStore` |
| caches | `Caches` | `CacheStore` |
| registry index | `RegistryFetch`, `RegistryExact` | `RegistryFetch` |
| module list in `main.go` | `MarkerText`, `MainFileLaws`, `MainFileExact`, `Ordering` | `MainFile`, `Ordering` |
| departments | `Departments`, `DepartmentDepth`, `DepartmentTree`, `Hops` | `Departments`, `DepartmentTree` |
| module registration | `ModuleRegistry`, `Names` | `ModuleRegistry` |

What is assumed:

- One SQL statement is atomic; so is one transaction of the role, department and install endpoints, which run one after
  another. Token requests, cache reads and status changes interleave freely, statement by statement.
- Hashes, tokens, families and other random values are opaque, and a value drawn twice counts as a failed insertion.
  Hashing is injective: a PKCE challenge is either the digest of one verifier or of none.
- Time is a natural number that only moves forward. Membership, session and tenant-status answers, the clock, server
  answers and failures of writes are parameters.
- Signature verification and JSON decoding are parameter functions; only their results matter.
- Strings are sequences of characters; the lengths that the source counts in bytes are counted in characters.
- The permission that an endpoint itself requires (such as `core.roles.manage`) is not modelled, so the theorems about
  delegation hold even for callers who would be stopped earlier.
- A client id belongs to one tenant for good. Clients are registered, changed and deleted at any time. The grants a
  request uses are fresh or, from the cache, those of an earlier state.
- Two spellings of one id differ in letter case only; that a request's id has the shape of one is checked before.
- A role's `implies` never changes after creation, and no endpoint deletes a role.

## What the code does not promise

Stronger statements that fail, each with the exact condition among the lemmas:

- Revoking a family, detecting a replay, or deleting the client does not stop a request in flight: tokens of the family
  can come alive later exactly when there is one (`RevokeKills`, `ReplayKills`, `DeletionKills`).
- The upgrade gate compares with the manifest copy of the last completed upgrade. If that copy is missing or unreadable
  nothing is compared (`GateExact`); the copy step removes the old copy first, so it can be lost half-way. A version
  named on the command line is built without its manifest being looked at (`GateBlindToBuilt`).
- Status changes and upgrades write the row and the log entry separately. A stop in between leaves the log behind
  (`UnloggedStatus`, `UnloggedUpgrade`). Overlapping changes do, depending on the order of the entries and on what they
  say (`OverlappingStatuses`, `OverlappingUpgrades`, `InstallOverStatus`, `InstallOverUpgrade`); a status change and an
  upgrade of one installation never disturb each other (`ReplayIsCurrent`). `AgreesExactly` gives the condition for all
  runs.
- A cache read in flight may store an old value after an invalidation, or after the time limit
  (`FreshAfterInvalidation`, `FreshAfterTtl`).
- The module list survives writing and reading only for paths that quoting leaves alone (`RoundTrip`).
- The department check compares the id in the request as text, while the database spells ids in lower case. A move in
  which one of the two ids is in upper case can hang a department under itself or below itself (`OtherCase`); it is safe for
  exactly the spellings that `SpellingExact` names, and over a run exactly as `RunExact` says.
- The department walk bounds the ancestors of the department written, not of those below it (`MoveKeepsShallow`,
  `RunShallow`, `TooDeep`), and the page lists only departments within the bound (`FlattenExact`, `FlattenComplete`).

Where comments and code differ the code is followed: `permissionsWidened` is described as noticing a change from own to
all, and does so by comparing the default strings themselves.

## Model

| member | source | states |
|---|---|---|
| `Scopes.ScopeSubset` | backend/internal/core/oidc/provider.go:264-275 | the test for a stored consent holds exactly when every word asked for is a word granted |
| `Scopes.AllowsScope` | backend/internal/core/oidc/provider.go:137-148 | a client allows a scope exactly when every word but `offline_access` is registered with it |
| `Scopes.HasWordIsField` | backend/internal/core/oidc/provider.go:558-559 | the padded substring test for a word finds only words that splitting the scope also finds |
| `Scopes.HasWordExact` | backend/internal/core/oidc/provider.go:558-559 | the word test holds exactly when the word stands in the scope between its ends or plain spaces |
| `Scopes.WordsExact` | backend/internal/core/oidc/provider.go:137-148 | the words of a scope are exactly its longest stretches without white space |
| `TokenInvariants.RunKeeps` | backend/internal/core/oidc/provider.go:451-567 | every run of statements of any number of concurrent requests keeps the family invariant: one holder, at most one live token of each kind, no live refresh token while a rotation holds the family, one filling of each place in a family |
| `TokenFamilies.OneTicketPerFamily` | backend/internal/core/oidc/provider.go:492-531 | in every interleaving, live refresh tokens plus requests that may still insert one are at most one for a family, and so are live access tokens |
| `TokenFamilies.OneSuccessor` | backend/internal/core/oidc/provider.go:492-567 | two tokens of one kind obtained with the same refresh token, or from the same start of a family, are the same token |
| `TokenFamilies.DeadForever` | backend/internal/core/oidc/provider.go:498-531 | a family with no live token and no request holding it stays so in every later run, and none of its access tokens is ever accepted again |
| `TokenFamilies.RevokeKills` | backend/internal/core/oidc/provider.go:697-710 | after revocation by the owning client, no token of the family is live in any later run, whoever does what, if and only if no rotation of it is in flight |
| `TokenFamilies.RevokeByOthers` | backend/internal/core/oidc/provider.go:697-710 | revocation by any other client changes nothing |
| `TokenFamilies.DeletionKills` | backend/db/migrations/00014_oidc.sql:85-95 | deleting a client takes its tokens away; no token of one of its families is live in any later run if and only if no request of the family is in flight at the deletion |
| `TokenFamilies.ReplayKills` | backend/internal/core/oidc/provider.go:498-515 | a refresh token that is not claimed and turns out revoked at the lookup: whatever happens between the three statements of the replay path, no token of the family is live in any later run if and only if no request holds it at the last one |
| `TokenFamilies.HolderRevives` | backend/internal/core/oidc/provider.go:516-567 | a rotation in flight always has a way to end with a live token of the family: the half of `RevokeKills` and `ReplayKills` that makes their condition necessary |
| `TokenFamilies.FamilyStaysRun` | backend/internal/core/oidc/provider.go:526-565 | client, tenant, user and scope of a family never change in any run: rotation cannot widen a scope |
| `TokenProvenance.TokenProvenance` | backend/internal/core/oidc/provider.go:451-477 | every token row agrees with its family; a user token has a scope its user consented to for that client earlier; a family begun by a code was begun by the code's own client, with its redirect URI and a verifier whose digest is its challenge (section 4.1.3 of RFC 6749, section 4.6 of RFC 7636) |
| `TokenProvenance.CodeStartsOneFamily` | backend/internal/core/oidc/provider.go:456-463 | a code starts at most one family over any run |
| `TokenProvenance.RefreshNeedsConsent` | backend/internal/core/oidc/provider.go:557-567 | a refresh token exists only where its user consented to `offline_access` for its client |
| `TokenProvenance.PresentingBurns` | backend/internal/core/oidc/provider.go:451-477 | presenting an unexpired code removes it at once; a wrong client, redirect URI or verifier burns it without starting anything |
| `TokenProvenance.BurntForever` | backend/internal/core/oidc/provider.go:456-477 | a burnt code never starts a family in any later run |
| `TokenLifetimes.TokenLifetime` | backend/internal/core/oidc/provider.go:549-565 | once its lifetime has passed since any moment it was stored, an access token is not accepted and a refresh token cannot be claimed, whatever happened in between |
| `TokenLifetimes.CodeLifetime` | backend/internal/core/oidc/provider.go:381-390 | once five minutes have passed since any moment a code was stored, presenting it does nothing, whatever happened in between |
| `TokenFrames.TokenFrame` | backend/internal/core/oidc/provider.go:498-515 | every step leaves a token row as it is but for exactly these: its claim, a sweep, replay or revocation of its own family by its own client, the purge a day after its end, the deletion of its client |
| `TokenFrames.AcceptedForLifetime` | backend/internal/core/oidc/provider.go:549-565 | a token just written is accepted (access) or can be claimed by its client alone (refresh) for exactly an hour or thirty days in every later run that neither revokes nor deletes it |
| `TokenFrames.WrittenToken` | backend/internal/core/oidc/provider.go:549-565 | what a token row is when written: family, client, tenant, user, scope and end |
| `TokenFrames.WrittenCode` | backend/internal/core/oidc/provider.go:377-390 | what a code is when issued: what was asked for, good for five minutes |
| `TokenFrames.CodeFrame` | backend/internal/core/oidc/provider.go:456-463 | every step leaves a code as it is but for its presentation with a well-shaped verifier, its purge once expired, and the deletion of its client |
| `TokenFrames.DeletedClient` | backend/db/migrations/00014_oidc.sql:85-95 | deleting a client takes its consents and leaves other clients and their consents |
| `TokenHandlers.Provider.Authorize` | backend/internal/core/oidc/provider.go:224-262 | the handler is a run of the step machine with arbitrary steps of others between its statements; for a code value not drawn by anybody else, a code is given if and only if the request is acceptable and a member's stored consent covers the scope; it carries exactly what was asked for, and a refusal writes nothing |
| `TokenHandlers.Provider.Approve` | backend/internal/core/oidc/provider.go:323-368 | likewise for consenting: an acceptable approval by a member, and only that, stores the consent and gives a code; the consent stays on record and stays the stored one until this user approves something else for this client or the client is deleted |
| `TokenHandlers.Provider.GrantCode` | backend/internal/core/oidc/provider.go:451-477 | likewise for redeeming, with the exact answer: invalid request for a badly shaped verifier, invalid grant unless the code is there, unexpired and of this client, redirect URI and verifier, else tokens, unless a drawn value was drawn before; they are the first of the new family, and a refresh token comes exactly with `offline_access` |
| `TokenHandlers.Provider.GrantRefresh` | backend/internal/core/oidc/provider.go:479-532 | likewise for refreshing, with the exact answer: tokens if and only if the presented row is a live refresh token of this client and its owner still active; a token found revoked makes exactly the steps of the replay path, after which no token of its family is ever live again if and only if no request holds the family |
| `TokenHandlers.Provider.ReplayPath` | backend/internal/core/oidc/provider.go:498-515 | looks the token up and, exactly when it is a revoked refresh token of this client, revokes its family |
| `TokenHandlers.Provider.Respond` | backend/internal/core/oidc/provider.go:538-596 | access token first, refresh token second; each token sent was inserted into the place the ticket names and is still on record there; a failure answers with an error and ends the request |
| `TokenHandlers.Provider.GrantCredentials` | backend/internal/core/oidc/provider.go:432-445 | client credentials: refused for a public client, invalid scope unless every word but `offline_access` is registered, else one access token of a new family without user; no scope asked for means `tenant` |
| `TokenHandlers.Provider.RevokeToken` | backend/internal/core/oidc/provider.go:697-710 | one statement, the revocation step of the machine; a link that makes `RevokeKills` and `RevokeByOthers` speak of the handler |
| `TokenHandlers.Provider.LookupAccess` | backend/internal/core/oidc/provider.go:635-645 | a token is accepted exactly when it is an access token, unrevoked, unexpired, and its owner active |
| `Grants.FoldRows` | backend/internal/core/rbac/rbac.go:100-111 | for every order of rows, what is folded covers exactly what the rows cover, all above own |
| `Rbac.ChainExact` | backend/internal/core/rbac/rbac.go:78-90 | the recursive query reaches exactly the roles within the hop bound over existing (and, if asked, active) roles |
| `Rbac.EffectiveExact` | backend/internal/core/rbac/rbac.go:61-111 | a user's grants are the join of the grants of all active roles reached in at most five hops from the roles assigned |
| `DelegationStore.ChainQuery` | backend/internal/core/handlers/rbac.go:106-112 | the round-by-round query collects exactly the union of the chains of its starting roles |
| `DelegationStore.Store.UserGrants` | backend/internal/core/rbac/rbac.go:61-111 | query, rows in any order and fold give exactly the effective grants of the user |
| `DelegationStore.Dedupe` | backend/internal/core/handlers/rbac.go:90-100 | the slice compacted in place holds each code once, in first-seen order |
| `DelegationStore.FirstsOrder` | backend/internal/core/handlers/rbac.go:90-100 | of two codes kept, the one kept first had occurred before the other first did |
| `DelegationStore.Store.RoleWithinGrants` | backend/internal/core/handlers/rbac.go:104-130 | succeeds exactly when everything the unfiltered chain of the role gives is covered |
| `DelegationStore.Store.AssignRoles` | backend/internal/core/handlers/rbac.go:36-77 | succeeds exactly when at most 32 codes are given, each names a role, and every role given or taken away is within the caller's grants; then the member has exactly those roles |
| `DelegationStore.Store.CreateRole` | backend/internal/core/handlers/rbac.go:220-273 | outcome and tables equal the specification for fresh and for cached grants of the caller, error cases included: a new role implying itself is a server error |
| `DelegationStore.Store.SetGrants` | backend/internal/core/handlers/rbac.go:276-396 | outcome and tables equal the specification for every iteration order of both maps; a refused request leaves the tables as they were |
| `DelegationStore.Store.AddMember` | backend/internal/core/handlers/rbac.go:493-589 | outcome and tables equal the specification, the refusals before the transaction included; no roles asked for means `user`; an existing member is a conflict |
| `DelegationStore.Store.SetMemberRoles` | backend/internal/core/handlers/rbac.go:592-655 | outcome and tables equal the specification; taking the last admin away is refused and rolled back |
| `DelegationStore.Store.RemoveMember` | backend/internal/core/handlers/rbac.go:658-726 | outcome and tables equal the specification; the caller cannot remove itself nor the last admin |
| `DelegationExact.SetGrantsExact` | backend/internal/core/handlers/rbac.go:276-396 | the exact answers, in the texts of the request: done if and only if at most 256 permissions are asked for an existing role other than admin, everything taken or narrowed and everything given or widened is held by the caller, each code is known, and `own` is asked only where supported; nothing else changes |
| `DelegationExact.GrantsWritten` | backend/internal/core/handlers/rbac.go:347-373 | a role whose grants were set has exactly the permissions asked for, each for own rows if and only if the text asked for is `own` |
| `DelegationExact.CreateExact` | backend/internal/core/handlers/rbac.go:220-273 | the exact answers of creating a role; what is written is active, without grants, and implies what was asked |
| `DelegationExact.AddExact` | backend/internal/core/handlers/rbac.go:493-589 | the exact answers of adding a member; whoever asks for no roles gets `user`; all others stay |
| `DelegationExact.SetRolesExact` | backend/internal/core/handlers/rbac.go:592-655 | the exact answers of replacing a member's roles: what is given and taken is within the caller's grants and an admin stays |
| `DelegationExact.RemoveExact` | backend/internal/core/handlers/rbac.go:658-726 | the exact answers of removing a member: everything it has is within the caller's grants, it is not the caller, and an admin stays |
| `Delegation.WithinBounds` | backend/internal/core/handlers/rbac.go:104-136 | what is checked on the unfiltered chain bounds what assigning the role contributes |
| `Delegation.ImplyingBounds` | backend/internal/core/handlers/rbac.go:241-256 | it also bounds what a new role implying the checked role will contribute |
| `Delegation.CreateKeeps` | backend/internal/core/handlers/rbac.go:241-256 | creating a role changes nobody's effective grants |
| `Delegation.SetGrantsFrame` | backend/internal/core/handlers/rbac.go:313-376 | a SetGrants changes any user's effective grants only inside what the caller holds, in both directions |
| `Delegation.SetRolesFrame` | backend/internal/core/handlers/rbac.go:45-63 | a successful SetMemberRoles means the target held, and now holds, no more than the caller |
| `Delegation.AddFrame` | backend/internal/core/handlers/rbac.go:553-568 | a new member holds no more than the caller; all others hold what they held |
| `Delegation.RemoveFrame` | backend/internal/core/handlers/rbac.go:672-705 | a removed member held no more than the caller, holds nothing afterwards and was not the caller; all others hold what they held |
| `Delegation.Confinement` | backend/internal/core/handlers/rbac.go:36-136 | over whole runs: if only members of a coalition act, each with what it effectively held at any moment since it joined (the permission cache may answer from an earlier state), the coalition together with everyone it ever added never holds, jointly, more than it held jointly at the start |
| `Delegation.AdminForever` | backend/internal/core/handlers/rbac.go:405-414 | every run of requests, whatever their callers are found to hold, keeps a member with the admin role, an acyclic role graph and the admin role itself unchanged |
| `Delegation.AdminHolds` | backend/internal/core/rbac/rbac.go:78-90 | through the query over active roles, a member with the admin role effectively holds what that role is granted |
| `Seed.DefaultForms` | backend/internal/core/rbac/seed.go:61-68 | the forms of a default: bare role gives all, `role:own` gives own where supported, any other suffix gives all |
| `Seed.GivesExact` | backend/internal/core/rbac/seed.go:46-75 | a permission goes to the admin role for all rows and to exactly the roles its defaults name |
| `Seed.Grant` | backend/internal/core/rbac/seed.go:47-56 | one upsert joins: nothing for a role that does not exist, all is never narrowed |
| `Seed.GrantOnInstall` | backend/internal/core/rbac/seed.go:46-75 | row by row, the upserts join every role with what the definitions declare for it, and all for admin |
| `Seed.InstallsCommute` | backend/internal/core/rbac/seed.go:46-75 | two installs in either order are one install of both lists |
| `Seed.InstallUnordered` | backend/internal/core/rbac/seed.go:46-75 | order and multiplicity of the definitions do not matter; repeating an install changes nothing |
| `Seed.SeedTenantRoles` | backend/internal/core/rbac/seed.go:14-39 | the three default roles, admin implying manager implying user |
| `Seed.SeededExact` | backend/internal/core/rbac/seed.go:14-39 | the three roles, written out |
| `Seed.CoreExact` | backend/internal/core/rbac/core.go:8-24 | the six core permissions, written out |
| `Seed.CreateTenant` | backend/internal/core/handlers/auth.go:143-185 | a new tenant has its owner as the one admin and the core defaults granted |
| `Seed.NewTenantSafe` | backend/internal/core/handlers/auth.go:165-183 | a new tenant has an admin and an acyclic role graph: the run theorems apply from creation on |
| `Seed.LiveSafe` | backend/internal/core/appstore/appstore.go:313-335 | in every run of requests, installs and backfills an admin stays and the admin role never loses a grant |
| `Seed.InstalledStaysHeld` | backend/internal/core/appstore/appstore.go:324-326 | after an install, in every later state some member holds each installed permission for all rows |
| `Seed.TenantNeverLocked` | backend/internal/core/handlers/auth.go:180-183 | from creation on, in every run, some member holds every core permission for all rows |
| `Upgrade.PermissionsWidened` | backend/cmd/nexus/main.go:573-604 | reports exactly the new codes and the new default roles of known codes, and nothing without a readable earlier manifest |
| `Upgrade.WidensExact` | backend/cmd/nexus/main.go:586-602 | a code is reported as new exactly when no old definition has it; a default role exactly when the last old definition of its code lacks it |
| `Upgrade.NothingReported` | backend/cmd/nexus/main.go:586-602 | if nothing is reported and the new manifest follows Register's own-scope rule, it declares for every role no more than the old one |
| `Upgrade.Distribution.UpgradeModule` | backend/cmd/nexus/main.go:456-491 | one upgrade target is the specified step: refused exactly when something is reported on the compared manifest and not approved; each way of stopping half-way leaves the files it leaves; what is built may be another version |
| `Upgrade.UpgradesBacked` | backend/cmd/nexus/main.go:467-471 | over any run of upgrades and failures, what is built in declares no more than some approved manifest, as long as every unapproved upgrade found a manifest to compare with and nothing built declared more than what was compared |
| `Upgrade.UpgradesWithinLast` | backend/cmd/nexus/main.go:467-471 | if every upgrade either fails to fetch or completes, and builds no more than it compares, the bound is the manifest approved last |
| `Upgrade.GateExact` | backend/cmd/nexus/main.go:573-581 | for upgrades that build what they compare, the gate bounds what it lets through if and only if the earlier manifest is readable; without it a new code passes unreported |
| `Upgrade.GateBlindToBuilt` | backend/cmd/nexus/main.go:456-483 | a named version is built unseen: whenever the gate lets a compared manifest through, it does so for some built manifest that declares more than anybody approved |
| `Resolve.ResolveOrder` | backend/internal/core/appstore/appstore.go:345-374 | terminates; succeeds exactly when everything the target reaches is present and on no cycle; the order is then exactly the reachable modules, each once, dependencies first, target last |
| `Resolve.Resolver.Visit` | backend/internal/core/appstore/appstore.go:349-369 | the recursive visit with shared marks: on success the module and what it reaches are in the order and the callers' marks are as before, on failure something reached is missing or on a cycle |
| `Resolve.OrderResolves` | backend/internal/core/appstore/appstore.go:345-374 | a duplicate-free, dependency-first order with the target proves the target resolvable and holds all it reaches |
| `Install.InstallApp` | backend/internal/core/appstore/appstore.go:288-341 | succeeds exactly when the app is compiled in and resolves; then everything it reaches is enabled at the compiled version, logged once and in dependency order, with all permissions granted to admin, and no other installation is touched; otherwise nothing changes; the two kinds of unknown app are told apart |
| `Install.InstallOrder` | backend/internal/core/appstore/appstore.go:313-335 | the transaction loop writes exactly the install step and the joined default grants of the whole order |
| `Install.DepsExact` | backend/internal/core/appstore/appstore.go:345-374 | the graph resolved is the one the modules declare |
| `Install.AllPermsExact` | backend/internal/core/appstore/appstore.go:313-335 | the permissions granted are exactly those of the modules installed |
| `History.ReplayIsCurrent` | backend/internal/core/appstore/appstore.go:313-335 | over any run in which nothing owed to the log is given up, changes of one kind of one installation wait for each other and installs wait for both, replaying the log gives the current status and version wherever nothing is owed, and every upgrade entry starts from the version the log had arrived at; status changes and upgrades of one installation may overlap |
| `History.RunAgrees` | backend/internal/core/appstore/appstore.go:377-397 | the invariant behind it: for every installation the log gives each half of the row (version, status) of which nothing is owed, and what is owed says what its change did |
| `History.AgreesExactly` | backend/internal/core/appstore/appstore.go:162-397 | over any run at all, whatever overlaps, stops or is still owed: each half (version, status) of an installation agrees with the log if and only if the last entry about it says what the last change of the row put there |
| `History.UnloggedStatus` | backend/internal/core/appstore/appstore.go:377-397 | a status change that stops before logging: until the next install or status change of the installation, whatever else runs, the log is wrong about its status if and only if the change changed something |
| `History.UnloggedUpgrade` | backend/internal/core/appstore/appstore.go:162-189 | an upgrade that stops before logging a changed installation: until its next install or upgrade, whatever else runs, the log is wrong about its version |
| `History.OverlappingStatuses` | backend/internal/core/appstore/appstore.go:377-397 | two overlapping status changes of one installation: log and row agree in the end if and only if the entries are logged in the order of the row changes or say the same |
| `History.OverlappingUpgrades` | backend/internal/core/appstore/appstore.go:162-189 | two overlapping upgrades of one installation: log and row agree in the end, and every upgrade entry starts where the log stands, if and only if the entries are logged in the order of the row changes |
| `History.InstallOverStatus` | backend/internal/core/appstore/appstore.go:313-397 | an install while a status change is still to be logged: log and row agree in the end if and only if that change was to enabled |
| `History.InstallOverUpgrade` | backend/internal/core/appstore/appstore.go:162-335 | an install while an upgrade is still to be logged: the log arrives at the row if and only if the installed version is the one upgraded to, and the upgrade entry starts where the log stands if and only if it is the one upgraded from; one of the two is always lost |
| `History.SyncedVersion` | backend/internal/core/appstore/appstore.go:162-169 | after the upgrade statement, and while only binaries of that version run, every installation of the module is at the compiled version |
| `HistoryStore.Tables.SetStatus` | backend/internal/core/appstore/appstore.go:377-397 | row first, entry second, not found when there is no row; only the status changes, and the entry names it; left alone it keeps the agreement |
| `HistoryStore.Tables.RaiseVersions` | backend/internal/core/appstore/appstore.go:162-169 | the statement returns exactly the rows it changed, each once, with their old versions, in any order |
| `HistoryStore.Tables.SyncModule` | backend/internal/core/appstore/appstore.go:162-189 | every installation of the module is at the compiled version, enabled or not as before, the others as before; each changed one gets exactly one upgrade entry, from its old version; the agreement is kept |
| `Caches.ServedIsTrue` | backend/internal/core/rbac/rbac.go:61-127 | under any interleaving of lookups, reads, writes, invalidations and lost messages over any number of processes, a served value was the database's in a version no later than the one current when it was stored, it was stored less than the time limit ago, and no cache exceeds 10000 entries |
| `Caches.FreshAfterInvalidation` | backend/internal/core/rbac/rbac.go:41-59 | after an invalidation no later answer for a dropped key is older than it if and only if no read of the key that had asked the database earlier was in flight |
| `Caches.FreshAfterTtl` | backend/internal/core/bus/bus.go:6-8 | with every message lost, once the time limit has passed no answer for a key is older than the version current at its start if and only if no read of the key that had asked the database earlier was in flight then |
| `Caches.OwnTenantOnly` | backend/internal/core/appstore/appstore.go:454-462 | dropping by the prefix `tenant:` drops that tenant's keys and no other's |
| `Caches.DroppingExact` | backend/internal/core/appstore/appstore.go:454-462 | an invalidation of grants or gate drops exactly the keys that start with the tenant and a colon, one of tenant states exactly the tenant's key, and the rest stays as it is |
| `Caches.StoringExact` | backend/internal/core/rbac/rbac.go:118-126 | storing keeps the other entries while there is room and empties a full cache |
| `Caches.ServedForTtl` | backend/internal/core/rbac/rbac.go:61-72 | an answer just stored is served for exactly the time limit, 30 seconds for grants and tenant states and 15 for the gate; a lookup that is not served goes to the database |
| `CacheStore.Store.Lookup` | backend/internal/core/appstore/appstore.go:420-427 | the locked lookup answers exactly what the machine serves |
| `CacheStore.Store.Keep` | backend/internal/core/appstore/appstore.go:436-441 | the locked store is the machine's store step, clearing a full cache first |
| `CacheStore.Store.InvalidateLocal` | backend/internal/core/tenantstate/tenantstate.go:75-79 | by prefix in any key order, or by exact key, what is left is what the machine's invalidation leaves |
| `RegistryFetch.Validate` | backend/pkg/registry/registry.go:187-199 | an index is accepted exactly when every manifest is valid and no id or short id repeats |
| `RegistryExact.ManifestExact` | backend/pkg/registry/registry.go:156-184 | what a valid manifest is, field by field, character by character |
| `RegistryFetch.CodesSeparate` | backend/pkg/registry/registry.go:173-177 | in a valid index no two apps declare the same permission code |
| `RegistryFetch.CacheDir.Fetch` | backend/pkg/registry/registry.go:269-308 | answer and files equal the specified outcome for every server answer, clock and write failure |
| `RegistryFetch.FetchSafe` | backend/pkg/registry/registry.go:273-307 | an index returned, even beside an error, is signed and valid and not older than the cached one; the cache never goes back |
| `RegistryFetch.FetchFallsBack` | backend/pkg/registry/registry.go:278-303 | with a good cached index a call returns none exactly when what the server offers is signed, valid and dated more than an hour ahead; every error leaves the files alone; an unreachable server means the cached index without an error |
| `RegistryExact.TakenOffer` | backend/pkg/registry/registry.go:301-307 | a signed, valid offer, dated at most an hour ahead and not older than the kept index, is the answer without error, and its body, signature and tag are the files |
| `RegistryExact.RefusedOffer` | backend/pkg/registry/registry.go:286-303 | the exact answer for a bad signature, a bad index, a date ahead and a date behind: the kept index beside the error, but nothing for a date ahead; the files stay |
| `RegistryExact.WithoutOffer` | backend/pkg/registry/registry.go:269-285 | the exact answer without keys and without a usable download |
| `RegistryExact.NewIndexArrives` | backend/pkg/registry/registry.go:301-307 | a good newer index delivered in full reaches caller and files, and the next call that gets no answer returns it |
| `RegistryFetch.CacheNeverGoesBack` | backend/pkg/registry/registry.go:301-306 | over any run the cached `generated_at` never decreases |
| `RegistryFetch.NoRollback` | backend/pkg/registry/registry.go:301-306 | no call of a run returns an index older than one returned by an earlier call that could write |
| `RegistryFetch.TagAlwaysFits` | backend/pkg/registry/registry.go:304-306 | over any run a stored tag came in the same answer as the stored bytes |
| `RegistryFetch.NotModifiedIsFull` | backend/pkg/registry/registry.go:350-356 | after any run, a 304 to the stored tag leads to the same answer and leaves the same bytes and tag as a full download of what the tag names |
| `MainFile.File.Write` | backend/cmd/nexus/main.go:222-248 | the file is rewritten from the sorted ids exactly when both blocks are found, else left alone |
| `MainFile.File.Read` | backend/cmd/nexus/main.go:264-280 | the listing read between the import markers: matches left to right, later ones replacing earlier, with both failure cases |
| `MainFileExact.MatchExact` | backend/cmd/nexus/main.go:274-279 | the expression matches exactly at mod_, a name, a space and a quoted path, in one way |
| `MainFileExact.CollectedExact` | backend/cmd/nexus/main.go:274-279 | a name is listed with the path of its last match |
| `MainFileExact.ReadExact` | backend/cmd/nexus/main.go:264-273 | when there is nothing to read, and when slicing between the markers stops the program |
| `MainFileExact.QuotedStandsFor` | backend/cmd/nexus/main.go:234-237 | whatever the path, the string literal written for it stands for it |
| `MainFileLaws.RoundTrip` | backend/cmd/nexus/main.go:218-280 | for valid short ids and paths in which no slash is followed by a space, reading after writing gives back the map if and only if every path is non-empty and has only characters that quoting leaves alone |
| `MainFileLaws.WriteKeepsOutside` | backend/cmd/nexus/main.go:250-261 | writing a well-laid file succeeds, leaves the text outside the two blocks unchanged and the file well laid |
| `MainFileLaws.LastWriteWins` | backend/cmd/nexus/main.go:222-261 | writing m2 after m1 gives the file that writing m2 alone gives |
| `MainFileLaws.BothBlocks` | backend/cmd/nexus/main.go:228-248 | in a well-laid file, for valid short ids, between its markers one import line and one constructed module for each id, both under the alias mod_ and the id, each once and in increasing order |
| `MainFileLaws.ReadBlock` | backend/cmd/nexus/main.go:274-279 | the regular expression finds in a written block exactly the entries written, in order |
| `MarkerText.OccursInFilled` | backend/cmd/nexus/main.go:250-261 | a marker occurs in the rewritten text exactly where it occurred outside the replaced part |
| `Ordering.Sort` | backend/cmd/nexus/main.go:228-232 | the ids come out each once and increasing, whatever the map order |
| `Departments.WalkExact` | backend/apps/organisation/departments.go:50-69 | the bounded walk accepts a parent exactly when a root stands fewer than 32 steps above it and nothing met on the way is spelled like the node: the first comparison is with the text of the request, later ones with ids as the database spells them |
| `Departments.CheckParent` | backend/apps/organisation/departments.go:46-70 | the loop, with its cast at each lookup and its comparison of texts, gives the verdict of the walk |
| `Departments.RefusedParent` | backend/apps/organisation/departments.go:46-70 | when exactly an existing parent is refused: it is spelled like the node, the node as spelled in the request is met within 32 nodes, or the walk up is too long |
| `Departments.ApplyKeeps` | backend/apps/organisation/departments.go:82-131 | one well-spelled create, update or delete keeps the graph acyclic and closed, and a department just written has at most 32 ancestors |
| `Departments.RunKeeps` | backend/apps/organisation/departments.go:72-188 | every sequence of well-spelled creates, updates and deletes keeps the parent graph acyclic and closed in every state |
| `Departments.MoveExact` | backend/apps/organisation/departments.go:98-131 | hanging a department under another keeps the forest if and only if it is not on the walk up from the new parent |
| `Departments.RunExact` | backend/apps/organisation/departments.go:72-188 | a run, however its ids are spelled, is a forest throughout if and only if no accepted move of it hangs a department under itself or one below it |
| `Departments.SpellingExact` | backend/apps/organisation/departments.go:46-70 | for a pair of request texts, every accepted move in every forest leaves a forest if and only if two texts for one id are the same text and otherwise the id of the department is spelled in lower case |
| `Departments.OtherCase` | backend/pkg/nexus/web.go:43-60 | ids are accepted in either case: three requests from an empty table, the last with its id in upper case, end with a cycle of two departments |
| `Departments.CreateExact` | backend/apps/organisation/departments.go:72-96 | the exact answers of creating a department, and what is written |
| `Departments.UpdateExact` | backend/apps/organisation/departments.go:98-137 | the exact answers of changing a department, and what is written |
| `Departments.DeleteExact` | backend/apps/organisation/departments.go:170-188 | the row goes, its children become roots, every other department keeps its parent |
| `DepartmentDepth.MoveKeepsShallow` | backend/apps/organisation/departments.go:46-70 | a move that closes no cycle and passes the length check keeps every department at 32 ancestors or fewer if and only if every department below the moved one has room for the new parent's ancestors |
| `DepartmentDepth.ApplyShallow` | backend/apps/organisation/departments.go:72-188 | one request keeps that bound if and only if it is not an accepted move that closes a cycle or lacks room; creating, deleting and making a root always keep it |
| `DepartmentDepth.RunShallow` | backend/apps/organisation/departments.go:72-188 | the bound holds in every state of a run if and only if every accepted move of the run closed no cycle and had room |
| `DepartmentDepth.TooDeep` | backend/apps/organisation/departments.go:46-137 | a run of 35 requests from an empty table that ends with a department of 33 ancestors |
| `Departments.Table.CreateDepartment` | backend/apps/organisation/departments.go:72-96 | outcome and table equal the specification; a link that makes the run theorems speak of the handler |
| `Departments.Table.UpdateDepartment` | backend/apps/organisation/departments.go:98-137 | outcome and table equal the specification for ids in any spelling |
| `Departments.Table.DeleteDepartment` | backend/apps/organisation/departments.go:170-188 | the row goes and its children become roots; a link that makes `RunKeeps` and `RunShallow` speak of the handler |
| `DepartmentTree.Flatten` | backend/apps/organisation/ui/pages/departments/page.tsx:72-87 | the loop that files departments and the recursive walk over the shared map produce the specified layout |
| `DepartmentTree.FlattenExact` | backend/apps/organisation/ui/pages/departments/page.tsx:72-87 | for every list with distinct ids, cyclic or deep parents included: an entry is emitted if and only if its department is in the list and its depth, at most 32, is its number of ancestors by the parents the list gives; no entry twice, each below its parent without anything foreign in between, siblings in list order |
| `DepartmentTree.FlattenComplete` | backend/apps/organisation/ui/pages/departments/page.tsx:72-87 | every department of the list is emitted if and only if every one has at most 32 ancestors and is on no cycle; the others are dropped silently |
| `ModuleRegistry.Registry.Register` | backend/pkg/nexus/module.go:111-152 | a module is accepted exactly when it is well formed and shares no id or short id; the registry stays sound |
| `ModuleRegistry.GoodExact` | backend/pkg/nexus/module.go:111-149 | what is asked of a module on its own, field by field |
| `ModuleRegistry.Registry.Registered` | backend/pkg/nexus/module.go:155-160 | the same modules, each once, in the order of their ids |
| `ModuleRegistry.RegisterAllSound` | backend/pkg/nexus/module.go:129-133 | after any sequence of registrations ids and short ids are unique and every module well formed |
| `ModuleRegistry.CodesApart` | backend/pkg/nexus/module.go:134-142 | a permission code carries the prefix of one registered module only, and never the core's |
| `ModuleRegistry.MenuVisible` | backend/internal/core/handlers/misc.go:76-83 | the loop over grants finds a code with the prefix if there is one |
| `ModuleRegistry.MenuMatchesOwn` | backend/internal/core/handlers/misc.go:76-83 | for any grants, a module's menu is shown exactly when one of its own permissions is granted, or a leftover code with its prefix that no registered module declares any more |
| `ModuleRegistry.RegisteredOwnScope` | backend/pkg/nexus/module.go:143-149 | registered modules satisfy the own-scope rule the upgrade comparison relies on |

## Left out

- RoundTrip: says nothing about paths in which a slash is followed by a space, since such a path could contain a marker; no Go import path has one. Which characters beyond ASCII are printable is a parameter.
- WriteKeepsOutside: is about files that have both blocks, apart from each other; that the file made for a new distribution is such a file is not proved.
- NoRollback: needs the earlier call to have been able to write; without a cache directory there is no memory of it.
- NotModifiedIsFull: tags are taken as stored; trimming blanks when the tag file is read is not modelled.
- CodesApart: a code counts as the core's by its prefix; `CoreExact` lists the core's own six codes.
- ReplayIsCurrent: takes changes of one kind of one installation one after the other; what happens when they overlap is in the rows after it. The transaction of an install is one step.
- Keep: the two locks of one request are separate steps; what runs between them is the interleaving of the cache machine.
- Torn writes of the three cache files, a change of registry URL over one cache directory, and of the key set.
- UpgradesBacked: assumes that what is built declares no more than what is compared, which the command itself never checks.
- AddMember: the shapes of addresses and names, the password rules and the accounts themselves are outcomes of the checks before the transaction, given as a parameter; that an account created there stays when the transaction refuses is not modelled.
- The `go get`, `go list` and copy commands themselves, `modules.json`, `nexus init`, `nexus remove` and `nexus list`.
- Client authentication, ID tokens, user info, introspection, logout, signing keys and discovery documents.
- Query and form parsing of the OpenID Connect endpoints, nonces, states and the `prompt` page; the request arrives parsed.
- `RevokeOnUninstall`, which no endpoint calls, and the catalogue rows and releases that `Sync` writes; only its upgrade part and the backfill of default grants are modelled.
- SQL functions whose bodies enforce row-level security, audit chaining and lockout; audit records of the handlers.
- The early answer of `UserGrants` for an empty tenant or user id, and cloning of cached maps.
- The bus connection loop with its back-off; only that a message is delivered at most once.
- HTTP status codes beyond telling outcomes apart, rate limits, cookies, translations and all other pages of the interface.
