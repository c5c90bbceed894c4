# School system authentication and authorization core, in Dafny

This project models the security core of a multi-tenant school management API
(ASP.NET Core, one database per tenant plus a tenant catalog) and proves
properties of that model. Every `.dfy` file is part of one project: the modules
`import` each other and are verified together.

- **Permission catalog** (`Catalog`): the action and feature names, the
  `Permission.<Feature>.<Action>` naming scheme, the 20-entry catalog and its
  Root / Admin / Basic tiers.
- **Authorization** (`Auth`): the policy provider that turns a policy name
  starting with `Permission` (ignoring case) into a one-requirement policy, and
  the handler that succeeds exactly when the user carries a permission claim
  whose value is the requirement's name (ordinal comparison).
- **Claims** (`Claims`): the `ClaimsPrincipal` extension getters, over an
  ordered claim list searched the way `FindFirstValue` searches it (first
  claim whose type equals the wanted type ignoring case).
- **Token service** (`Tokens`): login (tenant active, user known, password,
  user active, subscription not lapsed, then issuance), refresh (expired
  access token accepted, e-mail claim, stored refresh token and expiry),
  issuance (a new refresh token valid one day written back to the user, an
  access token valid one hour carrying the user's claims) and the claim list
  (identity claims, role names, the user's own claims, role permission claims). JWT writing and
  validation and the password check are oracle parameters (`Collaborators`);
  the refresh token's Base64 encoding is modelled (`Base64`).
- **Seeding** (`AppSeeder`, `TenantSeeder`): the root tenant row, the default
  roles and their permission claims by tier, the per-tenant admin user, and
  the per-tenant loop over the tenant catalog.
- **Responses** (`Responses`): the response envelope, its `Fail`/`Success`
  factories and their completed-task variants, and `UnauthorizedException`.

Supporting modules: `Wrappers` (Option, Result), `Text` (ordinal and ASCII
case-insensitive comparisons), `Identity` (users, tenants, role claims, the
identity store and user lookups).

Names that come from configuration the model does not see (the permission and
tenant claim types, role names, the root tenant's id/name/e-mail, the default
admin password) are fields of `Identity.Constants`. Time is an integer count of
seconds; each operation receives one `now`.

## Model

| member | source | states |
|---|---|---|
| Catalog.NameFor | Infrastructure/Constants/PermissionConstants.cs:28 | a permission name starts with `Permission.` and is exactly prefix, feature, a dot and action long |
| Catalog.NameRoundTrip | Infrastructure/Constants/PermissionConstants.cs:27-28 | for a dot-free feature, splitting a built name at its dots gives back the feature and the action (the name determines its parts) |
| Catalog.NameForInjective | Infrastructure/Constants/PermissionConstants.cs:27-28 | two dot-free (feature, action) pairs build the same name only when they are the same pair |
| Catalog.CatalogNamesParse | Infrastructure/Constants/PermissionConstants.cs:27-62 | every catalog entry's name parses back to that entry's feature and action names |
| Catalog.ActionNameInjective | Infrastructure/Constants/PermissionConstants.cs:6-13 | distinct actions have distinct names |
| Catalog.FeatureNameInjective | Infrastructure/Constants/PermissionConstants.cs:15-23 | distinct features have distinct names |
| Catalog.ConstantsAreDotFree | Infrastructure/Constants/PermissionConstants.cs:6-23 | no action or feature name contains a dot, so names split unambiguously |
| Catalog.CatalogDistinct | Infrastructure/Constants/PermissionConstants.cs:36-62 | no two catalog entries share an (action, feature) pair, hence no two share a name |
| Catalog.TierNamesDistinct | Infrastructure/Constants/PermissionConstants.cs:36-74 | names are distinct within each tier, and no Root name is an Admin or Basic name |
| Catalog.TierSizes | Infrastructure/Constants/PermissionConstants.cs:36-74 | the catalog holds 20 entries: 4 Root (all on Tenants), 16 Admin, 1 Basic (Create Schools, also in Admin) |
| Catalog.RootIsTenantGroup | Infrastructure/Constants/PermissionConstants.cs:67-68 | the Root tier is exactly the four tenant entries |
| Catalog.AdminIsSystemGroups | Infrastructure/Constants/PermissionConstants.cs:70-71 | the Admin tier is exactly the non-tenant entries, in catalog order |
| Catalog.BasicIsCreateSchools | Infrastructure/Constants/PermissionConstants.cs:73-74 | the Basic tier is exactly the Create Schools entry |
| Catalog.RootAdminPartition | Infrastructure/Constants/PermissionConstants.cs:64-71 | Root followed by Admin is the catalog in order, and every entry is in exactly one of them |
| Catalog.WhereMembership | Infrastructure/Constants/PermissionConstants.cs:67-74 | an entry is in a filtered tier iff it is in the catalog and satisfies the tier's test |
| Catalog.WherePartition | Infrastructure/Constants/PermissionConstants.cs:67-71 | for any list, the Root and Admin filters together hold exactly its entries, as a multiset |
| Auth.GetPolicy | Infrastructure/Identity/Auth/PermissionPolicyProvider.cs:22-32 | a name starting with the permission claim constant, ignoring case, yields a policy whose one requirement names it; any other name gets the fallback provider's answer |
| Auth.GetFallbackPolicy | Infrastructure/Identity/Auth/PermissionPolicyProvider.cs:17-20 | there is never a fallback policy |
| Auth.GetDefaultPolicy | Infrastructure/Identity/Auth/PermissionPolicyProvider.cs:12-15 | the default policy is the default provider's |
| Auth.AnyPermissionClaim | Infrastructure/Identity/Auth/PermissionAuthorizationHandler.cs:11-14 | true iff some claim has the permission claim type and exactly the requirement's value |
| Auth.HandleRequirement | Infrastructure/Identity/Auth/PermissionAuthorizationHandler.cs:9-19 | the handler never fails explicitly; it succeeds iff the user holds the permission claim |
| Auth.RoutedPolicyNeedsExactClaim | Infrastructure/Identity/Auth/PermissionPolicyProvider.cs:22-28 | a routed policy is satisfied iff the user holds a permission claim whose value is exactly the policy name |
| Auth.HandlerMonotone | Infrastructure/Identity/Auth/PermissionAuthorizationHandler.cs:11-18 | adding claims never turns a success into a non-success |
| Auth.HandlerIgnoresOrder | Infrastructure/Identity/Auth/PermissionAuthorizationHandler.cs:11-18 | the outcome depends on the set of claims, not their order |
| Auth.WrongTypeDoesNotCount | Infrastructure/Identity/Auth/PermissionAuthorizationHandler.cs:12 | a claim carrying the right value under another type grants nothing |
| Auth.CreateDoesNotGrantRead | Infrastructure/Identity/Auth/PermissionAuthorizationHandler.cs:14 | holding Create Schools does not satisfy a requirement for Read Schools |
| Auth.LowerCaseNameRoutedButUnsatisfiable | Infrastructure/Identity/Auth/PermissionPolicyProvider.cs:24 | a lower-cased catalog name is routed to a permission policy, yet the claim with the catalog spelling `Permission.Schools.Read` does not satisfy it |
| Auth.CatalogNamesRouted | Infrastructure/Identity/Auth/PermissionPolicyProvider.cs:24-28 | every catalog name gets a permission policy, never the fallback |
| Claims.FindFirstValue | Infrastructure/Identity/ClaimPrincipalExtensions.cs:8-24 | none iff no claim has the type (ignoring case); otherwise the value of the first such claim |
| Claims.GetEmail | Infrastructure/Identity/ClaimPrincipalExtensions.cs:8-9 | the first e-mail claim's value, none when there is none |
| Claims.GetUserId | Infrastructure/Identity/ClaimPrincipalExtensions.cs:11-12 | the first name-identifier claim's value |
| Claims.GetTenant | Infrastructure/Identity/ClaimPrincipalExtensions.cs:14-15 | the first value of the configured tenant claim type |
| Claims.GetFistName | Infrastructure/Identity/ClaimPrincipalExtensions.cs:17-18 | the first name claim's value |
| Claims.GetLastName | Infrastructure/Identity/ClaimPrincipalExtensions.cs:20-21 | the first surname claim's value |
| Claims.GetPhoneNumber | Infrastructure/Identity/ClaimPrincipalExtensions.cs:23-24 | the first mobile-phone claim's value |
| Claims.EmptyEmailIsNotNull | Infrastructure/Identity/ClaimPrincipalExtensions.cs:8-9 | when the first e-mail claim, at any position, has an empty value, the e-mail is found as an empty string, not as absent |
| Identity.FindUser | Infrastructure/Identity/Tokens/TokenService.cs:31 | none iff no user matches the key; otherwise the first matching index |
| Identity.FindByName | Infrastructure/Identity/Tokens/TokenService.cs:31 | none iff no user's normalized name is the upper-cased user name; otherwise the first such user |
| Identity.FindByEmail | Infrastructure/Identity/Tokens/TokenService.cs:60 | none iff no user's normalized e-mail is the upper-cased e-mail; otherwise the first such user |
| Identity.FindUserAfterAppend | Infrastructure/Context/ApplicationDbSeeder.cs:120 | appending a user the key does not match leaves every lookup result unchanged |
| Identity.FindUserAfterUpdate | Infrastructure/Identity/Tokens/TokenService.cs:100-103 | updating a user without changing the looked-up field leaves every lookup result unchanged |
| Base64.Encode | Infrastructure/Identity/Tokens/TokenService.cs:173 | output length is four per started group of three bytes, all alphabet characters or padding |
| Base64.DecodeEncode | Infrastructure/Identity/Tokens/TokenService.cs:173 | decoding an encoding gives back the original bytes |
| Tokens.GenerateRefreshToken | Infrastructure/Identity/Tokens/TokenService.cs:167-174 | a refresh token is 44 characters and decodes back to the 32 random bytes |
| Tokens.CollectRoleClaims | Infrastructure/Identity/Tokens/TokenService.cs:146-154 | fails iff some role name has no role record; otherwise all role names as role claims followed by each role's claims in role order |
| Tokens.GetUserClaims | Infrastructure/Identity/Tokens/TokenService.cs:138-165 | fails iff a role is unresolvable; otherwise, in order: name identifier, e-mail, name, tenant and mobile phone (no surname claim), then role names, the user's own claims, and role permissions |
| Tokens.Issue | Infrastructure/Identity/Tokens/TokenService.cs:96-130 | succeeds iff roles resolve; then only the issuing user changes, gaining the new refresh token with a one-day expiry, and the access token carries the user's claims with a one-hour expiry |
| Tokens.LoginWith | Infrastructure/Identity/Tokens/TokenService.cs:22-50 | succeeds iff tenant active, user found, password check passes for the polarity, user active, subscription current and roles resolve; a success issues for that user |
| Tokens.Login | Infrastructure/Identity/Tokens/TokenService.cs:34-35 | as written: a successful login means the password check returned false |
| Tokens.LoginIntended | Infrastructure/Identity/Tokens/TokenService.cs:34-35 | corrected: a successful login means the password check returned true |
| Tokens.LoginFailsFast | Infrastructure/Identity/Tokens/TokenService.cs:27-46 | checks run in source order and each first failure yields its own message |
| Tokens.LoginRejectsCorrectPassword | Infrastructure/Identity/Tokens/TokenService.cs:34-35 | as written, a correct password is always rejected with "Incorrect credentials." |
| Tokens.LoginRefusesTheRightPassword | Infrastructure/Identity/Tokens/TokenService.cs:22-50 | a concrete store where the right password is refused and a wrong one accepted |
| Tokens.LoginIntendedAcceptsCorrectPassword | Infrastructure/Identity/Tokens/TokenService.cs:22-50 | with the corrected check, a known active user of an active current tenant with the right password and resolvable roles logs in |
| Tokens.SubscriptionWindow | Infrastructure/Identity/Tokens/TokenService.cs:42-46 | a non-root tenant is current iff `now` is not past its valid-up-to date; the root tenant is always current |
| Tokens.PresentedEmail | Infrastructure/Identity/Tokens/TokenService.cs:54-91 | an e-mail exactly when the JWT is present and non-empty, validates, was signed with HS256 (ignoring case) and carries an e-mail claim; then it is that claim's first value |
| Tokens.RefreshSubject | Infrastructure/Identity/Tokens/TokenService.cs:54-60 | a user exactly when the presented e-mail exists and some user's normalized e-mail is its upper-cased form; then the first such user |
| Tokens.Refresh | Infrastructure/Identity/Tokens/TokenService.cs:52-94 | succeeds iff a subject is found, its stored refresh token equals the presented one and has not expired, and its roles resolve; a success issues for that user |
| Tokens.RefreshRejections | Infrastructure/Identity/Tokens/TokenService.cs:54-66 | each failure cause yields its own rejection: missing or empty JWT, bad signature, wrong algorithm, no e-mail or unknown e-mail, refresh token mismatch or expired |
| Tokens.RefreshIgnoresTenantAndUserStatus | Infrastructure/Identity/Tokens/TokenService.cs:52-69 | refresh does not look at the tenant or the user's active flag: changing either gives the same decision |
| Tokens.RefreshSubjectAfterUpdate | Infrastructure/Identity/Tokens/TokenService.cs:60 | issuing to a user does not change who a refresh finds by e-mail |
| Tokens.IssuedStoreShape | Infrastructure/Identity/Tokens/TokenService.cs:100-103 | after issuance the user stores the issued refresh token, expiring one day after `now` |
| Tokens.RotationRejectsReplay | Infrastructure/Identity/Tokens/TokenService.cs:62-66 | once a new refresh token is issued, presenting the old one is refused |
| Tokens.IssuedPairRefreshes | Infrastructure/Identity/Tokens/TokenService.cs:52-111 | an issued access token and refresh token, presented before the refresh expiry, refresh successfully |
| Tokens.IssuedClaimsNameTheUser | Infrastructure/Identity/Tokens/TokenService.cs:156-158 | the issued claims give back the user's id and e-mail (empty when the user has none) |
| Tokens.IssuedClaimsNameTheTenant | Infrastructure/Identity/Tokens/TokenService.cs:156-161 | the issued claims give back the user's tenant |
| Tokens.TenantClaimAfterIdentity | Infrastructure/Identity/Tokens/TokenService.cs:156-161 | the tenant lookup skips the identity claims and finds the tenant claim |
| Tokens.IssuedClaimsGrantRolePermissions | Infrastructure/Identity/Tokens/TokenService.cs:146-164 | every permission claim of every role the user has passes the authorization handler on the issued claims |
| Tokens.IssuedClaimsLackSurname | Infrastructure/Identity/Tokens/TokenService.cs:156-164 | the surname getter finds nothing in an issued claim list unless a claim the user or a role carries supplies one |
| AppSeeder.NewClaims | Infrastructure/Context/ApplicationDbSeeder.cs:77-92 | every claim added was offered and not held in the snapshot, every offered claim not held is added, and never more are added than offered |
| AppSeeder.NewClaimsOrderAndRepeats | Infrastructure/Context/ApplicationDbSeeder.cs:79-92 | the additions are a subsequence of the offer (same order), and an un-held claim is added as many times as it is offered, a held one never |
| AppSeeder.StoredClaims | Infrastructure/Context/ApplicationDbSeeder.cs:83-90 | one role claim per catalog entry, in order, with the permission claim type, the entry's name as value, and its description and group |
| AppSeeder.AssignPermissions | Infrastructure/Context/ApplicationDbSeeder.cs:72-95 | the role keeps its claims, gains only offered claims it did not hold, and afterwards holds every offered claim |
| AppSeeder.AssignWhenHeld | Infrastructure/Context/ApplicationDbSeeder.cs:81 | when every offered claim is already held, nothing changes |
| AppSeeder.AssignIdempotent | Infrastructure/Context/ApplicationDbSeeder.cs:72-95 | assigning the same permissions twice equals assigning them once |
| AppSeeder.AssignKeepsNoDuplicates | Infrastructure/Context/ApplicationDbSeeder.cs:77-92 | a duplicate-free role stays duplicate-free when the offer is duplicate-free |
| AppSeeder.RepeatedClaimAddedTwice | Infrastructure/Context/ApplicationDbSeeder.cs:77-81 | a claim repeated in one offer is added twice, because the check uses the snapshot taken before the loop |
| AppSeeder.CatalogTiersWellFormed | Infrastructure/Context/ApplicationDbSeeder.cs:55-66 | the catalog's tiers, as role claims, are duplicate-free and root values never appear in the admin or basic tiers |
| AppSeeder.SeedRole | Infrastructure/Context/ApplicationDbSeeder.cs:41-68 | the role exists afterwards, other roles are untouched, and it holds (and gained only) its tier's claims |
| AppSeeder.InitializeDefaultRoles | Infrastructure/Context/ApplicationDbSeeder.cs:39-70 | every default role exists afterwards and holds its tier's claims; every role gained only granted claims |
| AppSeeder.SeedRoleWhenSaturated | Infrastructure/Context/ApplicationDbSeeder.cs:43-67 | seeding a role that already holds its tier changes nothing |
| AppSeeder.InitializeDefaultRolesIdempotent | Infrastructure/Context/ApplicationDbSeeder.cs:39-70 | seeding the default roles twice equals seeding them once |
| AppSeeder.NonRootTenantGetsNoRootClaims | Infrastructure/Context/ApplicationDbSeeder.cs:55-62 | outside the root tenant, the admin role receives no root-tier claim |
| AppSeeder.SeededRolesHoldTheirTiers | Infrastructure/Context/ApplicationDbSeeder.cs:55-67 | after seeding, admin holds the admin tier (and root tier in the root tenant) and basic holds the basic tier |
| AppSeeder.NewAdminUser | Infrastructure/Context/ApplicationDbSeeder.cs:105-119 | the created admin as `CreateAsync` stores it: id, user name, normalized name, first and last name, confirmed flags, password hash and active flag as the seeder sets them; e-mail and normalized e-mail set only in the corrected mode, since the library recomputes the normalized e-mail from the (null) e-mail; no roles or claims |
| AppSeeder.AddAdminRole | Infrastructure/Context/ApplicationDbSeeder.cs:123-126 | the user gains the admin role only if missing, all else unchanged |
| AppSeeder.SeedEmail | Infrastructure/Context/ApplicationDbSeeder.cs:99 | the admin step runs only for a tenant whose e-mail is present and non-empty |
| AppSeeder.InitializeAdminUserWith | Infrastructure/Context/ApplicationDbSeeder.cs:97-127 | skips without an e-mail; otherwise adds at most one user, changes no other user except to add the admin role, and the admin role is held by the user found by e-mail or by the appended user named by it |
| AppSeeder.AsWrittenAdminInvisibleByEmail | Infrastructure/Context/ApplicationDbSeeder.cs:105-120 | as written, admin seeding leaves every lookup by normalized e-mail (the one token refresh makes) answering as before: the created admin is never found by e-mail |
| AppSeeder.AdminSeedIdempotent | Infrastructure/Context/ApplicationDbSeeder.cs:101-126 | with the e-mail stored on the created user, a second run changes nothing |
| AppSeeder.AdminSeedCreatesAgain | Infrastructure/Context/ApplicationDbSeeder.cs:101-121 | as written, and with user creation assumed to succeed, a second run does not find the created admin and creates another |
| AppSeeder.SeedApplicationDb | Infrastructure/Context/ApplicationDbSeeder.cs:21-37 | nothing changes unless the database has migrations defined and is reachable; then every default role exists and holds its tier, and at most one user is added |
| AppSeeder.SeedApplicationDbIdempotent | Infrastructure/Context/ApplicationDbSeeder.cs:21-37 | with the corrected admin step, seeding twice equals seeding once |
| AppSeeder.SeedNonRootTenantHasNoRootClaims | Infrastructure/Context/ApplicationDbSeeder.cs:55-62 | seeding a non-root tenant's fresh store leaves no role holding a root-tier claim |
| AppSeeder.SeedRootTenantAdminHoldsRootClaims | Infrastructure/Context/ApplicationDbSeeder.cs:55-62 | seeding the root tenant gives the admin role every root-tier claim |
| TenantSeeder.RootTenant | Infrastructure/Tenancy/TenantDbSeeder.cs:31-41 | the root tenant row's id, identifier, name, e-mail, admin names, shared connection, active flag and validity |
| TenantSeeder.EnsureRootTenant | Infrastructure/Tenancy/TenantDbSeeder.cs:27-46 | a catalog with the root tenant is unchanged; otherwise the root row valid two years from now is appended; root present and ids unique afterwards |
| TenantSeeder.EnsureRootTenantIdempotent | Infrastructure/Tenancy/TenantDbSeeder.cs:29 | ensuring the root tenant twice equals ensuring it once |
| TenantSeeder.SeedEach | Infrastructure/Tenancy/TenantDbSeeder.cs:21-24 | every listed tenant's store is the seeding step applied to its previous store; stores of unlisted ids are untouched |
| TenantSeeder.InitializeDatabase | Infrastructure/Tenancy/TenantDbSeeder.cs:17-25 | the root tenant is ensured first, then every tenant's store is seeded once from its previous contents |
| TenantSeeder.RootClaimsOnlyForRoot | Infrastructure/Tenancy/TenantDbSeeder.cs:48-60 | a fresh non-root tenant store seeded by the loop carries no root-tier claim |
| Responses.NewUnauthorized | Applicaction/Exceptions/UnauthorizedException.cs:6-11 | keeps the messages; the status is the given one, 401 when omitted |
| Responses.Fail | Applicaction/Wrappers/ResponseWrapper.cs:75-81 | unsuccessful, no messages, no data |
| Responses.FailWith | Applicaction/Wrappers/ResponseWrapper.cs:83-90 | unsuccessful with exactly the one message |
| Responses.FailWithAll | Applicaction/Wrappers/ResponseWrapper.cs:92-99 | unsuccessful with exactly the given messages |
| Responses.Success | Applicaction/Wrappers/ResponseWrapper.cs:101-107 | successful, no messages, no data |
| Responses.SuccessWith | Applicaction/Wrappers/ResponseWrapper.cs:109-116 | successful with exactly the one message |
| Responses.SuccessWithAll | Applicaction/Wrappers/ResponseWrapper.cs:53-60 | successful with exactly the given messages |
| Responses.SuccessData | Applicaction/Wrappers/ResponseWrapper.cs:118-125 | successful carrying the data, no messages |
| Responses.SuccessDataWith | Applicaction/Wrappers/ResponseWrapper.cs:127-135 | successful carrying the data and the one message |
| Responses.SuccessDataWithAll | Applicaction/Wrappers/ResponseWrapper.cs:137-145 | successful carrying the data and the given messages |
| Responses.FailAsync | Applicaction/Wrappers/ResponseWrapper.cs:147 | a completed task holding the unsuccessful response without messages or data |
| Responses.FailWithAsync | Applicaction/Wrappers/ResponseWrapper.cs:148 | a completed task holding the unsuccessful response with the one message |
| Responses.FailWithAllAsync | Applicaction/Wrappers/ResponseWrapper.cs:149 | a completed task holding the unsuccessful response with the given messages |
| Responses.SuccessAsync | Applicaction/Wrappers/ResponseWrapper.cs:151 | a completed task holding the successful response without messages or data |
| Responses.SuccessWithAsync | Applicaction/Wrappers/ResponseWrapper.cs:152 | a completed task holding the successful response with the one message |
| Responses.SuccessWithAllAsync | Applicaction/Wrappers/ResponseWrapper.cs:68 | a completed task holding the successful response with the given messages |
| Responses.SuccessDataAsync | Applicaction/Wrappers/ResponseWrapper.cs:153 | a completed task holding the successful response carrying the data |
| Responses.SuccessDataWithAsync | Applicaction/Wrappers/ResponseWrapper.cs:154 | a completed task holding the successful response carrying the data and the one message |
| Responses.SuccessDataWithAllAsync | Applicaction/Wrappers/ResponseWrapper.cs:155 | a completed task holding the successful response carrying the data and the given messages |

Helpers without a row of their own: `Catalog.Where`, `Catalog.Root`, `Catalog.Admin` and `Catalog.Basic` (their meaning is stated by `Catalog.WhereMembership`, `Catalog.RootIsTenantGroup`, `Catalog.AdminIsSystemGroups` and `Catalog.BasicIsCreateSchools`) and `Catalog.Permission.Name` (stated by `Catalog.NameFor` and `Catalog.CatalogNamesParse`).

## Left out

- JWT writing, signing and validation, and the claim-type mapping of the JWT handler: the `Collaborators.writeToken` and `validateToken` oracles stand in for them; the model checks only the algorithm name and the claims the validator returns.
- The random number generator: the 32 bytes are a parameter; their Base64 encoding is modelled.
- Password hashing and verification: `checkPassword` and the admin's password hash are oracle values.
- Tenant resolution from the request header and the multi-tenant store lookup: the current tenant is a parameter.
- Entity Framework, migrations, dependency injection, HTTP, controllers, MediatR and Swagger: the seeder sees only whether migrations are defined and whether the database is reachable; the `Migrate` call itself is not modelled.
- Library validation in `CreateAsync`, `UpdateAsync`, `AddToRoleAsync` and `AddClaimAsync` and their result objects are not modelled; each call is taken to succeed.
- The role description text ("<name> Role") is not stored: a role is a name with its claims.
- Concurrency: two simultaneous refreshes of the same token, and all other interleavings, are not modelled.
- The clock: one `now` per operation, where the source reads the clock at each step.
- Case-insensitive comparisons fold ASCII letters only.
- The admin lookup by e-mail in the seeder is an exact comparison; database collation is not modelled.
- Identity.FindByEmail: returns the first match, where the store's lookup (`SingleOrDefault`) throws when two users share a normalized e-mail; uniqueness of the normalized e-mail is assumed.
- Identity.FindByName: the first match, as the store's `FirstOrDefault`, up to database row order, which the model takes to be insertion order.
- The identity library's user validation, including the unique-e-mail option set at Infrastructure/Startup.cs:55 and the user-name uniqueness check it always makes, is not modelled; a created user is always stored. Under the unique-e-mail option the as-written admin seeding stores no admin at all instead of duplicating it; without it, a second run's creation is still rejected because the user name (the tenant e-mail) is taken. The normalization `CreateAsync` performs is modelled: the stored normalized name and e-mail are recomputed from the user name and e-mail.
- `AddYears(2)` is a calendar oracle (`addYears`), not modelled arithmetic.
- The envelope's data type is fixed at `TokenResponse`, the payload the token endpoints wrap, instead of an arbitrary `T`; the envelope without data is the same envelope with no data. The non-generic factories and their async forms are therefore the same functions; one row per pair is listed above.
- Tokens.IssuedClaimsLackSurname: holds only when neither the user's own claims nor its roles' claims carry a surname claim and the tenant claim type is not the surname type.
- Tokens.IssuedClaimsNameTheTenant: assumes the configured tenant claim type differs, ignoring case, from the identity claim types, which the configuration does not show.
- Tokens.IssuedPairRefreshes: assumes the validator accepts what the writer produced and that the user is the first holder of its e-mail.
- Tokens.RotationRejectsReplay: assumes the new random token differs from the presented one.
- The other exception classes, the tenant and school entities, the token controller and the request records are not part of this model.

## Findings

| source | as written | input that shows it | evidently intended | confidence | as-written member | corrected member |
|---|---|---|---|---|---|---|
| Infrastructure/Identity/Tokens/TokenService.cs:34-35 | login is refused when the password check returns true | an active, current tenant and an active user who types the correct password: the answer is "Incorrect credentials." | refuse when the password check returns false | not executed; high | Tokens.LoginRejectsCorrectPassword | Tokens.LoginIntendedAcceptsCorrectPassword |
| Infrastructure/Context/ApplicationDbSeeder.cs:101-121 | the admin user is looked up by e-mail but created without an e-mail | a tenant with e-mail `e` and no user with e-mail `e`: the created user has no e-mail, so no later run finds it. With user creation succeeding, as the model assumes, each run creates another admin user; in the library a second creation is rejected because the user name (the tenant e-mail) is taken, and with the unique-e-mail option set at Infrastructure/Startup.cs:55 the identity library rejects the e-mail-less user instead, the ignored result leaves no admin stored, and every run tries again | store the tenant e-mail on the created user so a re-run finds it | not executed; medium | AppSeeder.AdminSeedCreatesAgain | AppSeeder.AdminSeedIdempotent |
