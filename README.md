# RBAC sample: a verified model of its core

This project is a Dafny model of the role-based access control sample. The sample has a Spring backend and a React frontend.

The backend keeps five repositories: roles, permissions, resources, actions and users.
- A permission links one resource to one action and is named `resource:action`.
- A role holds a set of permissions.
- A user has exactly one role.
- The user's authorities are `ROLE_<name>` plus the names of the role's permissions.

The services create, rename, delete, grant and revoke. Each returns NotFound, AlreadyExists or a database constraint error where the Java code throws one. The model holds the repositories in one `Store` class. Each service method states the store's whole new state and keeps the store's invariants (`Store.Store.Valid`):
- role, resource and action names are unique;
- there is one permission per (resource, action) pair;
- emails are unique;
- every user's role exists.

The JWT service issues access tokens (roles claim, subject, issue and expiry times) and refresh tokens (subject and times only). A token is modelled as a claim set signed with a key, or text the parser cannot read. The bootstrap seeders create the default roles, an admin account, five resources, five actions, the 5×5 permission matrix and each role's grants. They are proved idempotent: a second run changes nothing.

The frontend part models these pieces:
- the Axios client's request and error interceptors, over a `LocalStorage` class;
- the authentication context (token, decoded user details, loading flag, login and logout);
- the route guard;
- the admin pages' form validation, request construction and error texts;
- the role editor's permission toggling and grouping.

## Model


| member | source | states |
|---|---|---|
| Entities.AllRoleNamesComplete | src/main/java/org/cloven/rbac_sample/bootstrap/DataLoader.java:75 | the role list the seeder walks holds every role constant, each once |
| Entities.RoleNameTextInjective | src/main/java/org/cloven/rbac_sample/dtos/UserResponseDto.java:29 | distinct roles print as distinct names |
| PermissionEntity.Name | src/main/java/org/cloven/rbac_sample/models/Permission.java:49-51 | the name starts with the resource name, has ':' right after it, and ends with the action name |
| PermissionEntity.NameDeterminesPair | src/main/java/org/cloven/rbac_sample/models/Permission.java:49-51 | when resource names hold no ':', two equal names come from the same resource and action |
| PermissionEntity.NameCollidesWithColon | src/main/java/org/cloven/rbac_sample/models/Permission.java:49-51 | without that condition two different pairs share a name ("a:b"+"c" and "a"+"b:c") |
| PermissionEntity.NameRolePrefix | src/main/java/org/cloven/rbac_sample/models/Permission.java:49-51 | a permission name starts with "ROLE_" iff its resource name does |
| PermissionEntity.AtMostOnePerPair | src/main/java/org/cloven/rbac_sample/models/Permission.java:15-17 | under the (resource_id, action_id) unique constraint at most one permission exists per pair |
| PermissionEntity.InsertKeepsUniquePairs | src/main/java/org/cloven/rbac_sample/models/Permission.java:15-17 | storing a permission under a new id keeps the constraint iff its pair is not taken |
| UserEntity.RoleAuthority | src/main/java/org/cloven/rbac_sample/models/User.java:54 | the role authority is "ROLE_" followed by the role's name |
| UserEntity.Authorities | src/main/java/org/cloven/rbac_sample/models/User.java:50-62 | the authorities hold the role authority and the name of every permission of the role, and nothing else |
| UserEntity.PermissionNamesBound | src/main/java/org/cloven/rbac_sample/models/User.java:57-59 | collecting permission names to a set gives at most as many names as permissions |
| UserEntity.AuthoritiesSize | src/main/java/org/cloven/rbac_sample/models/User.java:50-62 | a user has at most one authority more than the role has permissions |
| UserEntity.OnlyRoleAuthorityHasRolePrefix | src/main/java/org/cloven/rbac_sample/models/User.java:50-62 | if no resource name starts with "ROLE_", the role authority is the only authority with that prefix |
| UserEntity.Username | src/main/java/org/cloven/rbac_sample/models/User.java:65-67 | the username is the email |
| UserEntity.IsAccountNonExpired | src/main/java/org/cloven/rbac_sample/models/User.java:70-72 | accounts never expire |
| UserEntity.IsAccountNonLocked | src/main/java/org/cloven/rbac_sample/models/User.java:75-77 | accounts are never locked |
| UserEntity.IsCredentialsNonExpired | src/main/java/org/cloven/rbac_sample/models/User.java:80-82 | credentials never expire |
| UserEntity.IsEnabled | src/main/java/org/cloven/rbac_sample/models/User.java:85-87 | accounts are always enabled |
| Store.Store.constructor | src/main/java/org/cloven/rbac_sample/models/User.java:23-26 | an empty database: every repository empty and the invariants holding |
| Store.Store.NewId | src/main/java/org/cloven/rbac_sample/models/User.java:23-26 | a generated id is in use by no role, permission, resource, action or user; the counter moves past it and the invariants still hold |
| Store.ListIds | src/main/java/org/cloven/rbac_sample/services/RoleService.java:30-34 | `findAll().forEach(list::add)`: the list holds every stored id and nothing else, each exactly once |
| RoleService.GetRoleById | src/main/java/org/cloven/rbac_sample/services/RoleService.java:36-39 | the stored role iff the id exists, else NotFound "Role not found with id: …" |
| RoleService.Granting | src/main/java/org/cloven/rbac_sample/services/RoleService.java:87-96 | the role afterwards holds the permission; all other permissions, the name and the description are unchanged |
| RoleService.Revoking | src/main/java/org/cloven/rbac_sample/services/RoleService.java:98-107 | the role afterwards lacks the permission; all other permissions, the name and the description are unchanged |
| RoleService.GrantingIdempotent | src/main/java/org/cloven/rbac_sample/services/RoleService.java:87-96 | assigning the same permission twice is assigning it once |
| RoleService.RevokingUndoesGranting | src/main/java/org/cloven/rbac_sample/services/RoleService.java:87-107 | revoking a permission just granted to a role that lacked it restores the role |
| RoleService.GrantingUndoesRevoking | src/main/java/org/cloven/rbac_sample/services/RoleService.java:87-107 | granting back a permission just revoked restores the role |
| RoleService.CreateRole | src/main/java/org/cloven/rbac_sample/services/RoleService.java:46-58 | a taken name gives AlreadyExists and changes nothing; a null name gives a constraint error; otherwise exactly one new role is stored under a fresh id, with no permissions |
| RoleService.UpdateRole | src/main/java/org/cloven/rbac_sample/services/RoleService.java:60-77 | unknown id gives NotFound; a non-null new name that is taken gives AlreadyExists; otherwise only that role changes, and each null field keeps its stored value |
| RoleService.DeleteRole | src/main/java/org/cloven/rbac_sample/services/RoleService.java:79-85 | unknown id gives NotFound; a role still held by a user is refused by the foreign key; otherwise that role alone is removed |
| RoleService.AssignPermissionToRole | src/main/java/org/cloven/rbac_sample/services/RoleService.java:87-96 | NotFound for an unknown role, then for an unknown permission; otherwise the role becomes `Granting` of it and nothing else changes |
| RoleService.RevokePermissionFromRole | src/main/java/org/cloven/rbac_sample/services/RoleService.java:98-107 | NotFound for an unknown role, then for an unknown permission; otherwise the role becomes `Revoking` of it and nothing else changes |
| ResourceService.GetResourceById | src/main/java/org/cloven/rbac_sample/services/ResourceService.java:30-33 | the stored resource iff the id exists, else NotFound with the id |
| ResourceService.GetResourceByName | src/main/java/org/cloven/rbac_sample/services/ResourceService.java:35-38 | an id of a resource with exactly that name iff one exists, else NotFound with the name |
| ResourceService.GetByNameFindsStored | src/main/java/org/cloven/rbac_sample/services/ResourceService.java:35-38 | with unique names, looking up a stored resource's name returns that resource's id |
| ResourceService.CreateResource | src/main/java/org/cloven/rbac_sample/services/ResourceService.java:41-52 | a taken name gives AlreadyExists and changes nothing; a null name fails the NOT NULL column; otherwise exactly one new resource is stored |
| ResourceService.UpdateResource | src/main/java/org/cloven/rbac_sample/services/ResourceService.java:55-71 | unknown id gives NotFound; a changed name that is taken gives AlreadyExists; otherwise only that resource changes, and null fields are kept |
| ResourceService.DeleteResource | src/main/java/org/cloven/rbac_sample/services/ResourceService.java:74-79 | unknown id gives NotFound; otherwise that resource alone is removed |
| ActionService.GetActionById | src/main/java/org/cloven/rbac_sample/services/ActionService.java:30-33 | the stored action iff the id exists, else NotFound with the id |
| ActionService.GetActionByName | src/main/java/org/cloven/rbac_sample/services/ActionService.java:35-38 | an id of an action with exactly that name iff one exists, else NotFound with the name |
| ActionService.GetByNameFindsStored | src/main/java/org/cloven/rbac_sample/services/ActionService.java:35-38 | with unique names, looking up a stored action's name returns that action's id |
| ActionService.CreateAction | src/main/java/org/cloven/rbac_sample/services/ActionService.java:41-52 | a taken name gives AlreadyExists and changes nothing; a null name fails the NOT NULL column; otherwise exactly one new action is stored |
| ActionService.UpdateAction | src/main/java/org/cloven/rbac_sample/services/ActionService.java:55-71 | unknown id gives NotFound; a changed name that is taken gives AlreadyExists; otherwise only that action changes, and null fields are kept |
| ActionService.DeleteAction | src/main/java/org/cloven/rbac_sample/services/ActionService.java:74-79 | unknown id gives NotFound; otherwise that action alone is removed |
| PermissionService.GetAllPermissions | src/main/java/org/cloven/rbac_sample/services/PermissionService.java:35-39 | every stored permission id exactly once |
| PermissionService.GetPermissionById | src/main/java/org/cloven/rbac_sample/services/PermissionService.java:41-44 | the stored permission iff the id exists, else NotFound with the id |
| PermissionService.CreatePermission | src/main/java/org/cloven/rbac_sample/services/PermissionService.java:47-66 | NotFound for a missing resource, then for a missing action; AlreadyExists for a taken pair; otherwise exactly one permission linking the named resource and action is stored |
| PermissionService.DeletePermission | src/main/java/org/cloven/rbac_sample/services/PermissionService.java:69-74 | unknown id gives NotFound; otherwise that permission alone is removed |
| PermissionService.UpdatePermissionDescription | src/main/java/org/cloven/rbac_sample/services/PermissionService.java:77-81 | unknown id gives NotFound; otherwise only the description changes, and the resource and action are kept |
| UserService.LoadUserByUsername | src/main/java/org/cloven/rbac_sample/services/UserService.java:43-46 | the stored user with that email iff one exists, else UsernameNotFound with the email |
| UserService.LoadUserByUsernameRoundTrip | src/main/java/org/cloven/rbac_sample/services/UserService.java:43-46 | loading a stored user by its username returns that user |
| UserService.GetUserById | src/main/java/org/cloven/rbac_sample/services/UserService.java:54-57 | the stored user iff the id exists, else NotFound with the id |
| UserService.CreateUser | src/main/java/org/cloven/rbac_sample/services/UserService.java:66-78 | a missing or null role gives NotFound "Role not found: …"; a taken email fails the unique constraint and stores nothing; otherwise one user is stored with the encoded password and the named role |
| UserService.UpdateUser | src/main/java/org/cloven/rbac_sample/services/UserService.java:81-103 | NotFound for an unknown user or an unknown non-null role; each non-null field replaces the stored one, the password encoded; an email taken by another user rolls back the whole update |
| UserService.ReplaceUserKeepsConsistent | src/main/java/org/cloven/rbac_sample/services/UserService.java:102 | saving a user whose email no other user holds and whose role exists keeps emails unique and every reference valid |
| UserService.DeleteUser | src/main/java/org/cloven/rbac_sample/services/UserService.java:106-111 | unknown id gives NotFound; otherwise that user alone is removed |
| UserService.CheckUserPermission | src/main/java/org/cloven/rbac_sample/services/UserService.java:113-123 | NotFound for an unknown user; otherwise true iff some permission of the user's role links a resource and an action with exactly those names |
| UserService.RoleAuthorityHasNoColon | src/main/java/org/cloven/rbac_sample/models/User.java:54 | no role authority contains ':' |
| UserService.CheckUserPermissionIsAuthority | src/main/java/org/cloven/rbac_sample/services/UserService.java:113-123 | with colon-free resource names, the permission check is true iff "resource:action" is among the user's authorities |
| JwtService.Seconds | src/main/java/org/cloven/rbac_sample/services/JwtService.java:72-73 | a millisecond instant becomes the whole second it falls in, truncated toward zero as Java's `/` does |
| JwtService.RolesClaim | src/main/java/org/cloven/rbac_sample/services/JwtService.java:50-53 | the roles claim holds exactly the authorities that start with "ROLE_", and is never longer than the authorities |
| JwtService.RolesClaimConcat | src/main/java/org/cloven/rbac_sample/services/JwtService.java:50-53 | the filter distributes over concatenation, so it keeps the authorities' order |
| JwtService.RolesClaimKeepsRoles | src/main/java/org/cloven/rbac_sample/services/JwtService.java:50-53 | an authority list made only of roles is kept whole |
| JwtService.RolesClaimDistinct | src/main/java/org/cloven/rbac_sample/services/JwtService.java:50-53 | authorities without repeats give a roles claim without repeats |
| JwtService.GenerateToken | src/main/java/org/cloven/rbac_sample/services/JwtService.java:45-76 | the access token is signed with the secret key, its subject is the username and its roles claim holds exactly the authorities starting with "ROLE_"; with a non-negative clock and lifetime it is issued no later than it expires, and expires no later than now plus the lifetime |
| JwtService.GenerateRefreshToken | src/main/java/org/cloven/rbac_sample/services/JwtService.java:79-87 | the refresh token is signed with the secret key, its subject is the username and it carries no roles claim; it is issued no later than it expires, and expires no later than now plus the refresh lifetime |
| JwtService.Enumerate | src/main/java/org/cloven/rbac_sample/models/User.java:50-61 | streaming the authority `HashSet` yields each element exactly once, in an order left open |
| JwtService.Parse | src/main/java/org/cloven/rbac_sample/services/JwtService.java:107-114 | the parser accepts exactly an in-date token signed with the service key, and fails Expired exactly on an expired one |
| JwtService.ExpiredAtMonotone | src/main/java/org/cloven/rbac_sample/services/JwtService.java:99-101 | `ExpiredAt`, the "expiry before now" test of the parser and of `isTokenExpired`: a token expired at one instant stays expired at every later instant |
| JwtService.ExtractUsername | src/main/java/org/cloven/rbac_sample/services/JwtService.java:36-38 | the `sub` claim iff the parser accepts the token |
| JwtService.IsTokenExpired | src/main/java/org/cloven/rbac_sample/services/JwtService.java:99-101 | parses again; the answer is whether `exp` lies before now |
| JwtService.IsTokenValid | src/main/java/org/cloven/rbac_sample/services/JwtService.java:90-93 | throws iff the parser refuses the token or it has no subject; otherwise true iff the subject is the user and the token is not expired |
| JwtService.IsTokenValidIgnoresExpiry | src/main/java/org/cloven/rbac_sample/services/JwtService.java:90-93 | a false answer always means another subject: the expiry conjunct never decides |
| JwtService.ValidateToken | src/main/java/org/cloven/rbac_sample/services/JwtService.java:121-131 | true iff the token is signed with the service key and in date; it never throws |
| JwtService.GetExpirationTime | src/main/java/org/cloven/rbac_sample/services/JwtService.java:95-97 | the configured access-token lifetime |
| JwtService.AccessTokenRoundTrip | src/main/java/org/cloven/rbac_sample/services/JwtService.java:45-76 | an issued access token carries the roles claim and yields its username and validity exactly until its expiry instant; another key rejects it |
| JwtService.RefreshTokenRoundTrip | src/main/java/org/cloven/rbac_sample/services/JwtService.java:79-87 | a refresh token has no roles claim; it is valid for its user until its expiry instant, and fails Expired afterwards |
| JwtService.ExpiryFollowsIssue | src/main/java/org/cloven/rbac_sample/services/JwtService.java:72-73 | with a non-negative lifetime, expiry is not before issue and lies within a second of issue plus lifetime |
| AuthenticationService.Signup | src/main/java/org/cloven/rbac_sample/services/AuthenticationService.java:46-60 | a missing USER role gives the runtime error; a taken email stores nothing; otherwise one user with the USER role and the encoded password is stored |
| AuthenticationService.Authenticate | src/main/java/org/cloven/rbac_sample/services/AuthenticationService.java:62-72 | the authentication manager's refusal is passed on; an accepted login returns the stored user with that email, or NoSuchElement if there is none |
| AuthenticationService.AuthenticateFindsUser | src/main/java/org/cloven/rbac_sample/services/AuthenticationService.java:62-72 | an accepted login with a stored user's email returns that user |
| AuthenticationService.UserTokenCarriesOneRole | src/main/java/org/cloven/rbac_sample/services/JwtService.java:45-62 | if no resource name starts with "ROLE_", a user's access token has exactly its role authority as roles claim and its email as subject |
| AuthenticationService.UserToken | src/main/java/org/cloven/rbac_sample/services/AuthenticationService.java:86 | `generateToken(user)`: signed with the key, the user's email as subject, and as roles claim exactly the user's authorities that start with "ROLE_", whatever order the set streams them in |
| AuthenticationService.RefreshToken | src/main/java/org/cloven/rbac_sample/services/AuthenticationService.java:74-93 | parser failures propagate; an unknown subject gives "User not found for refresh token"; success returns a new access token for the stored user and the access lifetime |
| AuthenticationService.RefreshTokenNeverInvalid | src/main/java/org/cloven/rbac_sample/services/AuthenticationService.java:85-92 | the "Invalid refresh token" branch is never taken |
| AuthenticationService.ExpiredRefreshTokenEscapes | src/main/java/org/cloven/rbac_sample/services/AuthenticationService.java:74-93 | an expired refresh token of a stored user ends in the parser's Expired error |
| AuthenticationService.RefreshTokenRoundTrip | src/main/java/org/cloven/rbac_sample/services/AuthenticationService.java:74-93 | an in-date refresh token of a stored user yields that user's fresh access token and the access lifetime |
| AuthenticationService.AccessTokenAcceptedAsRefreshToken | src/main/java/org/cloven/rbac_sample/services/AuthenticationService.java:74-93 | nothing marks a refresh token: an in-date access token is accepted as one |
| AuthenticationService.ParseIgnoringExpiry | src/main/java/org/cloven/rbac_sample/services/JwtService.java:107-114 | claims of any token signed with the key, expired or not |
| AuthenticationService.RefreshTokenCheckedMeaning | src/main/java/org/cloven/rbac_sample/services/AuthenticationService.java:85-92 | corrected refresh: "Invalid refresh token" iff the token is signed with the key, its stored user exists and it is expired; elsewhere it agrees with the code as written |
| AuthenticationService.RefreshTokenChecked | src/main/java/org/cloven/rbac_sample/services/AuthenticationService.java:74-93 | corrected refresh: succeeds iff the token is signed with the key, names a stored user and is not expired; a success carries the configured lifetime and a new access token for the same subject |
| RoleSeeder.DescriptionForRole | src/main/java/org/cloven/rbac_sample/bootstrap/RoleSeeder.java:49-60 | each role gets its fixed description; the fallback text is never produced |
| RoleSeeder.SeededRole | src/main/java/org/cloven/rbac_sample/bootstrap/RoleSeeder.java:40-43 | a seeded role has the enum name, no permissions and a fixed description that is never the default "Role description" |
| RoleSeeder.SeedRole | src/main/java/org/cloven/rbac_sample/bootstrap/RoleSeeder.java:39-45 | afterwards the role exists; if it was missing, exactly one role with its description and no permissions is added; otherwise nothing changes |
| RoleSeeder.SeedRoles | src/main/java/org/cloven/rbac_sample/bootstrap/RoleSeeder.java:38-46 | every listed role exists; existing roles are kept; each new role was missing and is seeded; at most one new role per name; no change if all existed |
| RoleSeeder.Run | src/main/java/org/cloven/rbac_sample/bootstrap/RoleSeeder.java:30-47 | ADMIN, MODERATOR and USER exist afterwards; at most three roles added; a second run changes nothing |
| DataLoader.CreateAdminUserIfNotExist | src/main/java/org/cloven/rbac_sample/bootstrap/DataLoader.java:99-113 | an existing admin email changes nothing; a missing ADMIN role gives "Admin role not found"; otherwise one admin user with the ADMIN role is added |
| DataLoader.CreateResource | src/main/java/org/cloven/rbac_sample/bootstrap/DataLoader.java:123-133 | the name exists afterwards; a taken name is swallowed and changes nothing; nothing else changes |
| DataLoader.CreateResources | src/main/java/org/cloven/rbac_sample/bootstrap/DataLoader.java:115-121 | all five seed resources exist; new entries are seed entries; an already seeded store is unchanged |
| DataLoader.CreateAction | src/main/java/org/cloven/rbac_sample/bootstrap/DataLoader.java:143-153 | the name exists afterwards; a taken name is swallowed and changes nothing; nothing else changes |
| DataLoader.CreateActions | src/main/java/org/cloven/rbac_sample/bootstrap/DataLoader.java:135-141 | all five seed actions exist; new entries are seed entries; an already seeded store is unchanged |
| DataLoader.CreatePermission | src/main/java/org/cloven/rbac_sample/bootstrap/DataLoader.java:166-177 | afterwards the pair has its permission whenever both names exist; any failure is swallowed; a covered pair changes nothing |
| DataLoader.CreateResourcePermissions | src/main/java/org/cloven/rbac_sample/bootstrap/DataLoader.java:160-162 | the inner loop covers the resource with every action of the matrix |
| DataLoader.CreatePermissions | src/main/java/org/cloven/rbac_sample/bootstrap/DataLoader.java:155-164 | every pair of the 5×5 matrix whose names exist is covered; new permissions are matrix permissions; a covered matrix changes nothing |
| DataLoader.GrantSelected | src/main/java/org/cloven/rbac_sample/bootstrap/DataLoader.java:190-198 | the role gains exactly the permissions that pass the filter; everything else is unchanged |
| DataLoader.AssignPermissionsToRoles | src/main/java/org/cloven/rbac_sample/bootstrap/DataLoader.java:179-228 | a missing role fails with its message before any grant; otherwise ADMIN gains all permissions, MODERATOR the READ/LIST ones, USER the READ/LIST ones on USER |
| DataLoader.GrantsCompleteSeeding | src/main/java/org/cloven/rbac_sample/bootstrap/DataLoader.java:179-228 | after the catalogue steps, the grants leave the store fully seeded |
| DataLoader.SeededHoldsGrants | src/main/java/org/cloven/rbac_sample/bootstrap/DataLoader.java:190-227 | in a seeded store, granting again changes no role |
| DataLoader.Run | src/main/java/org/cloven/rbac_sample/bootstrap/DataLoader.java:49-72 | a "test" run changes nothing; otherwise the store is seeded, nothing existing is removed, roles only gain permissions, and running again changes nothing |
| UserResponse.FromEntity | src/main/java/org/cloven/rbac_sample/dtos/UserResponseDto.java:21-43 | id, email and full name are copied; role name and role id are set iff the role is present |
| UserResponse.FromEntityHidesPassword | src/main/java/org/cloven/rbac_sample/dtos/UserResponseDto.java:21-43 | the response does not depend on the password |
| UserResponse.FromEntityNamesRole | src/main/java/org/cloven/rbac_sample/dtos/UserResponseDto.java:28-31 | a stored user's response names its role, and two responses share a role name iff the users share a role |
| UserSecurity.IsCurrentUser | src/main/java/org/cloven/rbac_sample/security/UserSecurity.java:11-24 | false without an authentication, when not authenticated, for a non-user principal, or for a null id; true only for the principal's own id |
| UserSecurity.CurrentUserUnique | src/main/java/org/cloven/rbac_sample/security/UserSecurity.java:11-24 | at most one id is the current user |
| UserSecurity.CurrentUserIsSelf | src/main/java/org/cloven/rbac_sample/security/UserSecurity.java:17-23 | an authenticated user is the current user for its own id and no other |
| Responses.ErrorResponse.constructor | src/main/java/org/cloven/rbac_sample/responses/ErrorResponse.java:22-27 | status, error, message and path are set; the validation list starts empty |
| Responses.ErrorResponse.AddValidationError | src/main/java/org/cloven/rbac_sample/responses/ErrorResponse.java:36-39 | the entry is appended; that field's messages gain this message last; other fields' messages are unchanged |
| Responses.FieldMessagesAppend | src/main/java/org/cloven/rbac_sample/responses/ErrorResponse.java:36-39 | appending an entry extends the messages of its own field alone |
| Text.TrimIdempotent | frontend/src/pages/admin/CreateRolePage.tsx:32-33 | trimming twice is trimming once |
| Text.TrimEmptyIffBlank | frontend/src/pages/admin/CreateResourcePage.tsx:27-33 | the trimmed input is empty iff every character is white space |
| Text.TrimUpperCommute | frontend/src/pages/admin/CreateRolePage.tsx:32 | trimming and upper-casing commute |
| ApiClient.BearerToken | frontend/src/utils/apiClient.ts:22 | a header is a bearer header iff it starts with "Bearer ", and then it is that prefix plus the token |
| ApiClient.BearerRoundTrip | frontend/src/utils/apiClient.ts:22 | the header built from a token gives back that token |
| ApiClient.InterceptRequest | frontend/src/utils/apiClient.ts:15-26 | storage that throws rejects the request; a truthy stored token sets Authorization to its bearer header and leaves other headers alone; otherwise the config is unchanged |
| ApiClient.ErrorMessage | frontend/src/utils/apiClient.ts:44-77 | 401 gives the session text whatever the body; 403/404/5xx give the body message or a fixed text; other statuses give message, error, or the status; no response and setup errors give their texts; never empty |
| ApiClient.ErrorFieldIgnored | frontend/src/utils/apiClient.ts:63-68 | for 401, 403, 404 and 5xx the body's `error` field does not affect the message |
| ApiClient.UnauthorizedIgnoresBody | frontend/src/utils/apiClient.ts:52-53 | every 401 shows the same message |
| ApiClient.OnResponseError | frontend/src/utils/apiClient.ts:40-83 | every error is passed on with its toast text, with no retry; only a 401 touches storage, removing the token; if that removal throws, the handler throws |
| ApiClient.Respond | frontend/src/utils/apiClient.ts:35-84 | a 2xx response passes through with storage untouched; a non-401 failure is rejected with its message; a 401 removes the token and is rejected with the session-expired text; a 401 whose token removal throws makes the interceptor throw, storage unchanged |
| ApiClient.OnlyUnauthorizedLogsOut | frontend/src/utils/apiClient.ts:52-61 | a stored token disappears iff the error was a 401 |
| AuthContext.RolesOf | frontend/src/context/AuthContext.tsx:54-59 | a `roles` array wins even when empty; else an `authorities` array; else no roles |
| AuthContext.PermissionsOf | frontend/src/context/AuthContext.tsx:63 | the `permissions` array, or none |
| AuthContext.DetailsFrom | frontend/src/context/AuthContext.tsx:65-69 | username is `sub` iff it is a non-empty string; roles and permissions as above |
| AuthContext.DetailsForToken | frontend/src/context/AuthContext.tsx:47-78 | no token or a token that fails to decode clears the details; otherwise they come from the decoded payload |
| AuthContext.EmptyRolesWin | frontend/src/context/AuthContext.tsx:55-56 | an empty `roles` array gives no roles, even with `authorities` present |
| AuthContext.DecodedOf | src/main/java/org/cloven/rbac_sample/services/JwtService.java:64-76 | the payload the browser decodes has the token's `sub` and `roles`, and no `authorities` or `permissions` |
| AuthContext.AccessTokenDetails | frontend/src/context/AuthContext.tsx:47-78 | a backend access token gives its username (if non-empty), its roles claim, and never any permissions |
| AuthContext.RefreshTokenDetails | frontend/src/context/AuthContext.tsx:54-59 | a refresh token decodes to no roles |
| AuthContext.Normal | frontend/src/context/AuthContext.tsx:119 | a token counts iff it is a non-empty string |
| AuthContext.AuthProvider.constructor | frontend/src/context/AuthContext.tsx:37-44 | first render: no token, cleared details, loading |
| AuthContext.AuthProvider.IsAuthenticated | frontend/src/context/AuthContext.tsx:119 | authenticated iff the token is non-empty |
| AuthContext.AuthProvider.Value | frontend/src/context/AuthContext.tsx:121-130 | the context exposes token, isAuthenticated, isLoading, username, roles and permissions |
| AuthContext.AuthProvider.UpdateUserFromToken | frontend/src/context/AuthContext.tsx:47-78 | the details become `DetailsForToken` of the given token |
| AuthContext.AuthProvider.InitialLoad | frontend/src/context/AuthContext.tsx:81-95 | loading ends whatever happens; a truthy stored token is adopted and decoded; otherwise state is unchanged; a fresh provider ends in sync with storage |
| AuthContext.AuthProvider.Login | frontend/src/context/AuthContext.tsx:97-106 | the token is stored first; if storage throws nothing changes; otherwise token and details follow it, in sync with storage |
| AuthContext.AuthProvider.Logout | frontend/src/context/AuthContext.tsx:108-117 | the stored token is removed; if storage throws nothing changes; otherwise the token is cleared with the details, in sync with storage |
| AuthContext.UnauthorizedLeavesContextStale | frontend/src/utils/apiClient.ts:56 | after the 401 handler removes the stored token, a context still holding a token disagrees with storage |
| ProtectedRoute.SomeAllowedHeld | frontend/src/components/ProtectedRoute.tsx:23 | true iff some allowed role is among the user's roles |
| ProtectedRoute.HasRequiredRole | frontend/src/components/ProtectedRoute.tsx:23 | with no list every user passes; with a list, iff some listed role is held |
| ProtectedRoute.Decide | frontend/src/components/ProtectedRoute.tsx:16-37 | loading shows the check; unauthenticated redirects to login with the location; authenticated renders the outlet iff the role test passes, else the dashboard |
| ProtectedRoute.OutletNeedsSession | frontend/src/components/ProtectedRoute.tsx:16-33 | the outlet is rendered only when loading is over and the user is authenticated |
| ProtectedRoute.EmptyAllowedDenies | frontend/src/components/ProtectedRoute.tsx:23 | an empty allowed list sends every authenticated user to the dashboard |
| ProtectedRoute.MoreAllowedAdmitsMore | frontend/src/components/ProtectedRoute.tsx:23 | allowing more roles never locks out an admitted user |
| ProtectedRoute.RenderAsWritten | frontend/src/components/ProtectedRoute.tsx:10-11 | as written, the guard reads `userDetails.roles`: it renders at all iff the context value has a `userDetails` key, and when it renders it agrees with `Decide` |
| ProtectedRoute.RenderAsWrittenAlwaysThrows | frontend/src/components/ProtectedRoute.tsx:10-11 | the context has no `userDetails`, so every render throws |
| ProtectedRoute.ColonFreeIsNoPermissionName | src/main/java/org/cloven/rbac_sample/models/Permission.java:49-51 | every permission authority contains ':' |
| ProtectedRoute.RouteAdmitsByRole | frontend/src/components/ProtectedRoute.tsx:23 | for colon-free allowed lists, a user's access token passes the role test iff its role authority is listed |
| ProtectedRoute.AdminAuthority | src/main/java/org/cloven/rbac_sample/models/User.java:54 | the role authority is "ROLE_ADMIN" iff the role is ADMIN |
| ProtectedRoute.AdminRouteOnlyAdmins | frontend/src/components/ProtectedRoute.tsx:21-32 | a route allowing "ROLE_ADMIN" admits a user's token iff the user's role is ADMIN |
| PageErrors.CaughtOf | frontend/src/utils/apiClient.ts:82 | the rejected error reaches the page as an Axios error carrying the response body, if any |
| PageErrors.ServerText | frontend/src/pages/admin/CreateResourcePage.tsx:46 | the body's message if truthy, else its error |
| PageErrors.ErrorThenMessage | frontend/src/pages/admin/CreateResourcePage.tsx:44-49 | Axios: server text, else the error's message; other Error: its message; anything else: the default |
| PageErrors.ErrorThenMessageThenDefault | frontend/src/pages/RegistrationPage.tsx:53-58 | as above, but an empty Axios message falls back to the default |
| PageErrors.ErrorThenDefault | frontend/src/pages/admin/EditResourcePage.tsx:82-87 | Axios: server text, else the default (the Axios message is skipped) |
| PageErrors.AxiosTextNonEmpty | frontend/src/pages/RegistrationPage.tsx:55 | with a non-empty default, the second and third orders never show an empty text for an Axios error |
| PageErrors.OrdersAgreeOnServerText | frontend/src/pages/admin/CreateResourcePage.tsx:46 | when the server sent a text, all three orders show it |
| PageErrors.FirstOrderCanShowNothing | frontend/src/pages/admin/CreateResourcePage.tsx:46 | an Axios error with no body and an empty message shows an empty text under the first order |
| EditRolePage.IdsOf | frontend/src/pages/admin/EditRolePage.tsx:70 | the set holds exactly the ids of the role's permissions |
| EditRolePage.Toggled | frontend/src/pages/admin/EditRolePage.tsx:118-143 | success adds on check and removes on uncheck; failure reverts: removes on check, adds on uncheck |
| EditRolePage.ToggledMembership | frontend/src/pages/admin/EditRolePage.tsx:118-143 | afterwards the id is ticked iff success and check agree; every other id is as before |
| EditRolePage.RevertRestores | frontend/src/pages/admin/EditRolePage.tsx:139-143 | reverting a toggle that matched the displayed state restores the set |
| EditRolePage.RevertOfStaleTickDrops | frontend/src/pages/admin/EditRolePage.tsx:139-143 | reverting a failed check of an already ticked id unticks it, changing the set |
| EditRolePage.ToggleErrorMessage | frontend/src/pages/admin/EditRolePage.tsx:131-136 | the assign/revoke fallback only for a non-Error throw; otherwise server text, else the error's message |
| EditRolePage.EditRoleState.constructor | frontend/src/pages/admin/EditRolePage.tsx:70 | ticked ids are the role's permission ids; nothing loading; no error |
| EditRolePage.EditRoleState.BeginToggle | frontend/src/pages/admin/EditRolePage.tsx:113-115 | without a role id nothing changes; otherwise the error clears and the id is marked loading |
| EditRolePage.EditRoleState.FinishToggle | frontend/src/pages/admin/EditRolePage.tsx:117-146 | the ticked set becomes `Toggled`; the id stops loading; a failure records its message |
| EditRolePage.EditRoleState.HandlePermissionChange | frontend/src/pages/admin/EditRolePage.tsx:112-147 | the whole handler: no role id changes nothing; otherwise `Toggled`, loading off, and the error is cleared or set from the failure |
| EditRolePage.GroupKey | frontend/src/pages/admin/EditRolePage.tsx:158 | the resource name if non-empty, else "Other" |
| EditRolePage.InGroupCount | frontend/src/pages/admin/EditRolePage.tsx:157-162 | a group holds each permission of its key as often as the list does, and none of another key |
| EditRolePage.InGroupConcat | frontend/src/pages/admin/EditRolePage.tsx:157-162 | grouping distributes over concatenation, so list order is kept within a group |
| EditRolePage.ExactlyOneGroup | frontend/src/pages/admin/EditRolePage.tsx:157-162 | a listed permission is in the group of its own key and no other |
| EditRolePage.InGroupWithoutKey | frontend/src/pages/admin/EditRolePage.tsx:157-162 | a key no permission has gets an empty group |
| EditRolePage.GroupStep | frontend/src/pages/admin/EditRolePage.tsx:159-160 | one reduce step appends the permission to its key's group and keeps the grouping invariant |
| EditRolePage.GroupPermissions | frontend/src/pages/admin/EditRolePage.tsx:157-162 | corrected grouping: the keys are exactly the group keys of the list, and each group is the list filtered to its key, in order |
| EditRolePage.GroupPermissionsAsWritten | frontend/src/pages/admin/EditRolePage.tsx:157-162 | with a `{}` accumulator the reduce throws iff some group key is an `Object.prototype` member; otherwise it equals the corrected grouping |
| EditRolePage.PrototypeNamedResourceAccepted | frontend/src/pages/admin/CreateResourcePage.tsx:74-81 | "constructor" passes the resource name rule and is such a key |
| FormRules.FieldError | frontend/src/pages/RegistrationPage.tsx:73 | an empty value gives the required message; otherwise the further rule's verdict |
| FormRules.IsEmailDecidesPattern | frontend/src/pages/RegistrationPage.tsx:87 | the executable check holds iff the email pattern matches |
| FormRules.EmailHasOneAt | frontend/src/pages/RegistrationPage.tsx:87 | a valid email has exactly one '@' |
| FormRules.EmailUpperValid | frontend/src/pages/RegistrationPage.tsx:87 | the pattern is case-insensitive: upper-casing keeps a valid email valid |
| FormRules.EmailError | frontend/src/pages/RegistrationPage.tsx:84-89 | no error iff non-empty and matching; "Email is required" when empty; else "Invalid email address" |
| FormRules.PasswordError | frontend/src/pages/RegistrationPage.tsx:101-104 | no error iff at least 6 characters; the required text when empty; else the length text |
| FormRules.PatternNameTrimmed | frontend/src/pages/admin/CreateResourcePage.tsx:27-33 | a name matching a pattern without white space is unchanged by trimming and never empty |
| FormRules.NameCharsAreNoSpaces | frontend/src/pages/admin/CreateRolePage.tsx:75-80 | the role, resource and action name patterns admit no white space |
| FormRules.ActionNamesAreResourceShaped | frontend/src/pages/admin/CreateActionPage.tsx:74-81 | every valid action name is also a valid resource name and a valid role name |
| FormRules.AlreadyExistsText | frontend/src/pages/admin/CreateResourcePage.tsx:50-54 | a message containing "already exists" in any case is replaced by the friendly text with the name; other messages are shown as is |
| FormRules.AlreadyExistsAnyCase | frontend/src/pages/admin/CreateResourcePage.tsx:50 | a message holding "already exists" in any casing, anywhere, passes the test |
| RegistrationPage.ConfirmError | frontend/src/pages/RegistrationPage.tsx:115-119 | no error iff the confirmation is non-empty and equals the password; otherwise the required or mismatch text |
| RegistrationPage.Validate | frontend/src/pages/RegistrationPage.tsx:73-119 | each field gets its own rule's verdict |
| RegistrationPage.ValidatesExactly | frontend/src/pages/RegistrationPage.tsx:73-119 | the form is accepted iff the name is non-empty, the email valid, the password at least 6 characters and confirmed |
| RegistrationPage.Submit | frontend/src/pages/RegistrationPage.tsx:39-45 | a valid form is posted whole to "/auth/signup"; an invalid one yields its errors |
| RegistrationPage.SentConfirmationMatches | frontend/src/pages/RegistrationPage.tsx:45 | a sent form's confirmation equals its password, which has at least 6 characters |
| RegistrationPage.SignupErrorText | frontend/src/pages/RegistrationPage.tsx:53-58 | server text, else the Axios message, else "Registration failed. Please try again." |
| RegistrationPage.SignupErrorNeverEmpty | frontend/src/pages/RegistrationPage.tsx:55 | an Axios failure never shows an empty text |
| CreateUserPage.FindUserRole | frontend/src/pages/admin/CreateUserPage.tsx:50 | the index of the first role named "USER", or none |
| CreateUserPage.DefaultRoleId | frontend/src/pages/admin/CreateUserPage.tsx:49-53 | a default exists iff roles were returned, and it is one of their ids |
| CreateUserPage.DefaultPrefersUser | frontend/src/pages/admin/CreateUserPage.tsx:50-51 | the first USER role is the default |
| CreateUserPage.DefaultFallsBackToFirst | frontend/src/pages/admin/CreateUserPage.tsx:51 | without a USER role the first role is the default |
| CreateUserPage.CreateUserState.constructor | frontend/src/pages/admin/CreateUserPage.tsx:28-31 | no roles, loading, no error, no role chosen |
| CreateUserPage.CreateUserState.SubmitEnabled | frontend/src/pages/admin/CreateUserPage.tsx:177 | submit is enabled iff not submitting, not loading and no roles error |
| CreateUserPage.CreateUserState.StartFetch | frontend/src/pages/admin/CreateUserPage.tsx:43-44 | loading, error cleared |
| CreateUserPage.CreateUserState.FetchSettled | frontend/src/pages/admin/CreateUserPage.tsx:45-60 | success stores the roles and picks the default if any; failure clears the roles and sets the error, which disables submit; loading ends either way |
| CreateUserPage.Validate | frontend/src/pages/admin/CreateUserPage.tsx:108-158 | name required; email and password rules as on registration; a role is required |
| CreateUserPage.ValidatesExactly | frontend/src/pages/admin/CreateUserPage.tsx:108-158 | accepted iff the name is non-empty, the email valid, the password at least 6 characters and a role chosen |
| CreateUserPage.CreateUserErrorText | frontend/src/pages/admin/CreateUserPage.tsx:77-84 | server text, else the Axios message; the fallback only for non-Error throws |
| CreateRolePage.RoleNameError | frontend/src/pages/admin/CreateRolePage.tsx:75-80 | no error iff non-empty letters and underscores; else the required or pattern text |
| CreateRolePage.NormalizeIdempotent | frontend/src/pages/admin/CreateRolePage.tsx:32 | normalising twice is normalising once |
| CreateRolePage.ValidNameSentUpper | frontend/src/pages/admin/CreateRolePage.tsx:32 | a valid name is sent as its upper-case form, still valid, with no lower-case letter |
| CreateRolePage.Submit | frontend/src/pages/admin/CreateRolePage.tsx:30-37 | an invalid name yields its error; a valid one posts the upper-cased name and the trimmed description |
| CreateRolePage.CreateRoleErrorText | frontend/src/pages/admin/CreateRolePage.tsx:43-53 | the caught text, replaced by the friendly text if it says "already exists" in any case |
| NamedEntityPages.NameError | frontend/src/pages/admin/CreateResourcePage.tsx:74-81 | no error iff non-empty and every character fits the kind's pattern; else the required or pattern text |
| NamedEntityPages.ActionNameRejectsLowercase | frontend/src/pages/admin/CreateActionPage.tsx:75-81 | an action name with a lower-case letter is refused with the pattern text |
| NamedEntityPages.CreateSubmit | frontend/src/pages/admin/CreateResourcePage.tsx:25-39 | a blank name shows "… name cannot be empty."; otherwise the trimmed name is posted to the kind's path |
| NamedEntityPages.ValidatedCreateSendsInput | frontend/src/pages/admin/CreateResourcePage.tsx:27-39 | a name that passed the form rule is posted unchanged |
| NamedEntityPages.CreateErrorText | frontend/src/pages/admin/CreateResourcePage.tsx:44-54 | by cases: the server's text, else the error's own message, else "Failed to create resource." (or "action."); whichever is picked, if it holds "already exists" in any casing the page shows "<Kind> name \"<name>\" already exists. Please choose a different name." instead |
| NamedEntityPages.CreateDefaultIsNoConflict | frontend/src/pages/admin/CreateResourcePage.tsx:44-50 | the fallback text never passes the "already exists" test, so a non-Axios throw always shows the fallback |
| NamedEntityPages.EditSubmit | frontend/src/pages/admin/EditResourcePage.tsx:55-77 | missing id, then blank name, show their errors; an unchanged name navigates back; otherwise the trimmed name is put to the kind's path plus the id |
| NamedEntityPages.EditSendsOnlyChanges | frontend/src/pages/admin/EditResourcePage.tsx:61-77 | a request is sent iff the id is present and the trimmed name is non-empty and new; it carries that name; editing never posts |
| NamedEntityPages.EditUnchangedNameNoRequest | frontend/src/pages/admin/EditResourcePage.tsx:66-70 | resubmitting the stored valid name sends nothing |
| NamedEntityPages.EditErrorText | frontend/src/pages/admin/EditResourcePage.tsx:82-87 | server text, else "Failed to update … name."; a plain Error shows its message |
| NamedEntityPages.EditErrorIgnoresAxiosMessage | frontend/src/pages/admin/EditResourcePage.tsx:84 | the Axios message never reaches the edit page's text |

## Left out

- Persistence: cascades, join tables and timestamps. Deletes remove only the entry; readers skip dangling ids. `createdAt` and `updatedAt` and their conversion in `UserResponseDto.fromEntity` are not modelled.
- RoleService.CreateRole: Role.java is not part of this model. A null role name is taken to fail on save like the resource and action names; the controller's `@NotNull` normally stops it earlier.
- Password hashing: BCrypt is the function parameter `encode`. The authentication manager is the parameter `verdict` of `AuthenticationService.Authenticate`.
- Signing and parsing: HS256 and Base64 key decoding are modelled by the `Token` datatype (claims plus key, or unreadable text), not by bytes.
- JwtService: the code reads the clock twice per call; the model uses one instant, `nowMs`.
- JwtService.Enumerate: the `HashSet` order is left open. Proofs that depend on the roles claim's order only use a user's single role authority.
- `jwtDecode` in the browser is the function parameter `decode` of `AuthProvider`.
- Controllers, `@PreAuthorize`, bean validation, the JWT filter and the configuration classes are not modelled.
- Side effects with no bearing on state are not modelled: toasts other than the error interceptor's text, `alert`, `navigate`, `setTimeout`, console output and React rendering.
- EditRolePage: the order of keys in the grouped object is not modelled, because a map is unordered.
- EditRolePage: two toggles in flight at once are not interleaved. `BeginToggle` and `FinishToggle` are separate methods, but `HandlePermissionChange` runs them in sequence.
- EditRolePage: the data fetch and the description form are not modelled; they are plain request and response handling.
- The edit pages' data-fetch effects, the list, view and edit-user pages, LoginPage and RoleResponseDto are not part of this model.
- CreateUserPage: the page posts a `roleId`, while the backend's user DTO takes a role name. The model states each side as written and does not join them.
- Strings are sequences of characters. `length` counts characters, not UTF-16 code units, and upper- and lower-casing are ASCII only.
- No client code refreshes tokens: the error interceptor never retries and never calls /auth/refresh (`ApiClient.OnResponseError`).
- AuthContext: the 401 handler removes the stored token but does not tell the context, so the context keeps a stale token until reload (`AuthContext.UnauthorizedLeavesContextStale`).

## Findings

| source | as written | input that shows it | evidently intended | confidence | as-written member | corrected member |
|---|---|---|---|---|---|---|
| frontend/src/components/ProtectedRoute.tsx:10-11 | destructures `userDetails` from the auth context and reads `userDetails.roles`, but the context value (frontend/src/context/AuthContext.tsx:121-130) has no such key | any render: `userDetails` is undefined and reading `.roles` throws a TypeError | read `roles` from the context directly | high (not executed) | ProtectedRoute.RenderAsWritten, ProtectedRoute.RenderAsWrittenAlwaysThrows | ProtectedRoute.Decide |
| frontend/src/pages/admin/EditRolePage.tsx:157-162 | groups permissions into a plain `{}` object, so keys inherited from `Object.prototype` are already "present" | a resource named `constructor` (accepted by the resource name rule): `acc["constructor"]` is a function, so `.push` throws | group into an object without a prototype, or into a `Map` | high (not executed) | EditRolePage.GroupPermissionsAsWritten, EditRolePage.PrototypeNamedResourceAccepted | EditRolePage.GroupPermissions |
| src/main/java/org/cloven/rbac_sample/services/AuthenticationService.java:85-92 | relies on `isTokenValid` to refuse an expired refresh token, but the parser already throws ExpiredJwtException at line 76 | a stored user's refresh token after its expiry: the result is the parser's Expired error, never "Invalid refresh token" | an expired refresh token answered with "Invalid refresh token" (BadCredentials) | medium (not executed) | AuthenticationService.RefreshToken, AuthenticationService.RefreshTokenNeverInvalid, AuthenticationService.ExpiredRefreshTokenEscapes | AuthenticationService.RefreshTokenChecked, AuthenticationService.RefreshTokenCheckedMeaning |
