# Ride identity and roles, modelled in Dafny

This project models the identity and role core of the `ride` backend, a
ride-hailing service. Users are identified by their CPF (the Brazilian
national ID) and log in with a password. Each user holds one or more
functional roles (PASSENGER, DRIVER, ADMIN, INFLUENCER), and every held role
is backed by a wallet of the matching category (ADMIN uses the COMPANY
wallet). Each user also has a lifecycle status: ACTIVE, BLOCKED or
PENDING_APPROVAL.

The model has two layers:

- **Rule functions.** `AuthRules` and `UserRules` describe each service operation as a pure function from the two tables (`Store.Db`: users keyed by id, wallets keyed by owner and category, and the next identity value) to the operation's result and the tables it leaves behind.
   - Their contracts state what the code promises: error cases, the fields of a new user, add-only role grants, "nothing else changes", and preservation of the store invariant `Store.Inv`.
   - `Store.Inv` says that CPFs are present and unique, that checked e-mails are unique, that every stored user is fully registered, that every held role has its wallet, and that every wallet belongs to a stored user.
- **Imperative classes.** `Auth.AuthService` and `Users.UserService` mirror the Spring beans. They load `Domain.User` entities, set fields on them, save them through `Store.IdentityStore` (whose `users` and `wallets` maps stand for the two repositories), and create wallets.
   - Each public method is proved to return exactly what the matching rule function returns and to leave the repository in exactly the state that function describes.

`SessionContext` resolves the caller from an explicit `Authentication` value, modelling `AuthenticatedUserUtils`. `Lifecycle` treats any sequence of state-changing calls as a trace. It proves three things about traces:

- every reachable store satisfies the invariant;
- users, wallets, identities and roles are never lost;
- a driver who has just registered cannot log in with any password, whatever calls follow, until that driver itself calls `setUserStatus`; with an encoder that accepts its own encodings, the registered password gets the not-active error; alongside this, single-step scenarios such as a non-driver logging in right after registering, or any user logging in right after setting itself ACTIVE.

The following are parameters of the model rather than behaviour it defines:

- The password encoder (`encode`, `matches`).
- The token issuer.
- The URLs returned by the file store.
- The current time.

Three behaviours of the code worth knowing, all modelled as written:

- `login` reports a missing CPF as `NotFound` and a wrong password as `InvalidPassword`, so a caller can tell whether a CPF is registered.
- The e-mail uniqueness check is skipped for a null or *blank* e-mail (`String.isBlank`), so an e-mail made only of whitespace is never checked, not merely an empty one. `JavaText.IsWhitespace` models `Character.isWhitespace`.
- `addRoleDriver` grants DRIVER immediately and leaves the status unchanged, while `registerDriver` starts the user in PENDING_APPROVAL. Both behaviours are kept.

## Model

| member | source | states |
|---|---|---|
| Domain.WalletTypeOf | src/main/java/com/ride/service/AuthService.java:70 | the wallet category of each role: COMPANY exactly for ADMIN, and otherwise the category of the same name (also lines 87, 104, 121, 143, 156, 169) |
| Domain.WalletTypeOfInjective | src/main/java/com/ride/service/AuthService.java:58-124 | the role-to-wallet mapping used by registration and role grants (PASSENGER→PASSENGER, ADMIN→COMPANY, DRIVER→DRIVER, INFLUENCER→INFLUENCER) gives distinct roles distinct wallet categories |
| Domain.PersistDefaults | src/main/java/com/ride/domain/User.java:88-95 | the persist hook always sets the creation time; a null balance becomes zero and forces ACTIVE; a non-null balance leaves balance and status alone; no other field changes |
| Domain.PersistKeepsPresetStatus | src/main/java/com/ride/domain/User.java:91-94 | with the balance already zero (as `buildUser` sets it) the hook keeps whatever status was set before saving, e.g. PENDING_APPROVAL |
| Domain.User.constructor | src/main/java/com/ride/domain/User.java:71-76 | a new entity has every field null and an empty role set |
| Domain.User.Load | src/main/java/com/ride/service/AuthService.java:148-149 | an entity loaded from a stored row holds exactly that row's fields |
| Domain.User.OnCreate | src/main/java/com/ride/domain/User.java:88-95 | the hook updates the entity's fields in place exactly as `PersistDefaults` describes |
| Store.FindIdByCpf | src/main/java/com/ride/domain/User.java:53-54 | the CPF lookup finds nothing exactly when no stored user has the CPF, and otherwise the one stored user with it |
| Store.CpfOwnerUnique | src/main/java/com/ride/domain/User.java:53-54 | under the table constraints at most one stored user carries a given CPF |
| Store.StoredEntitiesEqualIffSameKey | src/main/java/com/ride/domain/User.java:38-45 | two stored users are equal entities (id-only equality) exactly when they are the same row |
| Store.CreateWallet | src/main/java/com/ride/service/AuthService.java:172-183 | `createWallet` adds exactly the (user, category) key; an existing wallet is left untouched and nothing changes; otherwise one wallet with balance zero is added |
| Store.CreateWalletIdempotent | src/main/java/com/ride/service/AuthService.java:172-176 | creating the same wallet twice is the same as creating it once |
| Store.InsertKeepsIntegrity | src/main/java/com/ride/domain/User.java:53-54 | inserting under a fresh key with an unused CPF keeps CPFs present and unique |
| Store.InsertKeepsEmailUnique | src/main/java/com/ride/service/AuthService.java:185-190 | inserting a user whose checked e-mail is unused keeps checked e-mails unique |
| Store.UpdateKeepsUniqueness | src/main/java/com/ride/domain/User.java:53-54 | overwriting a row without touching id, CPF or e-mail keeps both uniqueness conditions |
| Store.UpdateKeepsInv | src/main/java/com/ride/service/AuthService.java:138-143 | overwriting a stored user with a registered row whose roles all have wallets, adding only zero-balance wallets of that user, keeps the invariant |
| Store.UpdateKeepsWallets | src/main/java/com/ride/service/AuthService.java:140-143 | the same update keeps every held role backed by a wallet and every wallet owned by a stored user |
| Store.InsertKeepsWallets | src/main/java/com/ride/service/AuthService.java:69-70 | inserting a one-role user together with its wallet keeps every held role backed |
| Store.InsertKeepsRegistered | src/main/java/com/ride/service/AuthService.java:65-69 | inserting a registered row under the next id keeps all keys below the next id and all rows registered |
| Store.InsertKeepsInv | src/main/java/com/ride/service/AuthService.java:65-70 | saving a new registered user with an unused CPF and unused checked e-mail, plus the wallet of its role, keeps the invariant |
| Store.ProfileEditKeepsInv | src/main/java/com/ride/service/UserService.java:41-69 | overwriting a user without touching identity fields or roles, and keeping it registered, keeps the invariant |
| Store.RoleGrantKeepsInv | src/main/java/com/ride/service/AuthService.java:138-143 | adding a role, setting document URLs and creating the matching wallet keeps the invariant |
| Store.IdentityStore.constructor | src/main/java/com/ride/domain/User.java:42-45 | the empty database satisfies the invariant; the identity column starts at 1 |
| Store.IdentityStore.FindByCpf | src/main/java/com/ride/service/AuthService.java:43-44 | `findByCpf` returns an entity exactly when the CPF is stored, holding that stored row |
| Store.IdentityStore.FindById | src/main/java/com/ride/service/AuthService.java:148-149 | `findById` returns an entity exactly when the id is stored, holding that row |
| Store.IdentityStore.ExistsByEmail | src/main/java/com/ride/service/AuthService.java:185-189 | an e-mail lookup succeeds exactly when some stored user has that e-mail |
| Store.IdentityStore.Insert | src/main/java/com/ride/service/AuthService.java:69 | saving a new entity runs the persist hook, gives it the next id and stores it; wallets are untouched |
| Store.IdentityStore.Update | src/main/java/com/ride/service/AuthService.java:142 | saving an entity whose id is stored overwrites exactly that row; the counter and the wallets stay |
| Store.IdentityStore.FindWallet | src/main/java/com/ride/service/AuthService.java:173 | the wallet lookup by (user, category) is a key lookup |
| Store.IdentityStore.SaveWallet | src/main/java/com/ride/service/AuthService.java:182 | saving a wallet stores it under its owner and category; users are untouched |
| SessionContext.GetCpf | src/main/java/com/ride/config/AuthenticatedUserUtils.java:17-33 | fails with no-authenticated-user exactly for a missing, unauthenticated or principal-less authentication, fails for any other principal kind, and otherwise yields the UserDetails username or the String principal |
| SessionContext.GetCpfOfNamedPrincipal | src/main/java/com/ride/config/AuthenticatedUserUtils.java:26-29 | a UserDetails principal yields its username; a String principal yields itself unchanged |
| SessionContext.GetUser | src/main/java/com/ride/config/AuthenticatedUserUtils.java:35-38 | passes the `getCpf` error through; fails with an illegal-state error exactly when no user has the caller's CPF; a stored CPF always succeeds, returning the stored user with that CPF |
| SessionContext.LoadUser | src/main/java/com/ride/config/AuthenticatedUserUtils.java:35-38 | the entity the services receive from `getUser` is a fresh copy of the stored caller, with the same errors |
| AuthRules.Login | src/main/java/com/ride/service/AuthService.java:41-56 | not-found exactly when no user has the CPF; then invalid password exactly when the hash does not match; then not-active exactly for a matching password and a status other than ACTIVE; otherwise the user's name, e-mail, phone and a token |
| AuthRules.Register | src/main/java/com/ride/service/AuthService.java:58-124 | duplicate CPF rejected first, then a duplicate non-blank e-mail; a request with neither conflict always succeeds; failures change nothing; success adds exactly one user under the next id with the request's fields, encoded password, zero balance, no phone, the one role and its status, plus its wallet; the invariant is kept |
| AuthRules.BuildUser | src/main/java/com/ride/service/AuthService.java:199-209 | the built row has the request's name, e-mail, CPF and image, the encoded password, balance zero and no phone; every other field is as in a new entity |
| AuthRules.MapToResponse | src/main/java/com/ride/service/AuthService.java:211-213 | the response carries the saved user's id, name and e-mail |
| AuthRules.InitialStatus | src/main/java/com/ride/service/AuthService.java:99-101 | registration starts a user in PENDING_APPROVAL exactly when the role is DRIVER, and otherwise ACTIVE (also lines 67, 84, 118); never BLOCKED |
| AuthRules.SavedRow | src/main/java/com/ride/service/AuthService.java:199-209 | the row registration saves has exactly the fields `buildUser`, the role, the status policy and the persist hook give it, and is registered |
| AuthRules.AddUser | src/main/java/com/ride/service/AuthService.java:69-70 | storing the new user and its wallet keeps the invariant; the next id and the wallet key were unused |
| AuthRules.GrantRole | src/main/java/com/ride/service/AuthService.java:138-143 | a grant adds exactly the role, keeps every other role, field, status and user, sets the document URLs, creates the wallet and keeps the invariant |
| AuthRules.AddRoleDriver | src/main/java/com/ride/service/AuthService.java:126-144 | caller errors pass through; already a driver is an error; otherwise DRIVER is granted with both document URLs and the status is not touched; failures change nothing |
| AuthRules.AddRoleInfluencer | src/main/java/com/ride/service/AuthService.java:146-157 | not-found exactly for an unknown id; already an influencer is an error; otherwise INFLUENCER is granted and documents are kept; failures change nothing |
| AuthRules.AddRoleAdmin | src/main/java/com/ride/service/AuthService.java:159-170 | not-found exactly for an unknown CPF; already an admin is an error; otherwise ADMIN is granted with the COMPANY wallet; failures change nothing |
| UserRules.FindAll | src/main/java/com/ride/service/UserService.java:28-30 | every stored user is listed, and every listed user is the stored row under its own id |
| UserRules.FindAllCount | src/main/java/com/ride/service/UserService.java:28-30 | `findAll` lists exactly as many users as are stored |
| UserRules.FindUser | src/main/java/com/ride/service/UserService.java:32-39 | the caller's name, e-mail and phone number, or the error resolving the caller |
| UserRules.UpdateUserAddPhoneNumber | src/main/java/com/ride/service/UserService.java:41-48 | not-found exactly for an unknown id; otherwise only that user's phone number changes, null included |
| UserRules.Edited | src/main/java/com/ride/service/UserService.java:53-57 | the name is always replaced (even by null); the phone number only by a non-null value; nothing else changes |
| UserRules.UpdateUser | src/main/java/com/ride/service/UserService.java:50-61 | caller errors pass through and change nothing; otherwise the caller's row becomes the edited row and the result is its id, new name and e-mail |
| UserRules.SetUserStatus | src/main/java/com/ride/service/UserService.java:63-69 | the caller's status becomes the given one from any prior status; no other field or user changes |
| Auth.AuthService.Login | src/main/java/com/ride/service/AuthService.java:41-56 | returns exactly `AuthRules.Login` of the current users and changes nothing |
| Auth.AuthService.CheckCpf | src/main/java/com/ride/service/AuthService.java:192-197 | fails, with the CPF conflict, exactly when the CPF is stored |
| Auth.AuthService.CheckEmail | src/main/java/com/ride/service/AuthService.java:185-190 | fails, with the e-mail conflict, exactly when the e-mail is stored |
| Auth.AuthService.CheckRequest | src/main/java/com/ride/service/AuthService.java:60-63 | the CPF conflict exactly for a stored CPF; otherwise the e-mail conflict exactly for a stored non-blank e-mail |
| Auth.AuthService.BuildUser | src/main/java/com/ride/service/AuthService.java:199-209 | a fresh entity holding exactly `AuthRules.BuildUser`'s fields and no id |
| Auth.AuthService.CreateWallet | src/main/java/com/ride/service/AuthService.java:172-183 | the wallet repository ends as `Store.CreateWallet` of its old contents; users untouched |
| Auth.AuthService.SaveNewUser | src/main/java/com/ride/service/AuthService.java:65-70 | saves exactly `AuthRules.SavedRow` under the old next id and creates its wallet |
| Auth.AuthService.Register | src/main/java/com/ride/service/AuthService.java:58-73 | result and final tables are exactly `AuthRules.Register`'s; a valid store stays valid |
| Auth.AuthService.RegisterPassenger | src/main/java/com/ride/service/AuthService.java:58-73 | exactly `AuthRules.Register` with PASSENGER; a valid store stays valid |
| Auth.AuthService.RegisterAdmin | src/main/java/com/ride/service/AuthService.java:75-90 | exactly `AuthRules.Register` with ADMIN; a valid store stays valid |
| Auth.AuthService.RegisterDriver | src/main/java/com/ride/service/AuthService.java:92-107 | exactly `AuthRules.Register` with DRIVER; a valid store stays valid |
| Auth.AuthService.RegisterInfluencer | src/main/java/com/ride/service/AuthService.java:109-124 | exactly `AuthRules.Register` with INFLUENCER; a valid store stays valid |
| Auth.AuthService.SaveGrant | src/main/java/com/ride/service/AuthService.java:140-143 | adding the role in place, saving and creating the wallet leaves the tables exactly as `AuthRules.GrantRole` |
| Auth.AuthService.AddRoleDriver | src/main/java/com/ride/service/AuthService.java:126-144 | result and final tables are exactly `AuthRules.AddRoleDriver`'s; a valid store stays valid |
| Auth.AuthService.AddRoleInfluencer | src/main/java/com/ride/service/AuthService.java:146-157 | result and final tables are exactly `AuthRules.AddRoleInfluencer`'s; a valid store stays valid |
| Auth.AuthService.AddRoleAdmin | src/main/java/com/ride/service/AuthService.java:159-170 | result and final tables are exactly `AuthRules.AddRoleAdmin`'s; a valid store stays valid |
| Users.UserService.UpdateUserAddPhoneNumber | src/main/java/com/ride/service/UserService.java:41-48 | result and final tables are exactly `UserRules.UpdateUserAddPhoneNumber`'s; a valid store stays valid |
| Users.UserService.UpdateUser | src/main/java/com/ride/service/UserService.java:50-61 | result and final tables are exactly `UserRules.UpdateUser`'s; a valid store stays valid |
| Users.UserService.SetUserStatus | src/main/java/com/ride/service/UserService.java:63-69 | result and final tables are exactly `UserRules.SetUserStatus`'s; a valid store stays valid |
| Lifecycle.Apply | src/main/java/com/ride/service/AuthService.java:58-170 | every state-changing call keeps the store invariant |
| Lifecycle.Run | src/main/java/com/ride/service/AuthService.java:58-170 | every sequence of calls (registrations, role grants, and the updates of UserService.java:41-69) keeps the store invariant |
| Lifecycle.ReachableStoresAreConsistent | src/main/java/com/ride/domain/User.java:53-54 | the empty store, and every store reached from it, satisfies the invariant |
| Lifecycle.GrowsTransitive | src/main/java/com/ride/service/AuthService.java:138-169 | the never-undo relation composes |
| Lifecycle.RegisterGrows | src/main/java/com/ride/service/AuthService.java:58-124 | registration removes nothing and leaves every previously stored user exactly as it was |
| Lifecycle.GrantGrows | src/main/java/com/ride/service/AuthService.java:138-143 | a role grant removes nothing and only adds roles |
| Lifecycle.AddRoleDriverGrows | src/main/java/com/ride/service/AuthService.java:126-144 | `addRoleDriver` removes nothing and takes no role away |
| Lifecycle.AddRoleInfluencerGrows | src/main/java/com/ride/service/AuthService.java:146-157 | `addRoleInfluencer` removes nothing and takes no role away |
| Lifecycle.AddRoleAdminGrows | src/main/java/com/ride/service/AuthService.java:159-170 | `addRoleAdmin` removes nothing and takes no role away |
| Lifecycle.UpdatePhoneGrows | src/main/java/com/ride/service/UserService.java:41-48 | the phone update keeps identity, credentials and roles |
| Lifecycle.UpdateUserGrows | src/main/java/com/ride/service/UserService.java:50-61 | the profile update keeps identity, credentials and roles |
| Lifecycle.SetStatusGrows | src/main/java/com/ride/service/UserService.java:63-69 | the status update keeps identity, credentials and roles |
| Lifecycle.ApplyGrows | src/main/java/com/ride/service/AuthService.java:58-170 | no single call removes a user or wallet, changes a user's id, CPF, e-mail, password hash, creation time or balance, or takes a role away |
| Lifecycle.RunGrows | src/main/java/com/ride/service/AuthService.java:58-170 | the same holds across any sequence of calls |
| Lifecycle.RegisterThenLogin | src/main/java/com/ride/service/AuthService.java:46-55 | with an encoder that accepts its own encodings, a just-registered user logs in with its password unless it is a driver, who is told it is not active |
| Lifecycle.GrantKeepsStatus | src/main/java/com/ride/service/AuthService.java:138-143 | a role grant leaves every user's status as it was |
| Lifecycle.SetStatusKeepsOthers | src/main/java/com/ride/service/UserService.java:63-69 | `setUserStatus` leaves the status of every user other than the caller as it was |
| Lifecycle.ApplyKeepsStatus | src/main/java/com/ride/service/AuthService.java:58-170 | any call other than the user's own `setUserStatus` leaves that user's status as it was |
| Lifecycle.RunKeepsStatus | src/main/java/com/ride/service/UserService.java:63-69 | the same over any sequence of calls that contains no `setUserStatus` made by that user |
| Lifecycle.PendingDriverCannotLogIn | src/main/java/com/ride/service/AuthService.java:50-52 | a just-registered driver, after any calls none of which is its own `setUserStatus`, is still told it is not active when it logs in with its password |
| Lifecycle.PendingDriverNeverLogsIn | src/main/java/com/ride/service/AuthService.java:50-52 | for any password and any encoder, a just-registered driver does not log in after any calls none of which is its own `setUserStatus` |
| Lifecycle.ApprovedDriverLogsIn | src/main/java/com/ride/service/UserService.java:63-69 | after `setUserStatus(ACTIVE)` by the user itself, the right password logs it in, whatever its previous status |
| Lifecycle.InfluencerGrantedOnce | src/main/java/com/ride/service/AuthService.java:151-153 | a second INFLUENCER grant fails with the role-held error and changes nothing |
| Lifecycle.AdminGrantedOnce | src/main/java/com/ride/service/AuthService.java:164-166 | a second ADMIN grant fails with the role-held error and changes nothing |
| Lifecycle.TwoUsersWithoutEmail | src/main/java/com/ride/service/AuthService.java:61-63 | two users whose e-mails are null or blank can both register, in any roles, when their CPFs differ |
| Lifecycle.CpfRegisteredOnce | src/main/java/com/ride/service/AuthService.java:60 | registering a CPF that was just registered fails with the CPF conflict and changes nothing, whatever the roles |

## Left out

- The session token: `JWTTokenProvider` (HMAC signing, parsing, expiry from the wall clock) is not part of this model. `login`'s token is the value of an uninterpreted `TokenIssuer` applied to the user and the instant. `generateJwtToken` reads a single `role` that `User` does not have, so no role claim is modelled.
- Password hashing: `PasswordEncoder` is a pair of uninterpreted functions. The only property assumed of it, that a password matches its own encoding (`AuthRules.Sound`), is a precondition of `Lifecycle.RegisterThenLogin` and `Lifecycle.PendingDriverCannotLogIn` only. `Lifecycle.PendingDriverNeverLogsIn` does not assume it.
- File upload: `FileStorageService` is not part of this model. `AddRoleDriver` receives the two URLs the upload returned. The uploads themselves happen in the code only after the role check, and their side effects on the file store are not modelled.
- The clock: `LocalDateTime.now()` in the persist hook is the `now` parameter.
- Transactions, rollback and concurrency: each service call is one atomic step. The race between the uniqueness checks and the insert under concurrent requests is not modelled.
- Logging is not modelled.
- Bean validation of the CPF check digits is not modelled.
- Request nullability: the request CPF and password are non-null strings in the model. At registration a null CPF would be rejected by the NOT NULL column, and a null password by the encoder. In `login` (AuthService.java:43-44) and `addRoleAdmin` (AuthService.java:161-162), `findByCpf(null)` finds nothing and the code throws `EntityNotFoundException`. The model cannot express a null CPF there.
- `setUserStatus(null)` is not modelled; the status argument is always a value.
- A null `id` passed to `updateUserAddPhoneNumber`, or a null `userId` passed to `addRoleInfluencer`, is not modelled: ids are always values. In the code, `findById(null)` throws.
- A null `UserPhoneNumberRequestDTO` or `UserUpdateDTO` body is not modelled: requests are always values. The code throws a `NullPointerException` at UserService.java:46 or :53.
- `UserRules.FindAll`: returns a set, so the list order of `findAll` is not modelled. No information is lost, since distinct stored users are distinct rows.
- Persistence-context identity: a repository lookup returns a fresh entity holding the stored row. Aliasing between entities loaded twice in one transaction is not modelled.
- Wallets carry only their owner, category and balance. The wallet entity's other columns are not part of this model.
- Money (`BigDecimal`) is an unbounded integer, and the core only ever writes zero.
- Controllers, HTTP routing and `@PreAuthorize` gating are not modelled; the service signatures are modelled as written.
- Lombok-generated `toString`, the builder and the all-arguments constructor are not modelled.
- Invariant preservation is conditional. The rule functions require only what their own lookups need (unique CPFs), and state the invariant as `Inv(db) ==> Inv(after)`. The service classes are proved equal to those functions, and each state-changing service method also ensures that a valid store stays valid (`IdentityStore.Valid`).
