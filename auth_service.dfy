/**
 * The `AuthService` bean: it mutates `User` entities through their fields
 * and saves them through the repositories, and each public operation is
 * proved to leave the tables exactly as the matching rule in `AuthRules`
 * says.
 */
module Auth {
  import opened Wrappers
  import opened JavaText
  import opened Domain
  import opened Store
  import opened SessionContext
  import opened AuthRules

  class AuthService {
    const store: IdentityStore
    const encoder: PasswordEncoder
    const tokens: TokenIssuer

    constructor (store: IdentityStore, encoder: PasswordEncoder, tokens: TokenIssuer)
      ensures this.store == store && this.encoder == encoder && this.tokens == tokens
    {
      this.store := store;
      this.encoder := encoder;
      this.tokens := tokens;
    }

    /** `login`: reads the user table only. */
    method Login(req: LoginRequest, now: Timestamp) returns (r: Result<LoginResponse, Error>)
      requires TableIntegrity(store.users)
      ensures r == AuthRules.Login(store.users, encoder, tokens, req, now)
    {
      var found := store.FindByCpf(req.cpf);
      if found.None? {
        return Failure(NotFound);
      }
      var user := found.value;
      if !encoder.matches(req.password, user.passwordHash) {
        return Failure(InvalidPassword);
      }
      if user.status != Some(UserStatus.Active) {
        return Failure(UserNotActive);
      }
      var token := tokens(user.Row(), now);
      r := Success(LoginResponse(user.name, user.email, token, user.phoneNumber));
    }

    /** `checkCpf`: fails exactly when some stored user already has this CPF. */
    method CheckCpf(cpf: string) returns (r: Outcome<Error>)
      requires TableIntegrity(store.users)
      ensures r.Fail? <==> CpfTaken(store.users, cpf)
      ensures r.Fail? ==> r.error == CpfAlreadyExists
    {
      var found := store.FindByCpf(cpf);
      r := if found.Some? then Fail(CpfAlreadyExists) else Pass;
    }

    /** `checkEmail`: fails exactly when some stored user already has this e-mail. */
    method CheckEmail(email: string) returns (r: Outcome<Error>)
      ensures r.Fail? <==> EmailTaken(store.users, email)
      ensures r.Fail? ==> r.error == EmailAlreadyExists
    {
      var found := store.ExistsByEmail(email);
      r := if found then Fail(EmailAlreadyExists) else Pass;
    }

    /** `buildUser`: a new entity holding the request's fields, the encoded password and a zero balance. */
    method BuildUser(req: UserRequest) returns (user: User)
      ensures fresh(user)
      ensures user.Row() == AuthRules.BuildUser(req, encoder)
      ensures user.id.None?
    {
      user := new User();
      user.name := req.name;
      user.email := req.email;
      user.cpf := Some(req.cpf);
      user.passwordHash := Some(encoder.encode(req.password));
      user.imageUrl := req.imageUrl;
      user.balance := Some(0);
      user.phoneNumber := None;
    }

    /** `createWallet`: adds the (user, category) wallet with balance zero unless it already exists. */
    method CreateWallet(userId: UserId, t: WalletType)
      modifies store
      ensures store.wallets == Store.CreateWallet(old(store.wallets), userId, t)
      ensures store.users == old(store.users) && store.nextId == old(store.nextId)
    {
      var existing := store.FindWallet(userId, t);
      if existing.Some? {
        return;
      }
      store.SaveWallet(Wallet(userId, t, 0));
    }

    /** The body the four `register*` operations share, for the role each one grants. */
    method Register(req: UserRequest, role: UserRole, now: Timestamp) returns (r: Result<UserResponse, Error>)
      requires TableIntegrity(store.users)
      modifies store
      ensures Step(r, store.Tables()) == AuthRules.Register(old(store.Tables()), req, role, encoder, now)
      ensures old(store.Valid()) ==> store.Valid()
    {
      var check := CheckRequest(req);
      if check.Fail? {
        return Failure(check.error);
      }
      var saved := SaveNewUser(req, role, now);
      r := Success(MapToResponse(saved));
    }

    /** The checks every registration runs first: the CPF, then the e-mail when it is neither null nor blank. */
    method CheckRequest(req: UserRequest) returns (r: Outcome<Error>)
      requires TableIntegrity(store.users)
      ensures r == Fail(CpfAlreadyExists) <==> CpfTaken(store.users, req.cpf)
      ensures r == Fail(EmailAlreadyExists) <==>
                !CpfTaken(store.users, req.cpf) && EmailChecked(req.email) && EmailTaken(store.users, req.email.value)
      ensures r.Fail? ==> r == Fail(CpfAlreadyExists) || r == Fail(EmailAlreadyExists)
    {
      r := CheckCpf(req.cpf);
      if r.Pass? && req.email.Some? && !IsBlank(req.email.value) {
        r := CheckEmail(req.email.value);
      }
    }

    /**
     * The part of a registration after the checks: build the entity, give it
     * its role and status, save it, and create its wallet.
     */
    method SaveNewUser(req: UserRequest, role: UserRole, now: Timestamp) returns (saved: UserRow)
      modifies store
      ensures saved == SavedRow(req, role, encoder, now, old(store.nextId))
      ensures store.users == old(store.users)[old(store.nextId) := saved]
      ensures store.wallets == Store.CreateWallet(old(store.wallets), old(store.nextId), WalletTypeOf(role))
      ensures store.nextId == old(store.nextId) + 1
    {
      var user := BuildUser(req);
      user.roles := {role};
      user.status := Some(InitialStatus(role));
      store.Insert(user, now);
      CreateWallet(user.id.value, WalletTypeOf(role));
      saved := user.Row();
    }

    method RegisterPassenger(req: UserRequest, now: Timestamp) returns (r: Result<UserResponse, Error>)
      requires TableIntegrity(store.users)
      modifies store
      ensures Step(r, store.Tables()) == AuthRules.Register(old(store.Tables()), req, UserRole.Passenger, encoder, now)
      ensures old(store.Valid()) ==> store.Valid()
    {
      r := Register(req, UserRole.Passenger, now);
    }

    method RegisterAdmin(req: UserRequest, now: Timestamp) returns (r: Result<UserResponse, Error>)
      requires TableIntegrity(store.users)
      modifies store
      ensures Step(r, store.Tables()) == AuthRules.Register(old(store.Tables()), req, UserRole.Admin, encoder, now)
      ensures old(store.Valid()) ==> store.Valid()
    {
      r := Register(req, UserRole.Admin, now);
    }

    method RegisterDriver(req: UserRequest, now: Timestamp) returns (r: Result<UserResponse, Error>)
      requires TableIntegrity(store.users)
      modifies store
      ensures Step(r, store.Tables()) == AuthRules.Register(old(store.Tables()), req, UserRole.Driver, encoder, now)
      ensures old(store.Valid()) ==> store.Valid()
    {
      r := Register(req, UserRole.Driver, now);
    }

    method RegisterInfluencer(req: UserRequest, now: Timestamp) returns (r: Result<UserResponse, Error>)
      requires TableIntegrity(store.users)
      modifies store
      ensures Step(r, store.Tables()) == AuthRules.Register(old(store.Tables()), req, UserRole.Influencer, encoder, now)
      ensures old(store.Valid()) ==> store.Valid()
    {
      r := Register(req, UserRole.Influencer, now);
    }

    /**
     * The tail every `addRole*` shares: `role` joins the entity's roles, the
     * entity is saved, and the wallet of the matching category is created.
     */
    method SaveGrant(user: User, role: UserRole)
      requires user.id.Some? && user.id.value in store.users
      requires user.Row() == store.users[user.id.value].(cnhImageUrl := user.cnhImageUrl,
                                                          carDocumentImageUrl := user.carDocumentImageUrl)
      modifies store, user
      ensures store.Tables() == GrantRole(old(store.Tables()), old(user.id.value), role,
                                          old(user.cnhImageUrl), old(user.carDocumentImageUrl))
    {
      user.roles := user.roles + {role};
      store.Update(user);
      CreateWallet(user.id.value, WalletTypeOf(role));
    }

    /**
     * `addRoleDriver`, with the two documents already uploaded: `cnhUrl` and
     * `carUrl` are the URLs the file store returned.
     */
    method AddRoleDriver(auth: Option<Authentication>, cnhUrl: string, carUrl: string) returns (r: Outcome<Error>)
      requires TableIntegrity(store.users)
      modifies store
      ensures Step(r, store.Tables()) == AuthRules.AddRoleDriver(old(store.Tables()), auth, cnhUrl, carUrl)
      ensures old(store.Valid()) ==> store.Valid()
    {
      var found := LoadUser(store, auth);
      if found.Failure? {
        return Fail(found.error);
      }
      var user := found.value;
      if UserRole.Driver in user.roles {
        return Fail(RoleAlreadyHeld(UserRole.Driver));
      }
      user.cnhImageUrl := Some(cnhUrl);
      user.carDocumentImageUrl := Some(carUrl);
      SaveGrant(user, UserRole.Driver);
      r := Pass;
    }

    /** `addRoleInfluencer`. */
    method AddRoleInfluencer(userId: UserId) returns (r: Outcome<Error>)
      requires TableIntegrity(store.users)
      modifies store
      ensures Step(r, store.Tables()) == AuthRules.AddRoleInfluencer(old(store.Tables()), userId)
      ensures old(store.Valid()) ==> store.Valid()
    {
      var found := store.FindById(userId);
      if found.None? {
        return Fail(NotFound);
      }
      var user := found.value;
      if UserRole.Influencer in user.roles {
        return Fail(RoleAlreadyHeld(UserRole.Influencer));
      }
      SaveGrant(user, UserRole.Influencer);
      r := Pass;
    }

    /** `addRoleAdmin`. */
    method AddRoleAdmin(cpf: string) returns (r: Outcome<Error>)
      requires TableIntegrity(store.users)
      modifies store
      ensures Step(r, store.Tables()) == AuthRules.AddRoleAdmin(old(store.Tables()), cpf)
      ensures old(store.Valid()) ==> store.Valid()
    {
      var found := store.FindByCpf(cpf);
      if found.None? {
        return Fail(NotFound);
      }
      var user := found.value;
      if UserRole.Admin in user.roles {
        return Fail(RoleAlreadyHeld(UserRole.Admin));
      }
      SaveGrant(user, UserRole.Admin);
      r := Pass;
    }
  }
}
