/**
 * What each `AuthService` operation does to the tables, as functions from
 * the tables before the call to the call's result and the tables after it.
 * Every operation is one atomic step (one transaction).
 */
module AuthRules {
  import opened Wrappers
  import opened Domain
  import opened Store
  import opened SessionContext

  /** The registration request: every field but the CPF and password may be null. */
  datatype UserRequest = UserRequest(
    name: Option<string>,
    email: Option<string>,
    cpf: string,
    password: string,
    imageUrl: Option<string>)

  datatype LoginRequest = LoginRequest(cpf: string, password: string)

  datatype LoginResponse = LoginResponse(name: Option<string>, email: Option<string>, token: string, phoneNumber: Option<string>)

  /** The public projection of a user: never the password hash or the documents. */
  datatype UserResponse = UserResponse(id: Option<UserId>, name: Option<string>, email: Option<string>)

  /** The password hashing primitive, left uninterpreted. */
  datatype PasswordEncoder = PasswordEncoder(encode: string -> string, matches: (string, Option<string>) -> bool)

  /** An encoder accepts every password against its own encoding. */
  ghost predicate Sound(encoder: PasswordEncoder)
  {
    forall p :: encoder.matches(p, Some(encoder.encode(p)))
  }

  /** The session token minted for a user at an instant, left uninterpreted. */
  type TokenIssuer = (UserRow, Timestamp) -> string

  /** `buildUser`: the request's fields, the encoded password, balance zero and no phone number. */
  function BuildUser(req: UserRequest, encoder: PasswordEncoder): (r: UserRow)
    ensures r.name == req.name && r.email == req.email && r.imageUrl == req.imageUrl
    ensures r.cpf == Some(req.cpf) && r.passwordHash == Some(encoder.encode(req.password))
    ensures r.balance == Some(0) && r.phoneNumber.None?
    ensures r.(name := None, email := None, cpf := None, passwordHash := None,
               imageUrl := None, balance := None) == FreshRow
  {
    FreshRow.(name := req.name, email := req.email, cpf := Some(req.cpf),
              passwordHash := Some(encoder.encode(req.password)), imageUrl := req.imageUrl,
              balance := Some(0), phoneNumber := None)
  }

  /** `mapToResponse`: the id, name and e-mail of a saved user. */
  function MapToResponse(user: UserRow): (r: UserResponse)
    ensures r.id == user.id && r.name == user.name && r.email == user.email
  {
    UserResponse(user.id, user.name, user.email)
  }

  /** The status registration assigns: drivers await approval, everyone else is active. */
  function InitialStatus(role: UserRole): (s: UserStatus)
    ensures s == UserStatus.PendingApproval <==> role == UserRole.Driver
    ensures s != UserStatus.Blocked
  {
    if role == UserRole.Driver then UserStatus.PendingApproval else UserStatus.Active
  }

  /**
   * `login`: the user is looked up by CPF, then the password is checked, and
   * only then the status; a token is minted only for an ACTIVE user.
   */
  function Login(users: map<UserId, UserRow>, encoder: PasswordEncoder, tokens: TokenIssuer,
                 req: LoginRequest, now: Timestamp): (r: Result<LoginResponse, Error>)
    requires TableIntegrity(users)
    ensures r == Failure(NotFound) <==> !CpfTaken(users, req.cpf)
    ensures forall k :: k in users && users[k].cpf == Some(req.cpf) ==>
              && (r == Failure(InvalidPassword) <==> !encoder.matches(req.password, users[k].passwordHash))
              && (r == Failure(UserNotActive) <==>
                    encoder.matches(req.password, users[k].passwordHash) && users[k].status != Some(UserStatus.Active))
              && (r.Success? <==>
                    encoder.matches(req.password, users[k].passwordHash) && users[k].status == Some(UserStatus.Active))
              && (r.Success? ==>
                    r.value == LoginResponse(users[k].name, users[k].email, tokens(users[k], now), users[k].phoneNumber))
  {
    match FindIdByCpf(users, req.cpf)
    case None => Failure(NotFound)
    case Some(k) =>
      var user := users[k];
      if !encoder.matches(req.password, user.passwordHash) then
        Failure(InvalidPassword)
      else if user.status != Some(UserStatus.Active) then
        Failure(UserNotActive)
      else
        Success(LoginResponse(user.name, user.email, tokens(user, now), user.phoneNumber))
  }

  /** The fields a successful registration gives the new user. */
  predicate RegisteredAs(user: UserRow, id: UserId, req: UserRequest, role: UserRole,
                         encoder: PasswordEncoder, now: Timestamp)
  {
    && user.id == Some(id)
    && user.roles == {role}
    && user.status == Some(InitialStatus(role))
    && user.balance == Some(0)
    && user.phoneNumber == None
    && user.passwordHash == Some(encoder.encode(req.password))
    && user.name == req.name && user.email == req.email
    && user.cpf == Some(req.cpf) && user.imageUrl == req.imageUrl
    && user.cnhImageUrl == None && user.carDocumentImageUrl == None
    && user.createdAt == Some(now)
  }

  /**
   * `registerPassenger`, `registerAdmin`, `registerDriver` and
   * `registerInfluencer`, which differ only in the role granted.
   */
  function Register(db: Db, req: UserRequest, role: UserRole, encoder: PasswordEncoder,
                    now: Timestamp): (r: Step<Result<UserResponse, Error>>)
    ensures Inv(db) ==> Inv(r.after)
    ensures r.result == Failure(CpfAlreadyExists) <==> CpfTaken(db.users, req.cpf)
    ensures r.result == Failure(EmailAlreadyExists) <==>
              !CpfTaken(db.users, req.cpf) && EmailChecked(req.email) && EmailTaken(db.users, req.email.value)
    ensures r.result.Success? <==>
              !CpfTaken(db.users, req.cpf) && !(EmailChecked(req.email) && EmailTaken(db.users, req.email.value))
    ensures r.result.Failure? ==> r.after == db
    ensures r.result.Success? ==>
              && r.result.value == UserResponse(Some(db.nextId), req.name, req.email)
              && db.nextId in r.after.users
              && r.after.users == db.users[db.nextId := r.after.users[db.nextId]]
              && RegisteredAs(r.after.users[db.nextId], db.nextId, req, role, encoder, now)
              && r.after.wallets == CreateWallet(db.wallets, db.nextId, WalletTypeOf(role))
              && r.after.nextId == db.nextId + 1
    ensures Inv(db) && r.result.Success? ==> db.nextId !in db.users && (db.nextId, WalletTypeOf(role)) !in db.wallets
  {
    if CpfTaken(db.users, req.cpf) then
      Step(Failure(CpfAlreadyExists), db)
    else if EmailChecked(req.email) && EmailTaken(db.users, req.email.value) then
      Step(Failure(EmailAlreadyExists), db)
    else
      var saved := SavedRow(req, role, encoder, now, db.nextId);
      Step(Success(MapToResponse(saved)), AddUser(db, saved, role))
  }

  /**
   * The row a registration saves: `buildUser`, then the role and its initial
   * status, then the `@PrePersist` hook (which keeps that status, the balance
   * being already zero), then the generated id.
   */
  function SavedRow(req: UserRequest, role: UserRole, encoder: PasswordEncoder, now: Timestamp, id: UserId): (row: UserRow)
    ensures RegisteredAs(row, id, req, role, encoder, now)
    ensures Registered(row)
  {
    var built := BuildUser(req, encoder).(roles := {role}, status := Some(InitialStatus(role)));
    PersistKeepsPresetStatus(built, now);
    PersistDefaults(built, now).(id := Some(id))
  }

  /**
   * The step every registration shares: the new row is stored under the next
   * id, the wallet of its one role is created, and the id counter advances.
   */
  function AddUser(db: Db, row: UserRow, role: UserRole): (after: Db)
    requires row.id == Some(db.nextId) && row.cpf.Some? && !CpfTaken(db.users, row.cpf.value)
    requires EmailChecked(row.email) ==> !EmailTaken(db.users, row.email.value)
    requires Registered(row) && row.roles == {role}
    ensures Inv(db) ==> Inv(after)
    ensures Inv(db) ==> db.nextId !in db.users && (db.nextId, WalletTypeOf(role)) !in db.wallets
  {
    InsertKeepsInv(db, row, role);
    Db(db.users[db.nextId := row], CreateWallet(db.wallets, db.nextId, WalletTypeOf(role)), db.nextId + 1)
  }

  /**
   * The add-only role transition on user `k`: exactly `role` joins the roles,
   * the status and every other user stay as they were, and the wallet of the
   * matching category exists afterwards. Only the document URLs may change
   * besides the roles.
   */
  predicate RoleGranted(before: Db, after: Db, k: UserId, role: UserRole)
  {
    && k in before.users && k in after.users
    && after.users == before.users[k := after.users[k]]
    && after.users[k] == before.users[k].(roles := before.users[k].roles + {role},
                                          cnhImageUrl := after.users[k].cnhImageUrl,
                                          carDocumentImageUrl := after.users[k].carDocumentImageUrl)
    && after.wallets == CreateWallet(before.wallets, k, WalletTypeOf(role))
    && after.nextId == before.nextId
  }

  /**
   * The step the three role grants share: `role` joins user `k`'s roles, its
   * document URLs become `cnh` and `car`, and the matching wallet is created.
   */
  function GrantRole(db: Db, k: UserId, role: UserRole, cnh: Option<string>, car: Option<string>): (after: Db)
    requires k in db.users
    ensures Inv(db) ==> Inv(after)
    ensures RoleGranted(db, after, k, role)
    ensures after.users[k].cnhImageUrl == cnh && after.users[k].carDocumentImageUrl == car
  {
    RoleGrantKeepsInv(db, k, role, cnh, car);
    var user := db.users[k].(roles := db.users[k].roles + {role}, cnhImageUrl := cnh, carDocumentImageUrl := car);
    db.(users := db.users[k := user], wallets := CreateWallet(db.wallets, k, WalletTypeOf(role)))
  }

  /** `addRoleDriver`: the caller attaches two uploaded documents and becomes a driver. */
  function AddRoleDriver(db: Db, auth: Option<Authentication>, cnhUrl: string, carUrl: string): (r: Step<Outcome<Error>>)
    requires TableIntegrity(db.users)
    ensures Inv(db) ==> Inv(r.after)
    ensures GetUser(auth, db.users).Failure? ==> r.result == Fail(GetUser(auth, db.users).error)
    ensures GetUser(auth, db.users).Success? ==>
              var k := GetUser(auth, db.users).value.id.value;
              && (r.result == Fail(RoleAlreadyHeld(UserRole.Driver)) <==> UserRole.Driver in db.users[k].roles)
              && (r.result.Pass? <==> UserRole.Driver !in db.users[k].roles)
              && (r.result.Pass? ==>
                    && RoleGranted(db, r.after, k, UserRole.Driver)
                    && r.after.users[k].cnhImageUrl == Some(cnhUrl)
                    && r.after.users[k].carDocumentImageUrl == Some(carUrl))
    ensures r.result.Fail? ==> r.after == db
  {
    match GetUser(auth, db.users)
    case Failure(e) => Step(Fail(e), db)
    case Success(user) =>
      if UserRole.Driver in user.roles then
        Step(Fail(RoleAlreadyHeld(UserRole.Driver)), db)
      else
        Step(Pass, GrantRole(db, user.id.value, UserRole.Driver, Some(cnhUrl), Some(carUrl)))
  }

  /** `addRoleInfluencer`: an administrator grants INFLUENCER to the user with this id. */
  function AddRoleInfluencer(db: Db, userId: UserId): (r: Step<Outcome<Error>>)
    ensures Inv(db) ==> Inv(r.after)
    ensures r.result == Fail(NotFound) <==> userId !in db.users
    ensures r.result == Fail(RoleAlreadyHeld(UserRole.Influencer)) <==>
              userId in db.users && UserRole.Influencer in db.users[userId].roles
    ensures r.result.Pass? <==> userId in db.users && UserRole.Influencer !in db.users[userId].roles
    ensures r.result.Fail? ==> r.after == db
    ensures r.result.Pass? ==>
              && RoleGranted(db, r.after, userId, UserRole.Influencer)
              && r.after.users[userId].cnhImageUrl == db.users[userId].cnhImageUrl
              && r.after.users[userId].carDocumentImageUrl == db.users[userId].carDocumentImageUrl
  {
    if userId !in db.users then
      Step(Fail(NotFound), db)
    else if UserRole.Influencer in db.users[userId].roles then
      Step(Fail(RoleAlreadyHeld(UserRole.Influencer)), db)
    else
      var user := db.users[userId];
      Step(Pass, GrantRole(db, userId, UserRole.Influencer, user.cnhImageUrl, user.carDocumentImageUrl))
  }

  /** `addRoleAdmin`: an administrator grants ADMIN to the user with this CPF. */
  function AddRoleAdmin(db: Db, cpf: string): (r: Step<Outcome<Error>>)
    requires TableIntegrity(db.users)
    ensures Inv(db) ==> Inv(r.after)
    ensures r.result == Fail(NotFound) <==> !CpfTaken(db.users, cpf)
    ensures r.result.Fail? ==> r.after == db
    ensures forall k :: k in db.users && db.users[k].cpf == Some(cpf) ==>
              && (r.result == Fail(RoleAlreadyHeld(UserRole.Admin)) <==> UserRole.Admin in db.users[k].roles)
              && (r.result.Pass? <==> UserRole.Admin !in db.users[k].roles)
              && (r.result.Pass? ==>
                    && RoleGranted(db, r.after, k, UserRole.Admin)
                    && r.after.users[k].cnhImageUrl == db.users[k].cnhImageUrl
                    && r.after.users[k].carDocumentImageUrl == db.users[k].carDocumentImageUrl)
  {
    match FindIdByCpf(db.users, cpf)
    case None => Step(Fail(NotFound), db)
    case Some(k) =>
      if UserRole.Admin in db.users[k].roles then
        Step(Fail(RoleAlreadyHeld(UserRole.Admin)), db)
      else
        var user := db.users[k];
        Step(Pass, GrantRole(db, k, UserRole.Admin, user.cnhImageUrl, user.carDocumentImageUrl))
  }
}
