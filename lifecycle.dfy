/**
 * The store as the sequence of service calls it sees. Every state-changing
 * operation of the two services is one `Op`; any sequence of them, started
 * from an empty store, keeps the store invariant, never removes a user or a
 * wallet, never changes a user's id, CPF, e-mail, password hash or creation
 * time, and never takes a role away.
 */
module Lifecycle {
  import opened Wrappers
  import opened Domain
  import opened Store
  import opened SessionContext
  import opened AuthRules
  import opened UserRules

  /** One state-changing service call. */
  datatype Op =
    | RegisterOp(req: UserRequest, role: UserRole, now: Timestamp)
    | AddRoleDriverOp(auth: Option<Authentication>, cnhUrl: string, carUrl: string)
    | AddRoleInfluencerOp(userId: UserId)
    | AddRoleAdminOp(cpf: string)
    | UpdatePhoneOp(id: UserId, phone: PhoneNumberRequest)
    | UpdateUserOp(auth: Option<Authentication>, dto: UserUpdate)
    | SetStatusOp(auth: Option<Authentication>, status: UserStatus)

  /** The tables after one call, whatever it returned. */
  function Apply(db: Db, encoder: PasswordEncoder, op: Op): (after: Db)
    requires Inv(db)
    ensures Inv(after)
  {
    match op
    case RegisterOp(req, role, now) => Register(db, req, role, encoder, now).after
    case AddRoleDriverOp(auth, cnh, car) => AddRoleDriver(db, auth, cnh, car).after
    case AddRoleInfluencerOp(id) => AddRoleInfluencer(db, id).after
    case AddRoleAdminOp(cpf) => AddRoleAdmin(db, cpf).after
    case UpdatePhoneOp(id, phone) => UpdateUserAddPhoneNumber(db, id, phone).after
    case UpdateUserOp(auth, dto) => UpdateUser(db, auth, dto).after
    case SetStatusOp(auth, status) => SetUserStatus(db, auth, status).after
  }

  /** The tables after a sequence of calls, applied in order. */
  function Run(db: Db, encoder: PasswordEncoder, ops: seq<Op>): (after: Db)
    requires Inv(db)
    ensures Inv(after)
    decreases |ops|
  {
    if ops == [] then db else Run(Apply(db, encoder, ops[0]), encoder, ops[1..])
  }

  /** The empty database the application starts from. */
  const Empty := Db(map[], map[], 1)

  /** Every reachable store satisfies the invariant. */
  lemma ReachableStoresAreConsistent(encoder: PasswordEncoder, ops: seq<Op>)
    ensures Inv(Empty)
    ensures Inv(Run(Empty, encoder, ops))
  {
  }

  /**
   * What no operation ever undoes: stored users and wallets stay, a user's
   * identity, credentials, creation time and balance stay, and roles only grow.
   */
  predicate Grows(before: Db, after: Db)
  {
    && before.users.Keys <= after.users.Keys
    && before.wallets.Keys <= after.wallets.Keys
    && before.nextId <= after.nextId
    && forall k :: k in before.users ==>
         && after.users[k].id == before.users[k].id
         && after.users[k].cpf == before.users[k].cpf
         && after.users[k].email == before.users[k].email
         && after.users[k].passwordHash == before.users[k].passwordHash
         && after.users[k].createdAt == before.users[k].createdAt
         && after.users[k].balance == before.users[k].balance
         && before.users[k].roles <= after.users[k].roles
  }

  lemma GrowsTransitive(a: Db, b: Db, c: Db)
    requires Grows(a, b) && Grows(b, c)
    ensures Grows(a, c)
  {
  }

  /** Registration only adds: every user stored before is left exactly as it was. */
  lemma RegisterGrows(db: Db, req: UserRequest, role: UserRole, encoder: PasswordEncoder, now: Timestamp)
    requires Inv(db)
    ensures Grows(db, Register(db, req, role, encoder, now).after)
    ensures forall k :: k in db.users ==> Register(db, req, role, encoder, now).after.users[k] == db.users[k]
  {
    var r := Register(db, req, role, encoder, now);
    if r.result.Success? {
      forall k | k in db.users
        ensures r.after.users[k] == db.users[k]
      {
      }
    }
  }

  /** A role grant only grows the store. */
  lemma GrantGrows(before: Db, after: Db, k: UserId, role: UserRole)
    requires RoleGranted(before, after, k, role)
    ensures Grows(before, after)
  {
    forall j | j in before.users
      ensures after.users[j].roles >= before.users[j].roles
    {
    }
  }

  lemma AddRoleDriverGrows(db: Db, auth: Option<Authentication>, cnh: string, car: string)
    requires Inv(db)
    ensures Grows(db, AddRoleDriver(db, auth, cnh, car).after)
  {
    var r := AddRoleDriver(db, auth, cnh, car);
    if r.result.Pass? {
      GrantGrows(db, r.after, GetUser(auth, db.users).value.id.value, UserRole.Driver);
    }
  }

  lemma AddRoleInfluencerGrows(db: Db, userId: UserId)
    requires Inv(db)
    ensures Grows(db, AddRoleInfluencer(db, userId).after)
  {
    var r := AddRoleInfluencer(db, userId);
    if r.result.Pass? {
      GrantGrows(db, r.after, userId, UserRole.Influencer);
    }
  }

  lemma AddRoleAdminGrows(db: Db, cpf: string)
    requires Inv(db)
    ensures Grows(db, AddRoleAdmin(db, cpf).after)
  {
    var r := AddRoleAdmin(db, cpf);
    if r.result.Pass? {
      GrantGrows(db, r.after, FindIdByCpf(db.users, cpf).value, UserRole.Admin);
    }
  }

  lemma UpdatePhoneGrows(db: Db, id: UserId, phone: PhoneNumberRequest)
    requires Inv(db)
    ensures Grows(db, UpdateUserAddPhoneNumber(db, id, phone).after)
  {
  }

  lemma UpdateUserGrows(db: Db, auth: Option<Authentication>, dto: UserUpdate)
    requires Inv(db)
    ensures Grows(db, UpdateUser(db, auth, dto).after)
  {
  }

  lemma SetStatusGrows(db: Db, auth: Option<Authentication>, status: UserStatus)
    requires Inv(db)
    ensures Grows(db, SetUserStatus(db, auth, status).after)
  {
  }

  /** Each single operation only grows the store. */
  lemma ApplyGrows(db: Db, encoder: PasswordEncoder, op: Op)
    requires Inv(db)
    ensures Grows(db, Apply(db, encoder, op))
  {
    match op
    case RegisterOp(req, role, now) => RegisterGrows(db, req, role, encoder, now);
    case AddRoleDriverOp(auth, cnh, car) => AddRoleDriverGrows(db, auth, cnh, car);
    case AddRoleInfluencerOp(id) => AddRoleInfluencerGrows(db, id);
    case AddRoleAdminOp(cpf) => AddRoleAdminGrows(db, cpf);
    case UpdatePhoneOp(id, phone) => UpdatePhoneGrows(db, id, phone);
    case UpdateUserOp(auth, dto) => UpdateUserGrows(db, auth, dto);
    case SetStatusOp(auth, status) => SetStatusGrows(db, auth, status);
  }

  /** Any sequence of operations only grows the store. */
  lemma {:induction false} RunGrows(db: Db, encoder: PasswordEncoder, ops: seq<Op>)
    requires Inv(db)
    ensures Grows(db, Run(db, encoder, ops))
    decreases |ops|
  {
    if ops != [] {
      var next := Apply(db, encoder, ops[0]);
      ApplyGrows(db, encoder, ops[0]);
      RunGrows(next, encoder, ops[1..]);
      GrowsTransitive(db, next, Run(next, encoder, ops[1..]));
    }
  }

  /** Whether `op` is a `setUserStatus` call made by the user with this CPF. */
  predicate SetsStatusOf(op: Op, cpf: string)
  {
    op.SetStatusOp? && GetCpf(op.auth) == Success(cpf)
  }

  /** A role grant leaves every status as it was. */
  lemma GrantKeepsStatus(before: Db, after: Db, j: UserId, role: UserRole, k: UserId)
    requires RoleGranted(before, after, j, role) && k in before.users
    ensures k in after.users && after.users[k].status == before.users[k].status
  {
    if k != j {
      assert after.users[k] == before.users[k];
    }
  }

  /** `setUserStatus` changes no status but the caller's. */
  lemma SetStatusKeepsOthers(db: Db, auth: Option<Authentication>, status: UserStatus, k: UserId)
    requires Inv(db) && k in db.users && db.users[k].cpf.Some?
    requires GetCpf(auth) != Success(db.users[k].cpf.value)
    ensures k in SetUserStatus(db, auth, status).after.users
    ensures SetUserStatus(db, auth, status).after.users[k].status == db.users[k].status
  {
    var caller := GetUser(auth, db.users);
    if caller.Success? {
      assert caller.value.id.value != k;
    }
  }

  /** A call other than the user's own `setUserStatus` leaves that user's status alone. */
  lemma ApplyKeepsStatus(db: Db, encoder: PasswordEncoder, op: Op, k: UserId)
    requires Inv(db) && k in db.users && db.users[k].cpf.Some?
    requires !SetsStatusOf(op, db.users[k].cpf.value)
    ensures k in Apply(db, encoder, op).users
    ensures Apply(db, encoder, op).users[k].status == db.users[k].status
  {
    match op
    case RegisterOp(req, role, now) =>
      RegisterGrows(db, req, role, encoder, now);
    case AddRoleDriverOp(auth, cnh, car) =>
      var r := AddRoleDriver(db, auth, cnh, car);
      if r.result.Pass? {
        GrantKeepsStatus(db, r.after, GetUser(auth, db.users).value.id.value, UserRole.Driver, k);
      }
    case AddRoleInfluencerOp(id) =>
      var r := AddRoleInfluencer(db, id);
      if r.result.Pass? {
        GrantKeepsStatus(db, r.after, id, UserRole.Influencer, k);
      }
    case AddRoleAdminOp(cpf) =>
      var r := AddRoleAdmin(db, cpf);
      if r.result.Pass? {
        GrantKeepsStatus(db, r.after, FindIdByCpf(db.users, cpf).value, UserRole.Admin, k);
      }
    case UpdatePhoneOp(id, phone) =>
    case UpdateUserOp(auth, dto) =>
    case SetStatusOp(auth, status) =>
      SetStatusKeepsOthers(db, auth, status, k);
  }

  /**
   * Calls that do not include the user's own `setUserStatus` leave its status
   * as it was, however many there are.
   */
  lemma {:induction false} RunKeepsStatus(db: Db, encoder: PasswordEncoder, ops: seq<Op>, k: UserId)
    requires Inv(db) && k in db.users && db.users[k].cpf.Some?
    requires forall i :: 0 <= i < |ops| ==> !SetsStatusOf(ops[i], db.users[k].cpf.value)
    ensures k in Run(db, encoder, ops).users
    ensures Run(db, encoder, ops).users[k].status == db.users[k].status
    decreases |ops|
  {
    if ops != [] {
      var next := Apply(db, encoder, ops[0]);
      ApplyKeepsStatus(db, encoder, ops[0], k);
      ApplyGrows(db, encoder, ops[0]);
      assert forall i :: 0 <= i < |ops[1..]| ==> ops[1..][i] == ops[i + 1];
      RunKeepsStatus(next, encoder, ops[1..], k);
    }
  }

  /**
   * A driver who has just registered cannot log in, whatever calls follow,
   * until it sets its own status: with its password `login` keeps answering
   * that the user is not active.
   */
  lemma PendingDriverCannotLogIn(db: Db, req: UserRequest, encoder: PasswordEncoder, tokens: TokenIssuer,
                                 now: Timestamp, later: Timestamp, ops: seq<Op>)
    requires Inv(db) && Sound(encoder)
    requires Register(db, req, UserRole.Driver, encoder, now).result.Success?
    requires forall i :: 0 <= i < |ops| ==> !SetsStatusOf(ops[i], req.cpf)
    ensures var after := Run(Register(db, req, UserRole.Driver, encoder, now).after, encoder, ops);
            && TableIntegrity(after.users)
            && Login(after.users, encoder, tokens, LoginRequest(req.cpf, req.password), later) == Failure(UserNotActive)
  {
    var mid := Register(db, req, UserRole.Driver, encoder, now).after;
    var k := db.nextId;
    assert mid.users[k].cpf == Some(req.cpf);
    RunKeepsStatus(mid, encoder, ops, k);
    RunGrows(mid, encoder, ops);
    var after := Run(mid, encoder, ops);
    assert after.users[k].cpf == Some(req.cpf);
    assert encoder.matches(req.password, after.users[k].passwordHash);
  }

  /**
   * Whatever password is tried, and whatever the encoder, a just-registered
   * driver does not log in after any calls that are not its own `setUserStatus`.
   */
  lemma PendingDriverNeverLogsIn(db: Db, req: UserRequest, encoder: PasswordEncoder, tokens: TokenIssuer,
                                 now: Timestamp, later: Timestamp, ops: seq<Op>, password: string)
    requires Inv(db)
    requires Register(db, req, UserRole.Driver, encoder, now).result.Success?
    requires forall i :: 0 <= i < |ops| ==> !SetsStatusOf(ops[i], req.cpf)
    ensures var after := Run(Register(db, req, UserRole.Driver, encoder, now).after, encoder, ops);
            && TableIntegrity(after.users)
            && !Login(after.users, encoder, tokens, LoginRequest(req.cpf, password), later).Success?
  {
    var mid := Register(db, req, UserRole.Driver, encoder, now).after;
    var k := db.nextId;
    assert mid.users[k].cpf == Some(req.cpf);
    RunKeepsStatus(mid, encoder, ops, k);
    RunGrows(mid, encoder, ops);
    var after := Run(mid, encoder, ops);
    assert after.users[k].cpf == Some(req.cpf);
  }

  /**
   * A freshly registered user logs in with the password it registered with,
   * when the encoder accepts its own encodings, unless it registered as a
   * driver: a driver is pending approval and is told it is not active.
   */
  lemma RegisterThenLogin(db: Db, req: UserRequest, role: UserRole, encoder: PasswordEncoder,
                          tokens: TokenIssuer, now: Timestamp, later: Timestamp)
    requires Inv(db) && Sound(encoder)
    requires Register(db, req, role, encoder, now).result.Success?
    ensures var after := Register(db, req, role, encoder, now).after;
            && TableIntegrity(after.users)
            && (role == UserRole.Driver ==>
                  Login(after.users, encoder, tokens, LoginRequest(req.cpf, req.password), later) == Failure(UserNotActive))
            && (role != UserRole.Driver ==>
                  Login(after.users, encoder, tokens, LoginRequest(req.cpf, req.password), later).Success?)
  {
    var after := Register(db, req, role, encoder, now).after;
    var k := db.nextId;
    assert after.users[k].cpf == Some(req.cpf);
    assert encoder.matches(req.password, after.users[k].passwordHash);
  }

  /** The CPF principal of a stored user. */
  function SessionOf(user: UserRow): Option<Authentication>
    requires user.cpf.Some?
  {
    Some(Authentication(true, Some(StringPrincipal(user.cpf.value))))
  }

  /** Once a pending driver's status is set to ACTIVE, it logs in with its password. */
  lemma ApprovedDriverLogsIn(db: Db, k: UserId, password: string, encoder: PasswordEncoder,
                             tokens: TokenIssuer, now: Timestamp)
    requires Inv(db) && k in db.users
    requires encoder.matches(password, db.users[k].passwordHash)
    ensures var after := SetUserStatus(db, SessionOf(db.users[k]), UserStatus.Active).after;
            && TableIntegrity(after.users)
            && Login(after.users, encoder, tokens, LoginRequest(db.users[k].cpf.value, password), now).Success?
  {
    var auth := SessionOf(db.users[k]);
    GetCpfOfNamedPrincipal(db.users[k].cpf.value);
    assert GetUser(auth, db.users) == Success(db.users[k]);
    var after := SetUserStatus(db, auth, UserStatus.Active).after;
    assert after.users[k].cpf == db.users[k].cpf;
  }

  /** Granting INFLUENCER twice: the second call fails and changes nothing. */
  lemma InfluencerGrantedOnce(db: Db, userId: UserId)
    requires Inv(db) && userId in db.users
    ensures var once := AddRoleInfluencer(db, userId).after;
            AddRoleInfluencer(once, userId) == Step(Fail(RoleAlreadyHeld(UserRole.Influencer)), once)
  {
  }

  /** Granting ADMIN twice: the second call fails and changes nothing. */
  lemma AdminGrantedOnce(db: Db, cpf: string)
    requires Inv(db) && CpfTaken(db.users, cpf)
    ensures var once := AddRoleAdmin(db, cpf).after;
            && TableIntegrity(once.users)
            && AddRoleAdmin(once, cpf) == Step(Fail(RoleAlreadyHeld(UserRole.Admin)), once)
  {
  }

  /**
   * Two registrations whose e-mails are null or blank both succeed when their
   * CPFs differ, whatever the roles: such e-mails are never checked, so two
   * users may share a blank one.
   */
  lemma TwoUsersWithoutEmail(db: Db, a: UserRequest, b: UserRequest, ra: UserRole, rb: UserRole,
                             encoder: PasswordEncoder, now: Timestamp)
    requires Inv(db)
    requires !EmailChecked(a.email) && !EmailChecked(b.email) && a.cpf != b.cpf
    requires !CpfTaken(db.users, a.cpf) && !CpfTaken(db.users, b.cpf)
    ensures var first := Register(db, a, ra, encoder, now);
            && first.result.Success?
            && Register(first.after, b, rb, encoder, now).result.Success?
  {
    var first := Register(db, a, ra, encoder, now);
    assert first.after.users == db.users[db.nextId := first.after.users[db.nextId]];
    assert !CpfTaken(first.after.users, b.cpf);
  }

  /** Registering a CPF that has just been registered fails and changes nothing. */
  lemma CpfRegisteredOnce(db: Db, a: UserRequest, b: UserRequest, ra: UserRole, rb: UserRole,
                          encoder: PasswordEncoder, now: Timestamp)
    requires Inv(db) && a.cpf == b.cpf
    requires Register(db, a, ra, encoder, now).result.Success?
    ensures var once := Register(db, a, ra, encoder, now).after;
            Register(once, b, rb, encoder, now) == Step(Failure(CpfAlreadyExists), once)
  {
    var once := Register(db, a, ra, encoder, now).after;
    assert once.users[db.nextId].cpf == Some(b.cpf);
  }
}
