/**
 * What each `UserService` operation does to the tables. The two read-only
 * projections return a value; the three updates overwrite one stored user.
 */
module UserRules {
  import opened Wrappers
  import opened Domain
  import opened Store
  import opened SessionContext
  import AuthRules

  /** `UserGetResponseDTO`: the caller's contact details. */
  datatype UserView = UserView(name: Option<string>, email: Option<string>, phoneNumber: Option<string>)

  /** A client-side UUID, carried by the phone-number request and never read. */
  type Uuid = string

  /** `UserPhoneNumberRequestDTO`. */
  datatype PhoneNumberRequest = PhoneNumberRequest(id: Option<Uuid>, phoneNumber: Option<string>)

  /** `UserUpdateDTO`. */
  datatype UserUpdate = UserUpdate(name: Option<string>, phoneNumber: Option<string>)

  /** `findAll`: every stored user, and nothing else. */
  function FindAll(users: map<UserId, UserRow>): (r: set<UserRow>)
    requires TableIntegrity(users)
    ensures forall k :: k in users ==> users[k] in r
    ensures forall row :: row in r ==> row.id.Some? && row.id.value in users && users[row.id.value] == row
  {
    set k | k in users :: users[k]
  }

  /** Distinct stored users are distinct entities, so `findAll` lists exactly as many as are stored. */
  lemma {:induction false} FindAllCount(users: map<UserId, UserRow>)
    requires TableIntegrity(users)
    ensures |FindAll(users)| == |users|
  {
    if exists k :: k in users {
      var k :| k in users;
      var rest := users - {k};
      assert TableIntegrity(rest) by {
        forall i, j
          ensures CpfDistinct(rest, i, j)
        {
          assert CpfDistinct(users, i, j);
        }
      }
      FindAllCount(rest);
      assert FindAll(users) == FindAll(rest) + {users[k]} by {
        forall row | row in FindAll(users)
          ensures row in FindAll(rest) + {users[k]}
        {
          if row.id.value != k {
            assert row == rest[row.id.value];
          }
        }
      }
      assert users[k] !in FindAll(rest);
      assert |rest| == |users| - 1;
    } else {
      assert users.Keys == {};
    }
  }

  /** `findUser`: the caller's name, e-mail and phone number, or the error resolving the caller. */
  function FindUser(auth: Option<Authentication>, users: map<UserId, UserRow>): (r: Result<UserView, Error>)
    requires TableIntegrity(users)
    ensures GetUser(auth, users).Failure? ==> r == Failure(GetUser(auth, users).error)
    ensures GetUser(auth, users).Success? ==>
              var k := GetUser(auth, users).value.id.value;
              r == Success(UserView(users[k].name, users[k].email, users[k].phoneNumber))
  {
    match GetUser(auth, users)
    case Failure(e) => Failure(e)
    case Success(user) => Success(UserView(user.name, user.email, user.phoneNumber))
  }

  /**
   * `updateUserAddPhoneNumber`: the user with this id gets the request's
   * phone number (null included); nothing else changes.
   */
  function UpdateUserAddPhoneNumber(db: Db, id: UserId, req: PhoneNumberRequest): (r: Step<Outcome<Error>>)
    ensures Inv(db) ==> Inv(r.after)
    ensures r.result == Fail(NotFound) <==> id !in db.users
    ensures r.result.Pass? <==> id in db.users
    ensures r.result.Fail? ==> r.after == db
    ensures r.result.Pass? ==>
              && r.after.users == db.users[id := db.users[id].(phoneNumber := req.phoneNumber)]
              && r.after.wallets == db.wallets && r.after.nextId == db.nextId
  {
    if id !in db.users then
      Step(Fail(NotFound), db)
    else
      var user := db.users[id].(phoneNumber := req.phoneNumber);
      ProfileEditKeepsInv(db, id, user);
      Step(Pass, db.(users := db.users[id := user]))
  }

  /** The row `updateUser` saves: the name is always replaced, the phone number only by a non-null one. */
  function Edited(user: UserRow, dto: UserUpdate): (r: UserRow)
    ensures r.name == dto.name
    ensures dto.phoneNumber.Some? ==> r.phoneNumber == dto.phoneNumber
    ensures dto.phoneNumber.None? ==> r.phoneNumber == user.phoneNumber
    ensures r.(name := user.name, phoneNumber := user.phoneNumber) == user
  {
    var named := user.(name := dto.name);
    if dto.phoneNumber.Some? then named.(phoneNumber := dto.phoneNumber) else named
  }

  /** `updateUser`: edits the caller's name and phone number and returns the saved user's id, name and e-mail. */
  function UpdateUser(db: Db, auth: Option<Authentication>, dto: UserUpdate): (r: Step<Result<AuthRules.UserResponse, Error>>)
    requires TableIntegrity(db.users)
    ensures Inv(db) ==> Inv(r.after)
    ensures GetUser(auth, db.users).Failure? ==> r.result == Failure(GetUser(auth, db.users).error)
    ensures r.result.Failure? ==> r.after == db
    ensures GetUser(auth, db.users).Success? ==>
              var k := GetUser(auth, db.users).value.id.value;
              && r.result == Success(AuthRules.UserResponse(Some(k), dto.name, db.users[k].email))
              && r.after.users == db.users[k := Edited(db.users[k], dto)]
              && r.after.wallets == db.wallets && r.after.nextId == db.nextId
  {
    match GetUser(auth, db.users)
    case Failure(e) => Step(Failure(e), db)
    case Success(current) =>
      var k := current.id.value;
      var updated := Edited(current, dto);
      ProfileEditKeepsInv(db, k, updated);
      Step(Success(AuthRules.MapToResponse(updated)), db.(users := db.users[k := updated]))
  }

  /** `setUserStatus`: the caller's status becomes `status`, whatever it was; nothing else changes. */
  function SetUserStatus(db: Db, auth: Option<Authentication>, status: UserStatus): (r: Step<Outcome<Error>>)
    requires TableIntegrity(db.users)
    ensures Inv(db) ==> Inv(r.after)
    ensures GetUser(auth, db.users).Failure? ==> r.result == Fail(GetUser(auth, db.users).error)
    ensures r.result.Fail? ==> r.after == db
    ensures GetUser(auth, db.users).Success? ==>
              var k := GetUser(auth, db.users).value.id.value;
              && r.result.Pass?
              && r.after.users == db.users[k := db.users[k].(status := Some(status))]
              && r.after.wallets == db.wallets && r.after.nextId == db.nextId
  {
    match GetUser(auth, db.users)
    case Failure(e) => Step(Fail(e), db)
    case Success(current) =>
      var k := current.id.value;
      var updated := current.(status := Some(status));
      ProfileEditKeepsInv(db, k, updated);
      Step(Pass, db.(users := db.users[k := updated]))
  }
}
