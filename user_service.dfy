/**
 * The `UserService` bean's three updates: each loads a `User` entity, sets
 * fields on it and saves it, and is proved to leave the tables exactly as
 * the matching rule in `UserRules` says. The read-only `findAll` and
 * `findUser` are the functions of the same names in `UserRules`.
 */
module Users {
  import opened Wrappers
  import opened Domain
  import opened Store
  import opened SessionContext
  import AuthRules
  import UserRules

  class UserService {
    const store: IdentityStore

    constructor (store: IdentityStore)
      ensures this.store == store
    {
      this.store := store;
    }

    /** `updateUserAddPhoneNumber`. */
    method UpdateUserAddPhoneNumber(id: UserId, req: UserRules.PhoneNumberRequest) returns (r: Outcome<Error>)
      requires TableIntegrity(store.users)
      modifies store
      ensures Step(r, store.Tables()) == UserRules.UpdateUserAddPhoneNumber(old(store.Tables()), id, req)
      ensures old(store.Valid()) ==> store.Valid()
    {
      var found := store.FindById(id);
      if found.None? {
        return Fail(NotFound);
      }
      var user := found.value;
      user.phoneNumber := req.phoneNumber;
      store.Update(user);
      r := Pass;
    }

    /** `updateUser`. */
    method UpdateUser(auth: Option<Authentication>, dto: UserRules.UserUpdate) returns (r: Result<AuthRules.UserResponse, Error>)
      requires TableIntegrity(store.users)
      modifies store
      ensures Step(r, store.Tables()) == UserRules.UpdateUser(old(store.Tables()), auth, dto)
      ensures old(store.Valid()) ==> store.Valid()
    {
      var found := LoadUser(store, auth);
      if found.Failure? {
        return Failure(found.error);
      }
      var user := found.value;
      user.name := dto.name;
      if dto.phoneNumber.Some? {
        user.phoneNumber := dto.phoneNumber;
      }
      store.Update(user);
      r := Success(AuthRules.UserResponse(user.id, user.name, user.email));
    }

    /** `setUserStatus`. */
    method SetUserStatus(auth: Option<Authentication>, status: UserStatus) returns (r: Outcome<Error>)
      requires TableIntegrity(store.users)
      modifies store
      ensures Step(r, store.Tables()) == UserRules.SetUserStatus(old(store.Tables()), auth, status)
      ensures old(store.Valid()) ==> store.Valid()
    {
      var found := LoadUser(store, auth);
      if found.Failure? {
        return Fail(found.error);
      }
      var user := found.value;
      user.status := Some(status);
      store.Update(user);
      r := Pass;
    }
  }
}
