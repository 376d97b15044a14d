/**
 * Resolving the calling user from the security context. The context is
 * passed explicitly instead of being read from a thread-local holder.
 */
module SessionContext {
  import opened Wrappers
  import opened Domain
  import opened Store

  /** The kinds of principal an authentication can carry. */
  datatype Principal =
    | UserDetailsPrincipal(username: string)   // a `UserDetails`; its username is the CPF
    | StringPrincipal(name: string)            // a bare `String` principal
    | OtherPrincipal                           // any other object

  /** An `Authentication`: whether it is authenticated, and its (possibly null) principal. */
  datatype Authentication = Authentication(authenticated: bool, principal: Option<Principal>)

  /** `getCpf`: the CPF named by the current authentication. */
  function GetCpf(auth: Option<Authentication>): (r: Result<string, Error>)
    ensures r == Failure(NoAuthenticatedUser) <==>
              auth.None? || !auth.value.authenticated || auth.value.principal.None?
    ensures r == Failure(UnsupportedPrincipal) <==>
              auth.Some? && auth.value.authenticated && auth.value.principal == Some(OtherPrincipal)
    ensures r.Success? <==>
              auth.Some? && auth.value.authenticated && auth.value.principal.Some? &&
              auth.value.principal.value != OtherPrincipal
    ensures r.Success? ==>
              || auth == Some(Authentication(true, Some(UserDetailsPrincipal(r.value))))
              || auth == Some(Authentication(true, Some(StringPrincipal(r.value))))
  {
    if auth.None? || !auth.value.authenticated || auth.value.principal.None? then
      Failure(NoAuthenticatedUser)
    else
      match auth.value.principal.value
      case UserDetailsPrincipal(username) => Success(username)
      case StringPrincipal(name) => Success(name)
      case OtherPrincipal => Failure(UnsupportedPrincipal)
  }

  /** Any authenticated principal with a name yields that name unchanged. */
  lemma GetCpfOfNamedPrincipal(name: string)
    ensures GetCpf(Some(Authentication(true, Some(UserDetailsPrincipal(name))))) == Success(name)
    ensures GetCpf(Some(Authentication(true, Some(StringPrincipal(name))))) == Success(name)
  {
  }

  /**
   * `getUser`: the stored user whose CPF is the caller's; failing with the
   * context's error, or with an illegal-state error when no user has that CPF.
   */
  function GetUser(auth: Option<Authentication>, users: map<UserId, UserRow>): (r: Result<UserRow, Error>)
    requires TableIntegrity(users)
    ensures GetCpf(auth).Failure? ==> r == Failure(GetCpf(auth).error)
    ensures GetCpf(auth).Success? ==>
              (r == Failure(AuthenticatedUserMissing) <==> !CpfTaken(users, GetCpf(auth).value))
    ensures GetCpf(auth).Success? && CpfTaken(users, GetCpf(auth).value) ==> r.Success?
    ensures r.Success? ==>
              && GetCpf(auth).Success?
              && r.value.cpf == Some(GetCpf(auth).value)
              && r.value.id.Some? && r.value.id.value in users
              && users[r.value.id.value] == r.value
  {
    match GetCpf(auth)
    case Failure(e) => Failure(e)
    case Success(cpf) =>
      match FindIdByCpf(users, cpf)
      case None => Failure(AuthenticatedUserMissing)
      case Some(k) => Success(users[k])
  }

  /** `getUser` as the services call it: the caller's stored user, materialised as a fresh entity. */
  method LoadUser(store: IdentityStore, auth: Option<Authentication>) returns (r: Result<User, Error>)
    requires TableIntegrity(store.users)
    ensures r.Failure? <==> GetUser(auth, store.users).Failure?
    ensures r.Failure? ==> r.error == GetUser(auth, store.users).error
    ensures r.Success? ==> fresh(r.value) && r.value.Row() == GetUser(auth, store.users).value
  {
    var cpf := GetCpf(auth);
    if cpf.Failure? {
      return Failure(cpf.error);
    }
    var found := store.FindByCpf(cpf.value);
    if found.None? {
      return Failure(AuthenticatedUserMissing);
    }
    r := Success(found.value);
  }
}
