/**
 * The `User` entity, its enumerations, and the errors the identity core
 * raises. Nullable Java fields are `Option`s; `BigDecimal` amounts are
 * integers (the core only ever stores zero).
 */
module Domain {
  import opened Wrappers

  /** The entity's `Long` primary key, assigned by the database. */
  type UserId = int

  /** A `LocalDateTime`, as an abstract instant supplied by the caller. */
  type Timestamp = int

  datatype UserRole = Passenger | Driver | Admin | Influencer

  datatype UserStatus = Active | Blocked | PendingApproval

  datatype WalletType = Passenger | Driver | Company | Influencer

  /** The exceptions the core throws, one constructor per distinct cause. */
  datatype Error =
    | NotFound                  // EntityNotFoundException: no user with that CPF or id
    | InvalidPassword           // "Invalid password"
    | UserNotActive             // "User is not active"
    | CpfAlreadyExists          // "User already exists with CPF"
    | EmailAlreadyExists        // "User already exists with email"
    | RoleAlreadyHeld(role: UserRole)   // "User is already a driver/influencer/admin"
    | NoAuthenticatedUser       // IllegalStateException: no authenticated principal
    | UnsupportedPrincipal      // IllegalStateException: principal of another kind
    | AuthenticatedUserMissing  // IllegalStateException: principal's CPF not stored

  /**
   * The wallet category that backs a functional role: every role has the
   * wallet of the same name, except ADMIN, whose wallet is the COMPANY one.
   */
  function WalletTypeOf(role: UserRole): (t: WalletType)
    ensures t == WalletType.Company <==> role == UserRole.Admin
    ensures t == WalletType.Passenger <==> role == UserRole.Passenger
    ensures t == WalletType.Driver <==> role == UserRole.Driver
    ensures t == WalletType.Influencer <==> role == UserRole.Influencer
  {
    match role
    case Passenger => WalletType.Passenger
    case Driver => WalletType.Driver
    case Admin => WalletType.Company
    case Influencer => WalletType.Influencer
  }

  /** No two roles share a wallet category, so each granted role has a wallet of its own. */
  lemma WalletTypeOfInjective(a: UserRole, b: UserRole)
    ensures WalletTypeOf(a) == WalletTypeOf(b) ==> a == b
  {
  }

  /** The state of one `User` entity: a row of the `users` table. */
  datatype UserRow = UserRow(
    id: Option<UserId>,
    name: Option<string>,
    email: Option<string>,
    cpf: Option<string>,
    passwordHash: Option<string>,
    imageUrl: Option<string>,
    phoneNumber: Option<string>,
    cnhImageUrl: Option<string>,
    carDocumentImageUrl: Option<string>,
    roles: set<UserRole>,
    createdAt: Option<Timestamp>,
    status: Option<UserStatus>,
    balance: Option<int>)

  /** What `new User()` holds: every field null except `roles`, which defaults to the empty set. */
  const FreshRow := UserRow(None, None, None, None, None, None, None, None, None, {}, None, None, None)

  /**
   * Two entities are equal when their ids are (Lombok `equals` over the
   * explicitly included `id` field alone).
   */
  predicate SameEntity(a: UserRow, b: UserRow)
  {
    a.id == b.id
  }

  /**
   * The row after the `@PrePersist` hook has run at instant `now`.
   */
  function PersistDefaults(row: UserRow, now: Timestamp): (r: UserRow)
    ensures r.createdAt == Some(now)
    ensures row.balance.None? ==> r.balance == Some(0) && r.status == Some(UserStatus.Active)
    ensures row.balance.Some? ==> r.balance == row.balance && r.status == row.status
    ensures r.(createdAt := row.createdAt, balance := row.balance, status := row.status) == row
  {
    if row.balance.None? then
      row.(createdAt := Some(now), balance := Some(0), status := Some(UserStatus.Active))
    else
      row.(createdAt := Some(now))
  }

  /**
   * A status set before persisting survives the hook whenever the balance is
   * already set: this is why a driver built with balance zero stays pending.
   */
  lemma PersistKeepsPresetStatus(row: UserRow, now: Timestamp)
    requires row.balance == Some(0)
    ensures PersistDefaults(row, now).status == row.status
    ensures PersistDefaults(row, now).balance == Some(0)
  {
  }

  /** The JPA entity: a mutable object whose fields the services set before saving it. */
  class User {
    var id: Option<UserId>
    var name: Option<string>
    var email: Option<string>
    var cpf: Option<string>
    var passwordHash: Option<string>
    var imageUrl: Option<string>
    var phoneNumber: Option<string>
    var cnhImageUrl: Option<string>
    var carDocumentImageUrl: Option<string>
    var roles: set<UserRole>
    var createdAt: Option<Timestamp>
    var status: Option<UserStatus>
    var balance: Option<int>

    /** The entity's current field values. */
    function Row(): UserRow
      reads this
    {
      UserRow(id, name, email, cpf, passwordHash, imageUrl, phoneNumber,
              cnhImageUrl, carDocumentImageUrl, roles, createdAt, status, balance)
    }

    /** The no-argument constructor. */
    constructor ()
      ensures Row() == FreshRow
    {
      id, name, email, cpf, passwordHash := None, None, None, None, None;
      imageUrl, phoneNumber, cnhImageUrl, carDocumentImageUrl := None, None, None, None;
      roles, createdAt, status, balance := {}, None, None, None;
    }

    /** An entity materialised from a stored row, as a repository lookup returns it. */
    constructor Load(row: UserRow)
      ensures Row() == row
    {
      id, name, email, cpf, passwordHash := row.id, row.name, row.email, row.cpf, row.passwordHash;
      imageUrl, phoneNumber := row.imageUrl, row.phoneNumber;
      cnhImageUrl, carDocumentImageUrl := row.cnhImageUrl, row.carDocumentImageUrl;
      roles, createdAt, status, balance := row.roles, row.createdAt, row.status, row.balance;
    }

    /**
     * The `@PrePersist` hook: stamps the creation time; a null balance
     * becomes zero and then also forces the status to ACTIVE.
     */
    method OnCreate(now: Timestamp)
      modifies this
      ensures Row() == PersistDefaults(old(Row()), now)
    {
      createdAt := Some(now);
      if balance.None? {
        balance := Some(0);
        status := Some(UserStatus.Active);
      }
    }
  }
}
