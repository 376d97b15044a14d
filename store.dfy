/**
 * The two tables behind the user and wallet repositories, the integrity
 * conditions the identity core keeps on them, and the repository operations
 * the services call.
 */
module Store {
  import opened Wrappers
  import opened JavaText
  import opened Domain

  /** A wallet is looked up by its owner and its category. */
  type WalletKey = (UserId, WalletType)

  datatype Wallet = Wallet(userId: UserId, walletType: WalletType, balance: int)

  /** Both tables, and the next value of the users' IDENTITY column. */
  datatype Db = Db(users: map<UserId, UserRow>, wallets: map<WalletKey, Wallet>, nextId: UserId)

  /** The value an operation returns (or the exception it throws) and the tables it leaves behind. */
  datatype Step<+R> = Step(result: R, after: Db)

  /** Registration checks e-mail uniqueness only for a non-null, non-blank e-mail. */
  predicate EmailChecked(email: Option<string>)
  {
    email.Some? && !IsBlank(email.value)
  }

  predicate CpfTaken(users: map<UserId, UserRow>, cpf: string)
  {
    exists k :: k in users && users[k].cpf == Some(cpf)
  }

  predicate EmailTaken(users: map<UserId, UserRow>, email: string)
  {
    exists k :: k in users && users[k].email == Some(email)
  }

  /** Stored rows `i` and `j` share a CPF only if they are the same row. */
  predicate CpfDistinct(users: map<UserId, UserRow>, i: UserId, j: UserId)
  {
    i in users && j in users && users[i].cpf == users[j].cpf ==> i == j
  }

  /** The table constraints: the key is the row's id, `cpf` is NOT NULL and UNIQUE. */
  ghost predicate TableIntegrity(users: map<UserId, UserRow>)
  {
    && (forall k :: k in users ==> users[k].id == Some(k) && users[k].cpf.Some?)
    && (forall i, j :: CpfDistinct(users, i, j))
  }

  /** At most one stored row carries a given CPF. */
  lemma CpfOwnerUnique(users: map<UserId, UserRow>, cpf: string)
    requires TableIntegrity(users)
    ensures forall i, j :: i in users && j in users && users[i].cpf == Some(cpf) && users[j].cpf == Some(cpf) ==> i == j
  {
    forall i, j | i in users && j in users && users[i].cpf == Some(cpf) && users[j].cpf == Some(cpf)
      ensures i == j
    {
      assert CpfDistinct(users, i, j);
    }
  }

  /** What every registered user carries once it has been saved. */
  predicate Registered(row: UserRow)
  {
    && row.roles != {}
    && row.passwordHash.Some?
    && row.createdAt.Some?
    && row.status.Some?
    && row.balance.Some? && row.balance.value >= 0
  }

  /** Stored rows `i` and `j` share a checked e-mail only if they are the same row. */
  predicate EmailDistinct(users: map<UserId, UserRow>, i: UserId, j: UserId)
  {
    i in users && j in users && EmailChecked(users[i].email) && users[i].email == users[j].email ==> i == j
  }

  /** No two users share an e-mail that registration would have checked. */
  ghost predicate EmailUnique(users: map<UserId, UserRow>)
  {
    forall i, j :: EmailDistinct(users, i, j)
  }

  /** Every role a user holds is backed by a wallet of the matching category. */
  predicate RolesHaveWallets(db: Db)
  {
    forall k, role :: k in db.users && role in db.users[k].roles ==> (k, WalletTypeOf(role)) in db.wallets
  }

  /** Each wallet sits under its own (owner, category) key, belongs to a stored user and is not overdrawn. */
  predicate WalletsWellFormed(db: Db)
  {
    forall key :: key in db.wallets ==>
      && db.wallets[key].userId == key.0
      && db.wallets[key].walletType == key.1
      && key.0 in db.users
      && db.wallets[key].balance >= 0
  }

  /** The store invariant every service operation preserves. */
  ghost predicate Inv(db: Db)
  {
    && TableIntegrity(db.users)
    && (forall k :: k in db.users ==> k < db.nextId && Registered(db.users[k]))
    && EmailUnique(db.users)
    && RolesHaveWallets(db)
    && WalletsWellFormed(db)
  }

  /** `findByCpf`: the id of the one stored user with this CPF, if any. */
  function FindIdByCpf(users: map<UserId, UserRow>, cpf: string): (r: Option<UserId>)
    requires TableIntegrity(users)
    ensures r.None? <==> !CpfTaken(users, cpf)
    ensures r.Some? ==> r.value in users && users[r.value].cpf == Some(cpf)
    ensures forall k :: k in users && users[k].cpf == Some(cpf) ==> r == Some(k)
  {
    if exists k :: k in users && users[k].cpf == Some(cpf) then
      CpfOwnerUnique(users, cpf);
      var k :| k in users && users[k].cpf == Some(cpf);
      Some(k)
    else
      None
  }

  /**
   * `createWallet`: nothing changes when the (user, category) wallet exists;
   * otherwise exactly one wallet with balance zero is added.
   */
  function CreateWallet(wallets: map<WalletKey, Wallet>, userId: UserId, t: WalletType): (r: map<WalletKey, Wallet>)
    ensures r.Keys == wallets.Keys + {(userId, t)}
    ensures forall key :: key in wallets ==> r[key] == wallets[key]
    ensures (userId, t) !in wallets ==> r[(userId, t)] == Wallet(userId, t, 0) && |r| == |wallets| + 1
    ensures (userId, t) in wallets ==> r == wallets
  {
    if (userId, t) in wallets then wallets else wallets[(userId, t) := Wallet(userId, t, 0)]
  }

  /** Creating a wallet a second time for the same user and category changes nothing. */
  lemma CreateWalletIdempotent(wallets: map<WalletKey, Wallet>, userId: UserId, t: WalletType)
    ensures CreateWallet(CreateWallet(wallets, userId, t), userId, t) == CreateWallet(wallets, userId, t)
  {
  }

  /** In a consistent table, entity equality coincides with being the same stored row. */
  lemma StoredEntitiesEqualIffSameKey(users: map<UserId, UserRow>, i: UserId, j: UserId)
    requires TableIntegrity(users)
    requires i in users && j in users
    ensures SameEntity(users[i], users[j]) <==> i == j
  {
    assert CpfDistinct(users, i, j);
  }

  /** Inserting a row under a fresh key, with an unused CPF, keeps the table constraints. */
  lemma InsertKeepsIntegrity(users: map<UserId, UserRow>, id: UserId, row: UserRow)
    requires TableIntegrity(users) && id !in users
    requires row.id == Some(id) && row.cpf.Some? && !CpfTaken(users, row.cpf.value)
    ensures TableIntegrity(users[id := row])
  {
    var after := users[id := row];
    forall i, j
      ensures CpfDistinct(after, i, j)
    {
      assert CpfDistinct(users, i, j);
    }
  }

  /** Inserting a row whose checked e-mail is unused keeps checked e-mails unique. */
  lemma InsertKeepsEmailUnique(users: map<UserId, UserRow>, id: UserId, row: UserRow)
    requires EmailUnique(users) && id !in users
    requires EmailChecked(row.email) ==> !EmailTaken(users, row.email.value)
    ensures EmailUnique(users[id := row])
  {
    var after := users[id := row];
    forall i, j
      ensures EmailDistinct(after, i, j)
    {
      assert EmailDistinct(users, i, j);
    }
  }

  /** Overwriting a stored row without touching its id, CPF or e-mail keeps both uniqueness conditions. */
  lemma UpdateKeepsUniqueness(users: map<UserId, UserRow>, k: UserId, row: UserRow)
    requires TableIntegrity(users) && EmailUnique(users) && k in users
    requires row.id == users[k].id && row.cpf == users[k].cpf && row.email == users[k].email
    ensures TableIntegrity(users[k := row]) && EmailUnique(users[k := row])
  {
    var after := users[k := row];
    forall i, j
      ensures CpfDistinct(after, i, j) && EmailDistinct(after, i, j)
    {
      assert CpfDistinct(users, i, j) && EmailDistinct(users, i, j);
    }
  }

  /**
   * Overwriting stored user `k` with a row that keeps its identity fields and
   * every other invariant field, and whose roles all have wallets, keeps the
   * invariant.
   */
  lemma UpdateKeepsInv(db: Db, k: UserId, row: UserRow, wallets: map<WalletKey, Wallet>)
    requires Inv(db) && k in db.users
    requires row.id == db.users[k].id && row.cpf == db.users[k].cpf && row.email == db.users[k].email
    requires Registered(row)
    requires db.wallets.Keys <= wallets.Keys
    requires forall key :: key in db.wallets ==> wallets[key] == db.wallets[key]
    requires forall key :: key in wallets && key !in db.wallets ==> key.0 == k && wallets[key] == Wallet(k, key.1, 0)
    requires forall role :: role in row.roles ==> (k, WalletTypeOf(role)) in wallets
    ensures Inv(db.(users := db.users[k := row], wallets := wallets))
  {
    var after := db.(users := db.users[k := row], wallets := wallets);
    UpdateKeepsUniqueness(db.users, k, row);
    UpdateKeepsWallets(db, k, row, wallets);
    assert forall j :: j in after.users ==> j < after.nextId && Registered(after.users[j]);
  }

  /**
   * Overwriting stored user `k` with a row that changes neither its identity
   * fields nor its roles, and stays registered, keeps the invariant.
   */
  lemma ProfileEditKeepsInv(db: Db, k: UserId, row: UserRow)
    requires k in db.users
    requires row.id == db.users[k].id && row.cpf == db.users[k].cpf && row.email == db.users[k].email
    requires row.roles == db.users[k].roles && (Registered(db.users[k]) ==> Registered(row))
    ensures Inv(db) ==> Inv(db.(users := db.users[k := row]))
  {
    if Inv(db) {
      UpdateKeepsInv(db, k, row, db.wallets);
    }
  }

  /**
   * Adding `role` to stored user `k`, setting its document URLs, and creating
   * the wallet of the matching category keeps the invariant.
   */
  lemma RoleGrantKeepsInv(db: Db, k: UserId, role: UserRole, cnh: Option<string>, car: Option<string>)
    requires k in db.users
    ensures var row := db.users[k].(roles := db.users[k].roles + {role}, cnhImageUrl := cnh, carDocumentImageUrl := car);
            Inv(db) ==> Inv(db.(users := db.users[k := row], wallets := CreateWallet(db.wallets, k, WalletTypeOf(role))))
  {
    if Inv(db) {
      var row := db.users[k].(roles := db.users[k].roles + {role}, cnhImageUrl := cnh, carDocumentImageUrl := car);
      UpdateKeepsInv(db, k, row, CreateWallet(db.wallets, k, WalletTypeOf(role)));
    }
  }

  /** The wallet half of `UpdateKeepsInv`. */
  lemma UpdateKeepsWallets(db: Db, k: UserId, row: UserRow, wallets: map<WalletKey, Wallet>)
    requires RolesHaveWallets(db) && WalletsWellFormed(db) && k in db.users
    requires db.wallets.Keys <= wallets.Keys
    requires forall key :: key in db.wallets ==> wallets[key] == db.wallets[key]
    requires forall key :: key in wallets && key !in db.wallets ==> key.0 == k && wallets[key] == Wallet(k, key.1, 0)
    requires forall role :: role in row.roles ==> (k, WalletTypeOf(role)) in wallets
    ensures var after := db.(users := db.users[k := row], wallets := wallets);
            RolesHaveWallets(after) && WalletsWellFormed(after)
  {
    var after := db.(users := db.users[k := row], wallets := wallets);
    forall j, role | j in after.users && role in after.users[j].roles
      ensures (j, WalletTypeOf(role)) in after.wallets
    {
      assert j != k ==> after.users[j] == db.users[j];
    }
  }

  /** Inserting a user under a fresh key with the wallet of its one role keeps every role backed by a wallet. */
  lemma InsertKeepsWallets(db: Db, id: UserId, row: UserRow, role: UserRole)
    requires RolesHaveWallets(db) && WalletsWellFormed(db) && id !in db.users
    requires row.roles == {role}
    ensures var after := Db(db.users[id := row], CreateWallet(db.wallets, id, WalletTypeOf(role)), id + 1);
            RolesHaveWallets(after) && WalletsWellFormed(after)
  {
    var after := Db(db.users[id := row], CreateWallet(db.wallets, id, WalletTypeOf(role)), id + 1);
    forall j, r | j in after.users && r in after.users[j].roles
      ensures (j, WalletTypeOf(r)) in after.wallets
    {
      assert j != id ==> after.users[j] == db.users[j];
    }
  }

  /**
   * Inserting a registered row under the next id, with an unused CPF and an
   * unused checked e-mail, together with the wallet of its one role, keeps the
   * invariant.
   */
  lemma InsertKeepsInv(db: Db, row: UserRow, role: UserRole)
    requires row.id == Some(db.nextId) && row.cpf.Some? && !CpfTaken(db.users, row.cpf.value)
    requires EmailChecked(row.email) ==> !EmailTaken(db.users, row.email.value)
    requires Registered(row) && row.roles == {role}
    ensures Inv(db) ==>
              Inv(Db(db.users[db.nextId := row], CreateWallet(db.wallets, db.nextId, WalletTypeOf(role)), db.nextId + 1))
  {
    if Inv(db) {
      var id := db.nextId;
      var after := Db(db.users[id := row], CreateWallet(db.wallets, id, WalletTypeOf(role)), id + 1);
      assert id !in db.users;
      InsertKeepsIntegrity(db.users, id, row);
      InsertKeepsEmailUnique(db.users, id, row);
      InsertKeepsWallets(db, id, row, role);
      InsertKeepsRegistered(db.users, id, row, after.users);
    }
  }

  /** Inserting a registered row under the next id keeps every key below the next id and every row registered. */
  lemma InsertKeepsRegistered(users: map<UserId, UserRow>, id: UserId, row: UserRow, after: map<UserId, UserRow>)
    requires forall k :: k in users ==> k < id && Registered(users[k])
    requires Registered(row) && after == users[id := row]
    ensures forall k :: k in after ==> k < id + 1 && Registered(after[k])
  {
  }

  /** The user and wallet repositories over one database. */
  class IdentityStore {
    var users: map<UserId, UserRow>
    var wallets: map<WalletKey, Wallet>
    var nextId: UserId

    function Tables(): Db
      reads this
    {
      Db(users, wallets, nextId)
    }

    ghost predicate Valid()
      reads this
    {
      Inv(Tables())
    }

    /** An empty database; the IDENTITY column starts at 1. */
    constructor ()
      ensures Valid()
      ensures users == map[] && wallets == map[] && nextId == 1
    {
      users, wallets, nextId := map[], map[], 1;
    }

    /** `findByCpf`, returning a freshly materialised entity. */
    method FindByCpf(cpf: string) returns (r: Option<User>)
      requires TableIntegrity(users)
      ensures r.None? <==> !CpfTaken(users, cpf)
      ensures r.Some? ==> fresh(r.value) && r.value.Row() == users[FindIdByCpf(users, cpf).value]
    {
      var k := FindIdByCpf(users, cpf);
      if k.None? {
        return None;
      }
      var user := new User.Load(users[k.value]);
      r := Some(user);
    }

    /** `findById`, returning a freshly materialised entity. */
    method FindById(id: UserId) returns (r: Option<User>)
      ensures r.None? <==> id !in users
      ensures r.Some? ==> fresh(r.value) && r.value.Row() == users[id]
    {
      if id !in users {
        return None;
      }
      var user := new User.Load(users[id]);
      r := Some(user);
    }

    /** `findByEmail(email).isPresent()`. */
    method ExistsByEmail(email: string) returns (found: bool)
      ensures found <==> EmailTaken(users, email)
    {
      found := exists k :: k in users && users[k].email == Some(email);
    }

    /**
     * `save` of a new entity (null id): the `@PrePersist` hook runs, then the
     * IDENTITY column gives the entity the next id and the row is inserted.
     */
    method Insert(user: User, now: Timestamp)
      requires user.id.None?
      modifies this, user
      ensures user.Row() == PersistDefaults(old(user.Row()), now).(id := Some(old(nextId)))
      ensures users == old(users)[old(nextId) := user.Row()]
      ensures nextId == old(nextId) + 1 && wallets == old(wallets)
    {
      user.OnCreate(now);
      user.id := Some(nextId);
      users := users[nextId := user.Row()];
      nextId := nextId + 1;
    }

    /** `save` of an entity that already has an id: its row is overwritten; no hook runs. */
    method Update(user: User)
      requires user.id.Some? && user.id.value in users
      modifies this
      ensures users == old(users)[user.id.value := user.Row()]
      ensures nextId == old(nextId) && wallets == old(wallets)
    {
      users := users[user.id.value := user.Row()];
    }

    /** `findByUserIdAndType`: a key lookup. */
    method FindWallet(userId: UserId, t: WalletType) returns (r: Option<Wallet>)
      ensures r.None? <==> (userId, t) !in wallets
      ensures r.Some? ==> r.value == wallets[(userId, t)]
    {
      r := if (userId, t) in wallets then Some(wallets[(userId, t)]) else None;
    }

    /** The wallet repository's `save`, storing the wallet under its owner and category. */
    method SaveWallet(w: Wallet)
      modifies this
      ensures wallets == old(wallets)[(w.userId, w.walletType) := w]
      ensures users == old(users) && nextId == old(nextId)
    {
      wallets := wallets[(w.userId, w.walletType) := w];
    }
  }
}
