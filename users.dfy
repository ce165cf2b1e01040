/**
 * The `users` table: the `User` entity, which `updateProfile` changes in place, the
 * repository that stores it, and the upsert rule of `UserService` stated on plain rows.
 */
module Users {
  import opened Wrappers
  import opened JavaText

  /** The identity providers a user can come from. */
  datatype AuthProvider = GOOGLE

  /** What a social login tells us about a person; any field other than the provider may be null. */
  datatype SocialUserProfile = SocialUserProfile(
    provider: AuthProvider,
    providerId: Option<string>,
    email: Option<string>,
    name: Option<string>)

  /** The persisted columns of one user; `id` is null until the row is inserted. */
  datatype UserRow = UserRow(
    id: Option<Long>,
    provider: AuthProvider,
    providerId: Option<string>,
    email: Option<string>,
    name: Option<string>)

  /** The row `updateProfile(name, email)` leaves behind. */
  function WithProfile(row: UserRow, name: Option<string>, email: Option<string>): (r: UserRow)
    ensures r.name == name && r.email == email
    ensures r.id == row.id && r.provider == row.provider && r.providerId == row.providerId
  {
    row.(name := name, email := email)
  }

  /** Updating a profile twice with the same values is the same as updating it once. */
  lemma WithProfileIdempotent(row: UserRow, name: Option<string>, email: Option<string>)
    ensures WithProfile(WithProfile(row, name, email), name, email) == WithProfile(row, name, email)
  {
  }

  /** The row a new user is created with. */
  function NewRow(profile: SocialUserProfile): (r: UserRow)
    ensures r.id.None? && r.provider == profile.provider && r.providerId == profile.providerId
    ensures r.email == profile.email && r.name == profile.name
  {
    UserRow(None, profile.provider, profile.providerId, profile.email, profile.name)
  }

  /** The entity: its fields are the row's columns, and `updateProfile` assigns two of them. */
  class User {
    var id: Option<Long>
    var provider: AuthProvider
    var providerId: Option<string>
    var email: Option<string>
    var name: Option<string>

    function Row(): UserRow
      reads this
    {
      UserRow(id, provider, providerId, email, name)
    }

    /** A new, not yet persisted user. */
    constructor (provider: AuthProvider, providerId: Option<string>, email: Option<string>, name: Option<string>)
      ensures Row() == UserRow(None, provider, providerId, email, name)
    {
      this.id := None;
      this.provider := provider;
      this.providerId := providerId;
      this.email := email;
      this.name := name;
    }

    /** `updateProfile`: name and email replaced; id, provider and providerId kept. */
    method UpdateProfile(name: Option<string>, email: Option<string>)
      modifies this
      ensures Row() == WithProfile(old(Row()), name, email)
    {
      this.name := name;
      this.email := email;
    }
  }

  /** Why the database refuses a write. */
  datatype DbError = NotNullViolation(column: string) | UniqueViolation(column: string) | IdentityExhausted

  type Rows = map<Long, UserRow>

  /** Whether `row` is the user `provider` knows as `providerId`. */
  predicate HasIdentity(row: UserRow, provider: AuthProvider, providerId: Option<string>) {
    row.provider == provider && row.providerId == providerId
  }

  /**
   * The table's constraints: each row carries its own key below the next identity value,
   * `provider_id` is not null and unique, and `email` is unique where it is not null.
   */
  predicate Consistent(rows: Rows, nextId: nat) {
    && (forall id | id in rows :: rows[id].id == Some(id) && id < nextId && rows[id].providerId.Some?)
    && (forall a, b | a in rows && b in rows && rows[a].providerId == rows[b].providerId :: a == b)
    && (forall a, b | a in rows && b in rows && rows[a].email.Some? && rows[a].email == rows[b].email :: a == b)
  }

  /** `findByProviderAndProviderId` on the rows: the key of a row with that identity, if any. */
  ghost function FindByIdentity(rows: Rows, provider: AuthProvider, providerId: Option<string>): (r: Option<Long>)
    ensures r.Some? ==> r.value in rows && HasIdentity(rows[r.value], provider, providerId)
    ensures r.None? ==> forall id | id in rows :: !HasIdentity(rows[id], provider, providerId)
  {
    if exists id | id in rows :: HasIdentity(rows[id], provider, providerId) then
      var id :| id in rows && HasIdentity(rows[id], provider, providerId);
      Some(id)
    else None
  }

  /** Some row other than `except` already holds the non-null `email`. */
  predicate EmailTaken(rows: Rows, email: Option<string>, except: Option<Long>) {
    email.Some? && exists id | id in rows :: Some(id) != except && rows[id].email == email
  }

  /** Some row already holds `providerId`. */
  predicate ProviderIdTaken(rows: Rows, providerId: Option<string>) {
    exists id | id in rows :: rows[id].providerId == providerId
  }

  /**
   * Inserting a new row: the constraints are checked, then the row is stored under the
   * next identity value.
   */
  function Inserted(rows: Rows, nextId: nat, row: UserRow): (r: Result<Rows, DbError>)
    ensures r.Ok? <==>
      row.providerId.Some? && !ProviderIdTaken(rows, row.providerId)
      && !EmailTaken(rows, row.email, None) && nextId <= LONG_MAX
  {
    if row.providerId.None? then Err(NotNullViolation("provider_id"))
    else if ProviderIdTaken(rows, row.providerId) then Err(UniqueViolation("provider_id"))
    else if EmailTaken(rows, row.email, None) then Err(UniqueViolation("email"))
    else if nextId > LONG_MAX then Err(IdentityExhausted)
    else Ok(rows[nextId := row.(id := Some(nextId))])
  }

  /** An insert adds the new row under the next identity value and keeps every other row. */
  lemma InsertedKeepsOthers(rows: Rows, nextId: nat, row: UserRow)
    requires Inserted(rows, nextId, row).Ok?
    ensures var r := Inserted(rows, nextId, row).value;
      && nextId in r && r[nextId] == row.(id := Some(nextId))
      && forall id | id in rows :: id != nextId ==> id in r && r[id] == rows[id]
  {
  }

  /** A row the constraints let through keeps them. */
  lemma InsertedConsistent(rows: Rows, nextId: nat, row: UserRow)
    requires Consistent(rows, nextId)
    ensures Inserted(rows, nextId, row).Ok? ==> Consistent(Inserted(rows, nextId, row).value, nextId + 1)
  {
    if Inserted(rows, nextId, row).Ok? {
      var inserted := Inserted(rows, nextId, row).value;
      assert forall k | k in inserted :: k == nextId || (k in rows && inserted[k] == rows[k]);
    }
  }

  /** The rows after an insert that goes through. */
  lemma InsertedRows(rows: Rows, nextId: nat, row: UserRow)
    requires Inserted(rows, nextId, row).Ok?
    ensures nextId <= LONG_MAX && Inserted(rows, nextId, row).value == rows[nextId := row.(id := Some(nextId))]
  {
  }

  /** The table after an upsert, the next identity value, and the key of the user returned. */
  datatype Upsert = Upsert(rows: Rows, nextId: nat, id: Long)

  /**
   * `upsertSocialUser` on the rows: a user with the profile's identity has its name and email
   * replaced; otherwise a new user is inserted. A write the constraints refuse changes nothing.
   */
  ghost function Upserted(rows: Rows, nextId: nat, profile: SocialUserProfile): (r: Result<Upsert, DbError>)
    ensures r.Ok? ==> r.value.id in r.value.rows && HasIdentity(r.value.rows[r.value.id], profile.provider, profile.providerId)
    ensures r.Ok? ==> r.value.rows[r.value.id].name == profile.name && r.value.rows[r.value.id].email == profile.email
    ensures r.Ok? ==> r.value.rows.Keys == rows.Keys + {r.value.id}
  {
    match FindByIdentity(rows, profile.provider, profile.providerId)
    case Some(id) =>
      if EmailTaken(rows, profile.email, Some(id)) then Err(UniqueViolation("email"))
      else Ok(Upsert(rows[id := WithProfile(rows[id], profile.name, profile.email)], nextId, id))
    case None =>
      match Inserted(rows, nextId, NewRow(profile))
      case Ok(inserted) => Ok(Upsert(inserted, nextId + 1, nextId))
      case Err(e) => Err(e)
  }

  /** The keys of the rows with a given identity. */
  ghost function WithIdentity(rows: Rows, provider: AuthProvider, providerId: Option<string>): set<Long> {
    set id | id in rows && HasIdentity(rows[id], provider, providerId)
  }

  /** An upsert keeps the table's constraints. */
  lemma UpsertedConsistent(rows: Rows, nextId: nat, profile: SocialUserProfile)
    requires Consistent(rows, nextId)
    ensures Upserted(rows, nextId, profile).Ok? ==>
      var u := Upserted(rows, nextId, profile).value;
      Consistent(u.rows, u.nextId)
  {
    match FindByIdentity(rows, profile.provider, profile.providerId)
    case Some(id) =>
      if !EmailTaken(rows, profile.email, Some(id)) {
        ProfileUpdateConsistent(rows, nextId, id, profile.name, profile.email);
      }
    case None =>
      InsertedConsistent(rows, nextId, NewRow(profile));
  }

  /** A new name and an email no other row holds keep the table's constraints. */
  lemma ProfileUpdateConsistent(rows: Rows, nextId: nat, id: Long, name: Option<string>, email: Option<string>)
    requires Consistent(rows, nextId) && id in rows && !EmailTaken(rows, email, Some(id))
    ensures Consistent(rows[id := WithProfile(rows[id], name, email)], nextId)
  {
    var updated := rows[id := WithProfile(rows[id], name, email)];
    assert forall k | k in updated :: k in rows && updated[k].providerId == rows[k].providerId && updated[k].id == rows[k].id;
    assert forall k | k in updated && k != id :: updated[k] == rows[k];
  }

  /**
   * The user returned carries the profile: the existing user's key when there was one, a fresh
   * key otherwise, and in both cases the profile's identity, name and email.
   */
  lemma UpsertedRow(rows: Rows, nextId: nat, profile: SocialUserProfile)
    requires Consistent(rows, nextId)
    ensures Upserted(rows, nextId, profile).Ok? ==>
      var u := Upserted(rows, nextId, profile).value;
      && u.id in u.rows
      && HasIdentity(u.rows[u.id], profile.provider, profile.providerId)
      && u.rows[u.id].name == profile.name && u.rows[u.id].email == profile.email
      && (if WithIdentity(rows, profile.provider, profile.providerId) == {}
          then u.id !in rows && u.nextId == nextId + 1
          else u.id in rows && u.nextId == nextId)
  {
    var r := FindByIdentity(rows, profile.provider, profile.providerId);
    if r.Some? {
      assert r.value in WithIdentity(rows, profile.provider, profile.providerId);
    } else {
      assert WithIdentity(rows, profile.provider, profile.providerId) == {};
    }
  }

  /** No stored user other than the one returned is touched, and none is removed. */
  lemma UpsertedOthersUnchanged(rows: Rows, nextId: nat, profile: SocialUserProfile)
    requires Consistent(rows, nextId)
    ensures Upserted(rows, nextId, profile).Ok? ==>
      var u := Upserted(rows, nextId, profile).value;
      && u.rows.Keys == rows.Keys + {u.id}
      && forall id | id in rows && id != u.id :: u.rows[id] == rows[id]
  {
  }

  /** An upsert fails exactly when the database would refuse the write. */
  lemma UpsertedFails(rows: Rows, nextId: nat, profile: SocialUserProfile)
    requires Consistent(rows, nextId)
    ensures Upserted(rows, nextId, profile).Err? <==>
      if WithIdentity(rows, profile.provider, profile.providerId) == {} then
        profile.providerId.None? || ProviderIdTaken(rows, profile.providerId)
        || EmailTaken(rows, profile.email, None) || nextId > LONG_MAX
      else
        var id :| id in WithIdentity(rows, profile.provider, profile.providerId);
        EmailTaken(rows, profile.email, Some(id))
  {
    var r := FindByIdentity(rows, profile.provider, profile.providerId);
    if r.Some? {
      var ids := WithIdentity(rows, profile.provider, profile.providerId);
      assert r.value in ids;
      assert ids == {r.value};
    } else {
      assert WithIdentity(rows, profile.provider, profile.providerId) == {};
    }
  }

  /**
   * Upserting the same profile twice leaves exactly one user with that identity, and the
   * second upsert changes nothing and returns the same user.
   */
  lemma UpsertedTwice(rows: Rows, nextId: nat, profile: SocialUserProfile)
    requires Consistent(rows, nextId)
    requires Upserted(rows, nextId, profile).Ok?
    ensures var u := Upserted(rows, nextId, profile).value;
      && WithIdentity(u.rows, profile.provider, profile.providerId) == {u.id}
      && Upserted(u.rows, u.nextId, profile) == Ok(u)
  {
    var u := Upserted(rows, nextId, profile).value;
    UpsertedConsistent(rows, nextId, profile);
    UpsertedRow(rows, nextId, profile);
    var ids := WithIdentity(u.rows, profile.provider, profile.providerId);
    assert u.id in ids;
    assert ids == {u.id};
    var again := FindByIdentity(u.rows, profile.provider, profile.providerId);
    assert again == Some(u.id);
    assert !EmailTaken(u.rows, profile.email, Some(u.id));
    assert u.rows[u.id := WithProfile(u.rows[u.id], profile.name, profile.email)] == u.rows;
  }

  /**
   * The `users` table as the entities that stand for its rows: `users[id]` is the managed
   * entity whose id is `id`, and `nextId` is the next value of the identity column.
   */
  class UserRepository {
    var users: map<Long, User>
    var nextId: nat

    ghost function Rows(): Rows
      reads this, users.Values
    {
      map id | id in users :: users[id].Row()
    }

    ghost predicate Valid()
      reads this, users.Values
    {
      Consistent(Rows(), nextId)
    }

    constructor ()
      ensures Valid() && Rows() == map[] && nextId == 1
    {
      users := map[];
      nextId := 1;
    }

    /** `findById`. */
    function FindById(id: Long): (r: Option<User>)
      reads this
      ensures r.Some? <==> id in users
      ensures r.Some? ==> r.value == users[id]
    {
      if id in users then Some(users[id]) else None
    }

    /** `findByProviderAndProviderId`: the entity of the one row with that identity, if any. */
    method FindByProviderAndProviderId(provider: AuthProvider, providerId: Option<string>) returns (r: Option<User>)
      requires Valid()
      ensures r.Some? <==> FindByIdentity(Rows(), provider, providerId).Some?
      ensures r.Some? ==> r.value == users[FindByIdentity(Rows(), provider, providerId).value]
    {
      if exists id | id in users :: users[id].provider == provider && users[id].providerId == providerId {
        var id :| id in users && users[id].provider == provider && users[id].providerId == providerId;
        assert Rows()[id] == users[id].Row();
        r := Some(users[id]);
      } else {
        r := None;
        assert forall id | id in Rows() :: Rows()[id] == users[id].Row();
      }
    }

    /** Whether another row holds the non-null `email`: the unique constraint on `email`. */
    method EmailInUse(email: Option<string>, except: Option<Long>) returns (taken: bool)
      requires Valid()
      ensures taken == EmailTaken(Rows(), email, except)
    {
      taken := email.Some? && exists id | id in users :: Some(id) != except && users[id].email == email;
      if taken {
        var id :| id in users && Some(id) != except && users[id].email == email;
        assert Rows()[id].email == email;
      }
    }

    /** `save` of a new entity: the row is inserted under the next identity value, or refused. */
    method Save(user: User) returns (r: Result<User, DbError>)
      requires Valid() && user !in users.Values && user.id.None?
      modifies this, user
      ensures Valid()
      ensures match Inserted(old(Rows()), old(nextId), old(user.Row()))
        case Ok(rows) =>
          && r == Ok(user) && Rows() == rows && nextId == old(nextId) + 1
          && users == old(users)[old(nextId) := user]
        case Err(e) =>
          r == Err(e) && users == old(users) && nextId == old(nextId) && unchanged(user)
    {
      var refused := Refusal(user.Row());
      assert Rows() == old(Rows());
      if refused.Some? {
        r := Err(refused.value);
      } else {
        ghost var rows, row := Rows(), user.Row();
        InsertedConsistent(rows, nextId, row);
        InsertedRows(rows, nextId, row);
        KeysBelowNext();
        Persist(user);
        r := Ok(user);
      }
    }

    /** The constraint a new row would break, checked in the order the insert checks them. */
    method Refusal(row: UserRow) returns (refused: Option<DbError>)
      requires Valid()
      ensures refused.None? <==> Inserted(Rows(), nextId, row).Ok?
      ensures refused.Some? ==> Inserted(Rows(), nextId, row) == Err(refused.value)
    {
      ghost var rows := Rows();
      var providerIdTaken := exists id | id in users :: users[id].providerId == row.providerId;
      assert providerIdTaken == ProviderIdTaken(rows, row.providerId) by {
        if providerIdTaken {
          var id :| id in users && users[id].providerId == row.providerId;
          assert rows[id].providerId == row.providerId;
        }
      }
      var emailTaken := EmailInUse(row.email, None);
      if row.providerId.None? {
        refused := Some(NotNullViolation("provider_id"));
      } else if providerIdTaken {
        refused := Some(UniqueViolation("provider_id"));
      } else if emailTaken {
        refused := Some(UniqueViolation("email"));
      } else if nextId > LONG_MAX {
        refused := Some(IdentityExhausted);
      } else {
        refused := None;
      }
    }

    /** The entity stored under `id` carries that id, and its row is the table's row `id`. */
    lemma StoredRow(id: Long)
      requires Valid() && id in users
      ensures users[id].id == Some(id) && id in Rows() && Rows()[id] == users[id].Row()
    {
      assert Rows()[id] == users[id].Row();
    }

    lemma KeysBelowNext()
      requires Valid()
      ensures forall k | k in users :: k < nextId
    {
      forall k | k in users
        ensures k < nextId
      {
        assert k in Rows();
      }
    }

    /** The insert itself: the entity gets the next identity value and joins the table. */
    method Persist(user: User)
      requires user !in users.Values && nextId <= LONG_MAX
      requires forall k | k in users :: k < nextId
      modifies this, user
      ensures Rows() == old(Rows())[old(nextId) := old(user.Row()).(id := Some(old(nextId)))]
      ensures users == old(users)[old(nextId) := user] && nextId == old(nextId) + 1
    {
      var id: Long := nextId;
      user.id := Some(id);
      users := users[id := user];
      nextId := nextId + 1;
      assert forall k | k in old(users) :: users[k] == old(users)[k] && users[k] != user;
    }
  }
}
