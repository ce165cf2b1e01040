/** `UserService`: the social-login upsert over the user repository. */
module UserServices {
  import opened Wrappers
  import opened JavaText
  import opened Users

  class UserService {
    const repository: UserRepository

    constructor (repository: UserRepository)
      ensures this.repository == repository
    {
      this.repository := repository;
    }

    /**
     * `upsertSocialUser`: the stored user with the profile's (provider, providerId) gets the
     * profile's name and email in place and is returned; without one, a new user is saved.
     * The table ends as `Upserted` says; a write the constraints refuse rolls back.
     */
    method UpsertSocialUser(profile: SocialUserProfile) returns (r: Result<User, DbError>)
      requires repository.Valid()
      modifies repository, repository.users.Values
      ensures repository.Valid()
      ensures match Upserted(old(repository.Rows()), old(repository.nextId), profile)
        case Ok(u) =>
          && r.Ok? && repository.Rows() == u.rows && repository.nextId == u.nextId
          && u.id in repository.users && r.value == repository.users[u.id]
          && (u.id in old(repository.users) ==> r.value == old(repository.users[u.id]))
        case Err(e) =>
          && r == Err(e) && repository.users == old(repository.users)
          && repository.Rows() == old(repository.Rows()) && repository.nextId == old(repository.nextId)
      ensures r.Ok? ==> r.value.id.Some? && r.value.id.value in repository.users && repository.users[r.value.id.value] == r.value
    {
      ghost var outcome := Upserted(repository.Rows(), repository.nextId, profile);
      var found := repository.FindByProviderAndProviderId(profile.provider, profile.providerId);
      assert repository.Rows() == old(repository.Rows());
      match found
      case Some(existing) =>
        ghost var id := FindByIdentity(repository.Rows(), profile.provider, profile.providerId).value;
        r := UpdateExisting(existing, id, profile);
      case None =>
        r := SaveNew(profile);
      if r.Ok? {
        repository.StoredRow(outcome.value.id);
      }
    }

    /** The branch for a user that is already stored under the profile's identity. */
    method UpdateExisting(existing: User, ghost id: Long, profile: SocialUserProfile) returns (r: Result<User, DbError>)
      requires repository.Valid()
      requires FindByIdentity(repository.Rows(), profile.provider, profile.providerId) == Some(id)
      requires id in repository.users && repository.users[id] == existing
      modifies existing
      ensures repository.Valid()
      ensures match Upserted(old(repository.Rows()), old(repository.nextId), profile)
        case Ok(u) =>
          && r.Ok? && repository.Rows() == u.rows && repository.nextId == u.nextId
          && u.id in repository.users && r.value == repository.users[u.id]
          && (u.id in old(repository.users) ==> r.value == old(repository.users[u.id]))
        case Err(e) =>
          && r == Err(e) && repository.users == old(repository.users)
          && repository.Rows() == old(repository.Rows()) && repository.nextId == old(repository.nextId)
    {
      ghost var rows := repository.Rows();
      ghost var outcome := Upserted(rows, repository.nextId, profile);
      assert existing.id == rows[id].id == Some(id);
      var taken := repository.EmailInUse(profile.email, existing.id);
      assert repository.Rows() == rows;
      if taken {
        r := Err(UniqueViolation("email"));
        assert outcome == Err(UniqueViolation("email"));
      } else {
        UpsertedConsistent(rows, repository.nextId, profile);
        UpdateStored(existing, id, profile.name, profile.email);
        r := Ok(existing);
        assert outcome.Ok? && outcome.value.rows == repository.Rows();
      }
    }

    /** The branch for a profile no stored user has: a new user is saved. */
    method SaveNew(profile: SocialUserProfile) returns (r: Result<User, DbError>)
      requires repository.Valid()
      requires FindByIdentity(repository.Rows(), profile.provider, profile.providerId).None?
      modifies repository
      ensures repository.Valid()
      ensures match Upserted(old(repository.Rows()), old(repository.nextId), profile)
        case Ok(u) =>
          && r.Ok? && repository.Rows() == u.rows && repository.nextId == u.nextId
          && u.id in repository.users && r.value == repository.users[u.id]
          && (u.id in old(repository.users) ==> r.value == old(repository.users[u.id]))
        case Err(e) =>
          && r == Err(e) && repository.users == old(repository.users)
          && repository.Rows() == old(repository.Rows()) && repository.nextId == old(repository.nextId)
    {
      var user := new User(profile.provider, profile.providerId, profile.email, profile.name);
      assert repository.Rows() == old(repository.Rows());
      r := repository.Save(user);
    }

    /** `updateProfile` on a stored entity: its row changes, the other rows and the map do not. */
    method UpdateStored(existing: User, ghost id: Long, name: Option<string>, email: Option<string>)
      requires repository.Valid() && id in repository.users && repository.users[id] == existing
      modifies existing
      ensures repository.Rows() == old(repository.Rows())[id := WithProfile(old(repository.Rows())[id], name, email)]
    {
      ghost var rows := repository.Rows();
      assert forall k | k in repository.users && k != id :: repository.users[k] != existing by {
        assert forall k | k in repository.users :: rows[k] == repository.users[k].Row();
      }
      existing.UpdateProfile(name, email);
    }
  }
}
