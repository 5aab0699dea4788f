/**
 * The user side that AdminServiceImpl touches: the User entity's enabled flag, roles and profile link, and the
 * user table. entity/User.java and entity/enums/Role.java are not part of this model; the fields below are the
 * ones the admin service reads or sets.
 */
module Users {
  import opened Common

  /** The two roles the tests use. */
  datatype Role = RoleUser | RoleAdmin

  class User {
    const id: Uuid
    var enabled: bool
    var roles: set<Role>
    /** Whether a UserProfile row is attached (its fields are left out). */
    var hasProfile: bool

    constructor (id: Uuid, enabled: bool, roles: set<Role>, hasProfile: bool)
      ensures this.id == id && this.enabled == enabled && this.roles == roles && this.hasProfile == hasProfile
    {
      this.id := id;
      this.enabled := enabled;
      this.roles := roles;
      this.hasProfile := hasProfile;
    }
  }

  class UserRepository {
    var users: map<Uuid, User>
    /** The ids passed to save, in call order. */
    var saveLog: seq<Uuid>

    ghost predicate Valid()
      reads this
    {
      forall k :: k in users ==> users[k].id == k
    }

    constructor ()
      ensures Valid() && users == map[] && saveLog == []
    {
      users := map[];
      saveLog := [];
    }

    method Save(user: User)
      modifies this
      ensures users == old(users)[user.id := user]
      ensures saveLog == old(saveLog) + [user.id]
    {
      users := users[user.id := user];
      saveLog := saveLog + [user.id];
    }
  }
}

/** service/query/UserQueryService.java */
module UserQueryService {
  import opened Common
  import opened Users
  import opened Errors

  /** findByIdOrThrow: the user with that id, or ResourceNotFound. */
  function FindByIdOrThrow(repo: UserRepository, userId: Uuid): (r: Result<User>)
    reads repo
    ensures r.Ok? <==> userId in repo.users
    ensures r.Ok? ==> r.value == repo.users[userId]
    ensures r.Err? ==> r.error == ResourceNotFound("User", userId)
  {
    if userId in repo.users then Ok(repo.users[userId]) else Err(ResourceNotFound("User", userId))
  }
}
