/**
 * The account service: reads and writes of the user table, which the store
 * keys by id and in which no two rows share an email (the table's unique
 * index). The service's reads are functions of the table; its writes are
 * methods of `UserTable`, which owns the table.
 */
module Users {
  import opened Records

  /** The body of a registration request: every column the caller supplies. */
  datatype NewUser = NewUser(
    email: string,
    firstName: Option<string>,
    lastName: Option<string>,
    avatar: Option<string>,
    password: string)

  /** The columns updateUser copies from the request body. */
  datatype UserPatch = UserPatch(
    firstName: Field<Option<string>>,
    lastName: Field<Option<string>>,
    email: Field<string>,
    avatar: Field<Option<string>>)

  ghost predicate KeyedById(users: map<UserId, User>) {
    forall i | i in users :: users[i].id == i
  }

  ghost predicate EmailsUnique(users: map<UserId, User>) {
    forall i, j | i in users && j in users && users[i].email == users[j].email :: i == j
  }

  /** What the store guarantees of the user table at all times. */
  ghost predicate WellFormed(users: map<UserId, User>) {
    KeyedById(users) && EmailsUnique(users)
  }

  /** Some row other than `id`'s carries `email`. */
  predicate EmailHeldByOther(users: map<UserId, User>, email: string, id: UserId) {
    exists i | i in users :: i != id && users[i].email == email
  }

  /** `user.findUnique({ where: { email } })`: the one row with that email, if any. */
  function ByEmail(users: map<UserId, User>, email: string): (r: Option<User>)
    requires WellFormed(users)
    ensures r.Some? <==> exists i | i in users :: users[i].email == email
    ensures r.Some? ==> r.value.id in users && users[r.value.id] == r.value && r.value.email == email
  {
    if exists i | i in users :: users[i].email == email then
      var i :| i in users && users[i].email == email;
      Some(users[i])
    else
      None
  }

  /** The projection `select { ..., password: false }`: every column but the password. */
  function View(u: User): UserView {
    UserView(u.id, u.firstName, u.lastName, u.avatar, u.email, u.createdAt, u.updatedAt)
  }

  /** The projection of updateUser's `select`: no id, no updatedAt, no password. */
  function UpdatedView(u: User): UpdatedUserView {
    UpdatedUserView(u.firstName, u.lastName, u.avatar, u.email, u.createdAt)
  }

  /** A view together with the password gives back the row: the view drops the password and nothing else. */
  lemma ViewDropsOnlyPassword(u: User)
    ensures var v := View(u);
      User(v.id, v.email, v.firstName, v.lastName, v.avatar, u.password, v.createdAt, v.updatedAt) == u
  {
  }

  /** An update view together with id, password and updatedAt gives back the row. */
  lemma UpdatedViewDropsOnlyIdStampAndPassword(u: User)
    ensures var v := UpdatedView(u);
      User(u.id, v.email, v.firstName, v.lastName, v.avatar, u.password, v.createdAt, u.updatedAt) == u
  {
  }

  /** getUser: the public view of the row with that id, or null when there is none. */
  function GetUser(users: map<UserId, User>, id: UserId): (r: Option<UserView>)
    requires WellFormed(users)
    ensures r.Some? <==> id in users
    ensures r.Some? ==> r.value.id == id && r.value == View(users[id])
  {
    if id in users then Some(View(users[id])) else None
  }

  /** getMe: the public view of the row with that email, or null when there is none. */
  function GetMe(users: map<UserId, User>, email: string): (r: Option<UserView>)
    requires WellFormed(users)
    ensures r.Some? <==> exists i | i in users :: users[i].email == email
    ensures r.Some? ==> r.value.email == email && r.value.id in users && r.value == View(users[r.value.id])
  {
    match ByEmail(users, email)
    case Some(u) => Some(View(u))
    case None => None
  }

  /** The user table. */
  class UserTable {
    var rows: map<UserId, User>

    ghost predicate Valid()
      reads this
    {
      WellFormed(rows)
    }

    constructor ()
      ensures Valid() && rows == map[]
    {
      rows := map[];
    }

    /**
     * createUser. `newId` is the id the store generates for the row. A taken
     * email is refused before the store is asked; a failure of the store
     * itself (here: the id is taken) is turned into BadRequest as well.
     */
    method CreateUser(data: NewUser, newId: UserId, now: Time) returns (r: Result<User>)
      requires Valid()
      modifies this
      ensures Valid()
      ensures r.Err? ==> r.error == BadRequest && rows == old(rows)
      ensures r.Ok? <==> !(exists i | i in old(rows) :: old(rows)[i].email == data.email) && newId !in old(rows)
      ensures r.Ok? ==>
        && r.value == User(newId, data.email, data.firstName, data.lastName, data.avatar, data.password, now, now)
        && rows == old(rows)[newId := r.value]
        && GetMe(rows, data.email) == Some(View(r.value))
    {
      var existing := ByEmail(rows, data.email);
      if existing.Some? {
        return Err(BadRequest);
      }
      if newId in rows {
        return Err(BadRequest);
      }
      var u := User(newId, data.email, data.firstName, data.lastName, data.avatar, data.password, now, now);
      rows := rows[newId := u];
      r := Ok(u);
      assert rows[newId].email == data.email;
      assert GetMe(rows, data.email).value.id == newId;
    }

    /**
     * updateUser: writes first name, last name, email and avatar (those the
     * body defines) of the row with that id; the store stamps updatedAt.
     * The store refuses a missing row, and an email another row holds.
     */
    method UpdateUser(id: UserId, patch: UserPatch, now: Time) returns (r: Result<UpdatedUserView>)
      requires Valid()
      modifies this
      ensures Valid()
      ensures id !in old(rows) ==> r == Err(RecordNotFound) && rows == old(rows)
      ensures id in old(rows) && patch.email.Set? && EmailHeldByOther(old(rows), patch.email.value, id) ==>
        r == Err(UniqueViolation) && rows == old(rows)
      ensures r.Ok? <==> id in old(rows) && !(patch.email.Set? && EmailHeldByOther(old(rows), patch.email.value, id))
      ensures r.Err? ==> rows == old(rows)
      ensures r.Ok? ==>
        && rows.Keys == old(rows).Keys
        && (forall k | k in rows && k != id :: rows[k] == old(rows)[k])
        && rows[id].id == id
        && rows[id].password == old(rows)[id].password
        && rows[id].createdAt == old(rows)[id].createdAt
        && rows[id].updatedAt == now
        && rows[id].firstName == patch.firstName.Apply(old(rows)[id].firstName)
        && rows[id].lastName == patch.lastName.Apply(old(rows)[id].lastName)
        && rows[id].email == patch.email.Apply(old(rows)[id].email)
        && rows[id].avatar == patch.avatar.Apply(old(rows)[id].avatar)
        && r.value == UpdatedView(rows[id])
    {
      if id !in rows {
        return Err(RecordNotFound);
      }
      if patch.email.Set? && EmailHeldByOther(rows, patch.email.value, id) {
        return Err(UniqueViolation);
      }
      var u := rows[id];
      var updated := u.(
        firstName := patch.firstName.Apply(u.firstName),
        lastName := patch.lastName.Apply(u.lastName),
        email := patch.email.Apply(u.email),
        avatar := patch.avatar.Apply(u.avatar),
        updatedAt := now);
      rows := rows[id := updated];
      r := Ok(UpdatedView(updated));
    }

    /** updateUserAvatarByEmail: sets the avatar of the row with that email, which must exist. */
    method UpdateUserAvatarByEmail(email: string, imagePath: string, now: Time) returns (r: Result<()>)
      requires Valid()
      modifies this
      ensures Valid()
      ensures r.Err? ==> r.error == RecordNotFound && rows == old(rows)
      ensures r.Ok? <==> exists i | i in old(rows) :: old(rows)[i].email == email
      ensures r.Ok? ==>
        var u := ByEmail(old(rows), email).value;
        rows == old(rows)[u.id := u.(avatar := Some(imagePath), updatedAt := now)]
      ensures r.Ok? ==> GetMe(rows, email).Some? && GetMe(rows, email).value.avatar == Some(imagePath)
    {
      var found := ByEmail(rows, email);
      if found.None? {
        return Err(RecordNotFound);
      }
      var u := found.value;
      rows := rows[u.id := u.(avatar := Some(imagePath), updatedAt := now)];
      r := Ok(());
      assert rows[u.id].email == email;
      assert GetMe(rows, email).value.id == u.id;
    }

    /** deleteUser: removes the row with that id, which must exist, and returns it as stored. */
    method DeleteUser(id: UserId) returns (r: Result<User>)
      requires Valid()
      modifies this
      ensures Valid()
      ensures id !in old(rows) ==> r == Err(RecordNotFound) && rows == old(rows)
      ensures id in old(rows) ==> r == Ok(old(rows)[id]) && rows == old(rows) - {id}
      ensures GetUser(rows, id) == None
    {
      if id !in rows {
        return Err(RecordNotFound);
      }
      r := Ok(rows[id]);
      rows := rows - {id};
    }
  }
}
