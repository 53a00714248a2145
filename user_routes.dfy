/** The auth and `/users` router: the registration schema, register, login,
    the user listing and the password change. The stored password is always
    a bcrypt digest and no response carries it. */
module UserRoutes {
  import opened Wrappers
  import opened Text
  import opened Entities
  import opened Store
  import Crypto

  /** A registration body as received. */
  datatype UserBody = UserBody(name: Field, email: Field, password: Field)

  /** A body that passed `UserSchema`. */
  datatype UserInput = UserInput(name: string, email: string, password: string)

  /** `UserSchema.parse(body)`. */
  function ParseUser(b: UserBody): (r: Option<UserInput>)
    ensures r.Some? <==>
      && b.name.JsonString? && Utf16Length(b.name.text) >= 2
      && b.email.JsonString? && IsEmail(b.email.text)
      && b.password.JsonString? && Utf16Length(b.password.text) >= 6
    ensures r.Some? ==>
      b.name == JsonString(r.value.name) && b.email == JsonString(r.value.email) && b.password == JsonString(r.value.password)
  {
    match (b.name, b.email, b.password)
    case (JsonString(name), JsonString(email), JsonString(password)) =>
      if Utf16Length(name) >= 2 && IsEmail(email) && Utf16Length(password) >= 6
      then Some(UserInput(name, email, password))
      else None
    case _ => None
  }

  /** What register and login send back: the user without the password, and a token. */
  datatype AuthPayload = AuthPayload(user: UserView, token: Crypto.Token)

  /** The response for a user row: its projection and a token carrying its id and email. */
  function PayloadFor(u: User): (p: AuthPayload)
    ensures p.user == View(u)
    ensures p.token.id == u.id && p.token.email == u.email
  {
    AuthPayload(View(u), Crypto.Sign(u.id, u.email))
  }

  /** POST /auth/register. A taken email is refused by the unique constraint. */
  method Register(db: Db, body: UserBody, newId: Id, now: int) returns (r: Response<AuthPayload>)
    requires db.Valid() && newId !in db.users
    modifies db
    ensures db.Valid()
    ensures ParseUser(body).None? ==> r.BadRequest?
    ensures ParseUser(body).Some? && EmailTaken(old(db.users), ParseUser(body).value.email) ==> r.ServerError?
    ensures ParseUser(body).Some? && !EmailTaken(old(db.users), ParseUser(body).value.email) ==>
      var i := ParseUser(body).value;
      var u := User(newId, i.name, i.email, Crypto.Hash(i.password), now);
      && db.users == old(db.users)[newId := u]
      && r == Ok(PayloadFor(u))
    ensures !r.Ok? ==> db.users == old(db.users)
    ensures db.projects == old(db.projects) && db.tasks == old(db.tasks)
  {
    var input := ParseUser(body);
    if input.None? {
      return BadRequest;
    }
    if EmailTaken(db.users, input.value.email) {
      return ServerError;
    }
    var u := User(newId, input.value.name, input.value.email, Crypto.Hash(input.value.password), now);
    db.users := db.users[newId := u];
    r := Ok(PayloadFor(u));
  }

  /** A login body as received; it is not validated. */
  datatype LoginBody = LoginBody(email: Option<string>, password: Option<string>)

  /** Some user has this email and this password matches the user's digest. */
  predicate Credentials(users: map<Id, User>, email: string, password: string) {
    exists k :: k in users && users[k].email == email && Crypto.Compare(password, users[k].password)
  }

  /** POST /auth/login. A missing email makes the lookup throw; an unknown
      email or a wrong password is 401; a missing password, for a known
      email, makes `bcrypt.compare` throw. */
  method Login(db: Db, body: LoginBody) returns (r: Response<AuthPayload>)
    requires db.Valid()
    ensures r.Ok? || r.Unauthorized? || r.ServerError?
    ensures body.email.None? ==> r.ServerError?
    ensures body.email.Some? && !EmailTaken(db.users, body.email.value) ==> r.Unauthorized?
    ensures body.email.Some? && EmailTaken(db.users, body.email.value) && body.password.None? ==> r.ServerError?
    ensures body.email.Some? && body.password.Some? ==>
      (r.Ok? <==> Credentials(db.users, body.email.value, body.password.value))
    ensures body.email.Some? && body.password.Some? && !Credentials(db.users, body.email.value, body.password.value) ==>
      r.Unauthorized?
    ensures r.Ok? ==>
      exists k :: && k in db.users && db.users[k].email == body.email.value
                  && Crypto.Compare(body.password.value, db.users[k].password)
                  && r.body == PayloadFor(db.users[k])
  {
    if body.email.None? {
      return ServerError;
    }
    var u := db.FindUserByEmail(body.email.value);
    if u.None? {
      return Unauthorized;
    }
    if body.password.None? {
      return ServerError;
    }
    if !Crypto.Compare(body.password.value, u.value.password) {
      return Unauthorized;
    }
    r := Ok(PayloadFor(u.value));
  }

  /** Login and registration answers never depend on the stored digest. */
  lemma PayloadIgnoresDigest(u: User, d: Crypto.Digest)
    ensures PayloadFor(u.(password := d)) == PayloadFor(u)
  {
  }

  datatype ProjectRef = ProjectRef(id: Id, name: string)
  datatype TaskRef = TaskRef(id: Id, title: string, status: TaskStatus)

  /** One entry of GET /users: the selected user fields, the projects the
      user owns and the tasks assigned to the user. There is no password field. */
  datatype UserListing = UserListing(id: Id, name: string, email: string, createdAt: int,
                                     projects: set<ProjectRef>, tasks: set<TaskRef>)

  /** The `select` of GET /users applied to one user row. */
  function ListingOf(projects: map<Id, Project>, tasks: map<Id, Task>, u: User): (l: UserListing)
    ensures l.id == u.id && l.name == u.name && l.email == u.email && l.createdAt == u.createdAt
    ensures forall r :: r in l.projects <==> exists k :: k in projects && projects[k].userId == u.id && r == ProjectRef(k, projects[k].name)
    ensures forall r :: r in l.tasks <==>
      exists k :: k in tasks && tasks[k].assignedUserId == u.id && r == TaskRef(k, tasks[k].title, tasks[k].status)
  {
    UserListing(u.id, u.name, u.email, u.createdAt,
                set k | k in projects && projects[k].userId == u.id :: ProjectRef(k, projects[k].name),
                set k | k in tasks && tasks[k].assignedUserId == u.id :: TaskRef(k, tasks[k].title, tasks[k].status))
  }

  /** The listing of a user does not depend on the user's stored digest. */
  lemma ListingIgnoresDigest(projects: map<Id, Project>, tasks: map<Id, Task>, u: User, d: Crypto.Digest)
    ensures ListingOf(projects, tasks, u.(password := d)) == ListingOf(projects, tasks, u)
  {
  }

  /** GET /users: one listing per stored user, and nothing else. */
  method ListUsers(db: Db) returns (r: set<UserListing>)
    ensures forall l :: l in r <==> exists k :: k in db.users && l == ListingOf(db.projects, db.tasks, db.users[k])
  {
    r := set k | k in db.users :: ListingOf(db.projects, db.tasks, db.users[k]);
  }

  /** PUT /users/password with body `{ currentPassword, newPassword }`.
      `bcrypt` throws on a missing argument; nothing checks the new
      password's length. */
  method ChangePassword(db: Db, caller: Id, currentPassword: Option<string>, newPassword: Option<string>) returns (r: Response<()>)
    requires db.Valid()
    modifies db
    ensures db.Valid()
    ensures caller !in old(db.users) ==> r.Unauthorized?
    ensures caller in old(db.users) ==>
      var u := old(db.users)[caller];
      if currentPassword.None? then r.ServerError?
      else if !Crypto.Compare(currentPassword.value, u.password) then r.Unauthorized?
      else if newPassword.None? then r.ServerError?
      else r.Ok? && db.users == old(db.users)[caller := u.(password := Crypto.Hash(newPassword.value))]
    ensures !r.Ok? ==> db.users == old(db.users)
    ensures db.projects == old(db.projects) && db.tasks == old(db.tasks)
  {
    if caller !in db.users {
      return Unauthorized;
    }
    var u := db.users[caller];
    if currentPassword.None? {
      return ServerError;
    }
    if !Crypto.Compare(currentPassword.value, u.password) {
      return Unauthorized;
    }
    if newPassword.None? {
      return ServerError;
    }
    db.users := db.users[caller := u.(password := Crypto.Hash(newPassword.value))];
    r := Ok(());
  }

  /** After a password change the new password logs in; among passwords
      bcrypt reads in full it is the only one, while a longer password is
      matched by anything sharing its first 72 key bytes. */
  lemma ChangedPasswordLogsIn(u: User, newPassword: string, candidate: string)
    ensures Crypto.Compare(newPassword, u.(password := Crypto.Hash(newPassword)).password)
    ensures Crypto.FitsKey(newPassword) && Crypto.FitsKey(candidate) ==>
      (Crypto.Compare(candidate, u.(password := Crypto.Hash(newPassword)).password) <==> candidate == newPassword)
  {
    Crypto.CompareHash(newPassword, candidate);
  }
}
