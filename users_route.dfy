/**
 * `/api/users` (src/app/api/users/route.ts): user administration, open to administrators
 * only. `GET` lists the users newest first without passwords; `POST` creates a user with
 * the role given, "USER" when none is, and logs the creation against the administrator.
 */
module UsersRoute {
  import opened Wrappers
  import opened Text
  import opened Store
  import RegisterRoute

  const DefaultRole: string := "USER"

  /** `session?.user?.id && session.user.role === "ADMIN"`. */
  predicate IsAdmin(caller: Option<Session>) {
    caller.Some? && caller.value.role == "ADMIN"
  }

  datatype NewUserBody = NewUserBody(name: Option<string>, email: Option<string>, password: Option<string>, role: Option<string>)

  /** The users in reverse creation order (`orderBy: { createdAt: "desc" }`), without passwords. */
  function Listing(users: seq<User>): (r: seq<RegisterRoute.PublicUser>)
    ensures |r| == |users|
    ensures forall i :: 0 <= i < |users| ==> r[i] == RegisterRoute.PublicOf(users[|users| - 1 - i])
  {
    if users == [] then []
    else [RegisterRoute.PublicOf(users[|users| - 1])] + Listing(users[..|users| - 1])
  }

  /** The `GET` handler: 403 for anyone but an administrator. */
  method Get(db: Database, caller: Option<Session>) returns (reply: Reply<seq<RegisterRoute.PublicUser>>)
    ensures !IsAdmin(caller) ==> reply == Err(403, "Unauthorized")
    ensures IsAdmin(caller) ==> reply == Ok(200, Listing(db.users))
  {
    if caller.None? || caller.value.role != "ADMIN" {
      return Err(403, "Unauthorized");
    }
    reply := Ok(200, Listing(db.users));
  }

  /** The guards of `POST`, in order: administrator (403), fields (400), email not taken (400); `None` lets it through. */
  function CreateCheck(caller: Option<Session>, body: NewUserBody, users: seq<User>): (r: Option<(nat, string)>)
    ensures !IsAdmin(caller) ==> r == Some((403, "Unauthorized"))
    ensures IsAdmin(caller) && !(Truthy(body.name) && Truthy(body.email) && Truthy(body.password))
      ==> r == Some((400, "ข้อมูลไม่ครบ"))
    ensures IsAdmin(caller) && Truthy(body.name) && Truthy(body.email) && Truthy(body.password)
            && UserWithEmail(users, body.email.value).Some?
      ==> r == Some((400, "อีเมลนี้ถูกใช้แล้ว"))
    ensures r.None? <==> IsAdmin(caller) && Truthy(body.name) && Truthy(body.email) && Truthy(body.password)
                         && forall i :: 0 <= i < |users| ==> users[i].email != body.email.value
  {
    if !IsAdmin(caller) then Some((403, "Unauthorized"))
    else if !Truthy(body.name) || !Truthy(body.email) || !Truthy(body.password) then Some((400, "ข้อมูลไม่ครบ"))
    else if UserWithEmail(users, body.email.value).Some? then Some((400, "อีเมลนี้ถูกใช้แล้ว"))
    else None
  }

  /** `role || "USER"`. */
  function RoleOf(role: Option<string>): (r: string)
    ensures Truthy(role) ==> r == role.value
    ensures !Truthy(role) ==> r == DefaultRole
  {
    OrNull(role).GetOr(DefaultRole)
  }

  /**
   * Unlike self-registration, an administrator may create a user with a one-character
   * password, which registration refuses.
   */
  lemma NoMinimumLength(admin: Session, name: string, email: string, users: seq<User>)
    requires admin.role == "ADMIN" && name != [] && email != []
    requires forall i :: 0 <= i < |users| ==> users[i].email != email
    ensures CreateCheck(Some(admin), NewUserBody(Some(name), Some(email), Some("x"), None), users).None?
    ensures RegisterRoute.RegisterCheck(RegisterRoute.RegisterBody(Some(name), Some(email), Some("x")), users).Some?
  {
  }

  /** The `POST` handler; `hash` stands for bcrypt. */
  method Post(db: Database, caller: Option<Session>, body: NewUserBody, hash: string -> string)
    returns (reply: Reply<RegisterRoute.PublicUser>)
    requires db.Valid()
    modifies db
    ensures db.Valid()
    ensures var c := CreateCheck(caller, body, old(db.users));
      && (c.Some? ==> reply == Err(c.value.0, c.value.1) && unchanged(db))
      && (c.None? ==>
            var u := User(old(db.nextId), body.name.value, body.email.value, hash(body.password.value), RoleOf(body.role));
            && db.users == old(db.users) + [u]
            && db.logs == old(db.logs) + [ActivityLog(caller.value.userId, "CREATE_USER", "Created user: " + body.email.value)]
            && reply == Ok(200, RegisterRoute.PublicOf(u)))
    ensures db.notifications == old(db.notifications) && db.testResults == old(db.testResults)
    ensures db.playlists == old(db.playlists) && db.schedules == old(db.schedules)
  {
    if caller.None? || caller.value.role != "ADMIN" {
      return Err(403, "Unauthorized");
    }
    if !Truthy(body.name) || !Truthy(body.email) || !Truthy(body.password) {
      return Err(400, "ข้อมูลไม่ครบ");
    }
    var email := body.email.value;
    var existing := UserWithEmail(db.users, email);
    if existing.Some? {
      return Err(400, "อีเมลนี้ถูกใช้แล้ว");
    }
    var hashedPassword := hash(body.password.value);
    var role := if Truthy(body.role) then body.role.value else DefaultRole;
    var user := db.CreateUser(body.name.value, email, hashedPassword, role);
    db.Log(caller.value.userId, "CREATE_USER", "Created user: " + email);
    reply := Ok(200, RegisterRoute.PublicUser(user.id, user.name, user.email, user.role));
  }
}
