/**
 * `POST /api/auth/register` (src/app/api/auth/register/route.ts): self-registration.
 * Three guards run in order (all fields present, password long enough, email not taken);
 * on success the user is created, a REGISTER log entry and a welcome notification are
 * written for the new id, and the reply carries no password.
 */
module RegisterRoute {
  import opened Wrappers
  import opened Text
  import opened Store

  const MinPasswordLength: nat := 6
  /** The role a new user gets from the `User.role` column default. */
  const DefaultRole: string := "USER"
  const WelcomeTitle: string := "ยินดีต้อนรับ"
  const WelcomeMessage: string := "ยินดีต้อนรับเข้าสู่ระบบ HLS Stream Analyzer"

  datatype RegisterBody = RegisterBody(name: Option<string>, email: Option<string>, password: Option<string>)

  /** The user as the reply shows it: every field but the password. */
  datatype PublicUser = PublicUser(id: nat, name: string, email: string, role: string)

  function PublicOf(u: User): (p: PublicUser)
    ensures p.id == u.id && p.name == u.name && p.email == u.email && p.role == u.role
  {
    PublicUser(u.id, u.name, u.email, u.role)
  }

  predicate FieldsGiven(body: RegisterBody) {
    Truthy(body.name) && Truthy(body.email) && Truthy(body.password)
  }

  /** The guard chain: `None` when registration goes ahead, else the 400 error message. */
  function RegisterCheck(body: RegisterBody, users: seq<User>): (r: Option<string>)
    ensures !FieldsGiven(body) ==> r == Some("Name, email, and password are required")
    ensures FieldsGiven(body) && |body.password.value| < MinPasswordLength
      ==> r == Some("Password must be at least 6 characters")
    ensures FieldsGiven(body) && |body.password.value| >= MinPasswordLength && UserWithEmail(users, body.email.value).Some?
      ==> r == Some("Email already registered")
    ensures r.None? <==> FieldsGiven(body) && |body.password.value| >= MinPasswordLength
                         && forall i :: 0 <= i < |users| ==> users[i].email != body.email.value
  {
    if !Truthy(body.name) || !Truthy(body.email) || !Truthy(body.password) then
      Some("Name, email, and password are required")
    else if |body.password.value| < MinPasswordLength then Some("Password must be at least 6 characters")
    else if UserWithEmail(users, body.email.value).Some? then Some("Email already registered")
    else None
  }

  /** The length bound is inclusive: six characters pass, five do not. */
  lemma PasswordBoundary(name: string, email: string, users: seq<User>)
    requires name != [] && email != [] && forall i :: 0 <= i < |users| ==> users[i].email != email
    ensures RegisterCheck(RegisterBody(Some(name), Some(email), Some("secret")), users).None?
    ensures RegisterCheck(RegisterBody(Some(name), Some(email), Some("short")), users)
         == Some("Password must be at least 6 characters")
  {
  }

  /** A short password is reported before a taken email: the store is not consulted for it. */
  lemma LengthBeforeDuplicate(body: RegisterBody, users: seq<User>, others: seq<User>)
    requires FieldsGiven(body) && |body.password.value| < MinPasswordLength
    ensures RegisterCheck(body, users) == RegisterCheck(body, others)
  {
  }

  /** The `POST` handler; `hash` stands for bcrypt. */
  method Register(db: Database, body: RegisterBody, hash: string -> string) returns (reply: Reply<PublicUser>)
    requires db.Valid()
    modifies db
    ensures db.Valid()
    ensures var c := RegisterCheck(body, old(db.users));
      && (c.Some? ==> reply == Err(400, c.value) && unchanged(db))
      && (c.None? ==>
            var u := User(old(db.nextId), body.name.value, body.email.value, hash(body.password.value), DefaultRole);
            && db.users == old(db.users) + [u]
            && db.logs == old(db.logs) + [ActivityLog(u.id, "REGISTER", "User registered")]
            && db.notifications == old(db.notifications) + [Notification(u.id, WelcomeTitle, WelcomeMessage)]
            && reply == Ok(200, PublicOf(u)))
    ensures db.testResults == old(db.testResults) && db.playlists == old(db.playlists) && db.schedules == old(db.schedules)
  {
    if !Truthy(body.name) || !Truthy(body.email) || !Truthy(body.password) {
      return Err(400, "Name, email, and password are required");
    }
    var name, email, password := body.name.value, body.email.value, body.password.value;
    if |password| < MinPasswordLength {
      return Err(400, "Password must be at least 6 characters");
    }
    var existing := UserWithEmail(db.users, email);
    if existing.Some? {
      return Err(400, "Email already registered");
    }
    var hashedPassword := hash(password);
    var user := db.CreateUser(name, email, hashedPassword, DefaultRole);
    db.Log(user.id, "REGISTER", "User registered");
    db.Notify(user.id, WelcomeTitle, WelcomeMessage);
    reply := Ok(200, PublicUser(user.id, user.name, user.email, user.role));
  }
}
