/**
  Registration, admin creation and login. Password hashing and comparison are
  foreign calls and arrive as function parameters; token signing is left
  abstract and the model returns the claims the token would carry.
 */
module AuthHandlers {
  import opened Store

  const MissingFields: string := "All fields are required"
  const CannotRegisterAdmin: string := "Cannot register as admin"
  const EmailExists: string := "Email already exists"
  const AdminAlreadyExists: string := "Unauthorized: Admin already exists!"
  const InternalServerError: string := "Internal server error"
  const InvalidCredentials: string := "Invalid email or password"

  /** The admin-creation reply: the new row's fields without its password hash. */
  datatype PublicUser = PublicUser(id: Id, name: string, email: string, role: CanonicalRole)

  /** The claims a login token is signed over. */
  datatype Claims = Claims(id: Id, role: CanonicalRole)

  /** The login reply: the token's claims and the stored user row. */
  datatype Session = Session(claims: Claims, user: User)

  /**
    Whether the store accepts a new user row: its unique index on email turns
    a taken address away, and `storeFault` stands for any other failure.
   */
  predicate Insertable(st: State, email: string, storeFault: bool) {
    !EmailTaken(st.users, email) && !storeFault
  }

  function InsertUser(st: State, user: User): State {
    st.(users := st.users[st.nextId := user], nextId := st.nextId + 1)
  }

  /** `registerUser`: public sign-up for any role except admin; every store failure reads as a taken email. */
  function RegisterUser(st: State, name: Option<string>, email: Option<string>, password: Option<string>, role: CanonicalRole,
                        hash: string -> string, storeFault: bool): (r: Step<Id>)
    ensures !(Present(name) && Present(email) && Present(password)) ==> Rejected(r, st, Validation, MissingFields)
    ensures Present(name) && Present(email) && Present(password) && role == Admin ==>
      Rejected(r, st, Forbidden, CannotRegisterAdmin)
    ensures Present(name) && Present(email) && Present(password) && role != Admin && !Insertable(st, email.value, storeFault) ==>
      Rejected(r, st, Conflict, EmailExists)
    ensures r.result.Ok? <==>
      Present(name) && Present(email) && Present(password) && role != Admin && Insertable(st, email.value, storeFault)
    ensures r.result.Ok? ==>
      && r.result.value == st.nextId
      && r.state == st.(users := st.users[r.result.value := User(name.value, email.value, hash(password.value), role)],
                        nextId := st.nextId + 1)
    ensures r.result.Ok? && Valid(st) ==> r.result.value !in st.users && |r.state.users| == |st.users| + 1
  {
    if !Present(name) || !Present(email) || !Present(password) then Reject(st, Validation, MissingFields)
    else if role == Admin then Reject(st, Forbidden, CannotRegisterAdmin)
    else if !Insertable(st, email.value, storeFault) then Reject(st, Conflict, EmailExists)
    else Step(Ok(st.nextId), InsertUser(st, User(name.value, email.value, hash(password.value), role)))
  }

  /**
    `createAdmin`, reached both from the public bootstrap route (no caller) and
    from the admin-only route (an authenticated caller). Once an admin exists,
    only a request with a caller gets past the first check.
   */
  function CreateAdmin(st: State, caller: Option<Actor>, name: string, email: string, password: Option<string>,
                       hash: string -> string, storeFault: bool): (r: Step<PublicUser>)
    ensures AdminExists(st) && caller.None? ==> Rejected(r, st, Forbidden, AdminAlreadyExists)
    ensures !(AdminExists(st) && caller.None?) && (password.None? || !Insertable(st, email, storeFault)) ==>
      Rejected(r, st, Internal, InternalServerError)
    ensures r.result.Ok? <==>
      (!AdminExists(st) || caller.Some?) && password.Some? && Insertable(st, email, storeFault)
    ensures r.result.Ok? ==>
      && r.result.value == PublicUser(st.nextId, name, email, Admin)
      && r.state == st.(users := st.users[st.nextId := User(name, email, hash(password.value), Admin)],
                        nextId := st.nextId + 1)
    ensures r.result.Ok? ==> AdminExists(r.state)
  {
    if AdminExists(st) && caller.None? then Reject(st, Forbidden, AdminAlreadyExists)
    else if password.None? then Reject(st, Internal, InternalServerError)
    else if !Insertable(st, email, storeFault) then Reject(st, Internal, InternalServerError)
    else
      var id := st.nextId;
      var st' := InsertUser(st, User(name, email, hash(password.value), Admin));
      assert st'.users[id].role == Admin;
      Step(Ok(PublicUser(id, name, email, Admin)), st')
  }

  /**
    `findUnique({ where: { email } })`: the user row with that email. Under the
    unique index there is at most one; without it, the least identifier wins.
   */
  function UserWithEmail(users: map<Id, User>, email: string): (r: Option<Id>)
    ensures r.None? <==> !EmailTaken(users, email)
    ensures r.Some? ==> r.value in users && users[r.value].email == email
    ensures r.Some? && EmailsUnique(users) ==> forall u :: u in users && users[u].email == email ==> u == r.value
  {
    var matching := set u | u in users && users[u].email == email;
    assert forall u :: u in users && users[u].email == email ==> u in matching;
    if matching == {} then None
    else
      var u := Least(matching);
      assert u in users && users[u].email == email;
      Some(u)
  }

  /**
    `loginUser`: one message for an unknown email and for a wrong password;
    on success the claims are exactly the stored user's id and role.
   */
  function LoginUser(st: State, email: string, password: string, checkPassword: (string, string) -> bool): (r: Step<Session>)
    ensures r.state == st
    ensures r.result.Err? ==> r.result.error == Error(Unauthorized, InvalidCredentials)
    ensures !EmailTaken(st.users, email) ==> r.result.Err?
    ensures r.result.Ok? ==>
      var c := r.result.value.claims;
      && c.id in st.users
      && st.users[c.id].email == email
      && c.role == st.users[c.id].role
      && r.result.value.user == st.users[c.id]
      && checkPassword(password, st.users[c.id].passwordHash)
    ensures EmailsUnique(st.users) ==>
      (r.result.Ok? <==> exists u :: u in st.users && st.users[u].email == email && checkPassword(password, st.users[u].passwordHash))
  {
    match UserWithEmail(st.users, email)
    case None => Reject(st, Unauthorized, InvalidCredentials)
    case Some(id) =>
      var user := st.users[id];
      if !checkPassword(password, user.passwordHash) then Reject(st, Unauthorized, InvalidCredentials)
      else Step(Ok(Session(Claims(id, user.role), user)), st)
  }

  /** Sign-up reads the body's role string: exactly the string "admin" is refused, once the required fields are there. */
  lemma RegisterReadsRoleString(st: State, name: Option<string>, email: Option<string>, password: Option<string>,
                                role: string, hash: string -> string, storeFault: bool)
    requires Present(name) && Present(email) && Present(password)
    ensures Rejected(RegisterUser(st, name, email, password, ParseRole(role), hash, storeFault), st, Forbidden, CannotRegisterAdmin)
            <==> role == AdminName
  {
  }

  /** Adding a user whose email is free keeps every invariant, the unique email index included. */
  lemma InsertUserPreservesValid(st: State, user: User)
    requires Valid(st)
    requires !EmailTaken(st.users, user.email)
    ensures Valid(InsertUser(st, user))
  {
    var st' := InsertUser(st, user);
    forall u, v | u in st'.users && v in st'.users && st'.users[u].email == st'.users[v].email
      ensures u == v
    {
      if u != st.nextId && v != st.nextId {
        assert st.users[u].email == st.users[v].email;
      }
    }
  }

  lemma WritesPreserveValid(st: State, caller: Option<Actor>, name: Option<string>, email: Option<string>,
                            password: Option<string>, role: CanonicalRole, adminName: string, adminEmail: string,
                            hash: string -> string, storeFault: bool)
    requires Valid(st)
    ensures Valid(RegisterUser(st, name, email, password, role, hash, storeFault).state)
    ensures Valid(CreateAdmin(st, caller, adminName, adminEmail, password, hash, storeFault).state)
  {
    if RegisterUser(st, name, email, password, role, hash, storeFault).result.Ok? {
      InsertUserPreservesValid(st, User(name.value, email.value, hash(password.value), role));
    }
    if CreateAdmin(st, caller, adminName, adminEmail, password, hash, storeFault).result.Ok? {
      InsertUserPreservesValid(st, User(adminName, adminEmail, hash(password.value), Admin));
    }
  }
}
