/**
  The user-administration handlers: list, fetch, delete and re-role user rows.
 */
module UserHandlers {
  import opened Store

  const UserNotFound: string := "User not found"
  const CannotDeleteAdmin: string := "Cannot delete an admin user"
  const InvalidRole: string := "Invalid role"

  /** `getAllUsers`: every user row in the store. */
  function GetAllUsers(st: State): (r: Step<map<Id, User>>)
    ensures r.state == st && r.result.Ok?
    ensures r.result.value.Keys == st.users.Keys
    ensures forall u :: u in st.users ==> r.result.value[u] == st.users[u]
  {
    Step(Ok(st.users), st)
  }

  /** `getUserById`: the stored row for `id`, untouched. */
  function GetUserById(st: State, id: Id): (r: Step<User>)
    ensures r.state == st
    ensures r.result.Ok? <==> id in st.users
    ensures r.result.Ok? ==> r.result.value == st.users[id]
    ensures id !in st.users ==> Rejected(r, st, NotFound, UserNotFound)
  {
    if id !in st.users then Reject(st, NotFound, UserNotFound)
    else Step(Ok(st.users[id]), st)
  }

  /** `deleteUser`: removes one non-admin user; their other rows stay where they are. */
  function DeleteUser(st: State, id: Id): (r: Step<()>)
    ensures id !in st.users ==> Rejected(r, st, NotFound, UserNotFound)
    ensures id in st.users && st.users[id].role == Admin ==> Rejected(r, st, Forbidden, CannotDeleteAdmin)
    ensures r.result.Ok? <==> id in st.users && st.users[id].role != Admin
    ensures r.result.Ok? ==> r.state == st.(users := r.state.users)
    ensures r.result.Ok? ==> r.state.users.Keys == st.users.Keys - {id}
    ensures r.result.Ok? ==> forall u :: u in r.state.users ==> r.state.users[u] == st.users[u]
  {
    if id !in st.users then Reject(st, NotFound, UserNotFound)
    else if st.users[id].role == Admin then Reject(st, Forbidden, CannotDeleteAdmin)
    else Step(Ok(()), st.(users := st.users - {id}))
  }

  /** `validRoles.includes(role)`: exactly the three known role strings. */
  predicate Assignable(role: Option<CanonicalRole>) {
    role == Some(Student) || role == Some(Teacher) || role == Some(Admin)
  }

  /** `updateUserRole`: role validation comes before the lookup, then only that user's role changes. */
  function UpdateUserRole(st: State, id: Id, role: Option<CanonicalRole>): (r: Step<User>)
    ensures !Assignable(role) ==> Rejected(r, st, Validation, InvalidRole)
    ensures Assignable(role) && id !in st.users ==> Rejected(r, st, NotFound, UserNotFound)
    ensures r.result.Ok? <==> Assignable(role) && id in st.users
    ensures r.result.Ok? ==> r.result.value.role == role.value
    ensures r.result.Ok? ==>
      && r.result.value.name == st.users[id].name
      && r.result.value.email == st.users[id].email
      && r.result.value.passwordHash == st.users[id].passwordHash
    ensures r.result.Ok? ==> r.state == st.(users := st.users[id := r.result.value])
  {
    if !Assignable(role) then Reject(st, Validation, InvalidRole)
    else if id !in st.users then Reject(st, NotFound, UserNotFound)
    else
      var updated := st.users[id].(role := role.value);
      Step(Ok(updated), st.(users := st.users[id := updated]))
  }

  /** A role string is assignable exactly when it is one of `validRoles`. */
  lemma AssignableReadsRoleString(role: string)
    ensures Assignable(Some(ParseRole(role))) <==> role in [StudentName, TeacherName, AdminName]
  {
  }

  /** Deleting a user and changing a role keep the store's invariants. */
  lemma WritesPreserveValid(st: State, id: Id, role: Option<CanonicalRole>)
    requires Valid(st)
    ensures Valid(DeleteUser(st, id).state)
    ensures Valid(UpdateUserRole(st, id, role).state)
  {
    var r := UpdateUserRole(st, id, role);
    if r.result.Ok? {
      var users' := r.state.users;
      forall u, v | u in users' && v in users' && users'[u].email == users'[v].email
        ensures u == v
      {
        assert st.users[u].email == users'[u].email;
        assert st.users[v].email == users'[v].email;
      }
    }
  }

  /** Deleting a user leaves every course, enrollment, submission and attendance row of theirs in place. */
  lemma DeleteUserKeepsTheirRows(st: State, id: Id)
    requires DeleteUser(st, id).result.Ok?
    ensures DeleteUser(st, id).state.enrollments == st.enrollments
    ensures DeleteUser(st, id).state.submissions == st.submissions
    ensures DeleteUser(st, id).state.attendance == st.attendance
    ensures DeleteUser(st, id).state.courses == st.courses
    ensures id !in DeleteUser(st, id).state.users
  {
  }
}
