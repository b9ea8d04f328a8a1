/**
  The route tables: which guard stands in front of each handler (none, the
  token check alone, or the token check followed by a role whitelist), and
  the composition of guard and handler that decides what a request does.
 */
module Routes {
  import opened Store
  import RoleGuard
  import AuthHandlers
  import UserHandlers
  import CourseHandlers
  import AssignmentHandlers
  import AttendanceHandlers

  const TokenMissing: string := "Unauthorized"
  const TokenInvalid: string := "Invalid token"

  /**
    What the authentication middleware makes of a request's bearer token:
    none at all, one that fails verification, or one that verifies to the
    `{id, role}` claims of an actor. Signature checking itself is not modelled.
   */
  datatype Credential = NoToken | InvalidToken | Bearer(actor: Actor)

  /** One request, with the path parameters and body fields its handler reads. */
  datatype Request =
    // auth routes
    | Register(regName: Option<string>, regEmail: Option<string>, regPassword: Option<string>, regRole: CanonicalRole)
    | CreateAdmin(adminName: string, adminEmail: string, adminPassword: Option<string>)
    | CreateAdminSecure(adminName: string, adminEmail: string, adminPassword: Option<string>)
    | Login(loginEmail: string, loginPassword: string)
    // user routes
    | ListUsers
    | GetUser(userId: Id)
    | DeleteUser(userId: Id)
    | SetUserRole(userId: Id, newRole: Option<CanonicalRole>)
    // course routes
    | CreateCourse(form: CourseHandlers.CourseForm)
    | AssignTeacher(courseId: Id, teacherId: Option<Id>)
    | AddStudent(courseId: Id, studentId: Option<Id>)
    | RemoveStudent(courseId: Id, studentId: Option<Id>)
    | RemoveTeacher(courseId: Id, teacherId: Option<Id>)
    | DeleteCourse(courseId: Id)
    | ListCourses
    | ListCourseStudents(courseId: Id)
    // assignment routes
    | ListAllSubmissions
    | CreateAssignment(courseId: Id, title: Option<string>, startDate: Option<string>, dueDate: Option<string>)
    | ListCourseAssignments(courseId: Id)
    | Submit(assignmentId: Id)
    | Grade(assignmentId: Id, submissionId: Id, grade: Option<int>, feedback: Option<string>)
    | UpdateAssignment(assignmentId: Id, title: Option<string>, dueDate: Option<string>)
    | DeleteAssignment(assignmentId: Id)
    | GetAssignment(assignmentId: Id)
    | GiveFeedback(assignmentId: Id, feedbackSubmission: Option<Id>, feedback: Option<string>)
    | ListSubmissions(assignmentId: Id)
    | MyAssignments
    // attendance routes
    | MarkAttendance(courseId: Id, attendee: Option<Id>, date: Option<string>, status: Option<string>)
    | CourseAttendance(courseId: Id)
    | MyAttendance
    | UpdateAttendance(courseId: Id, attendanceId: Id, status: Option<string>)
    | ListAttendance

  /** What stands in front of a handler. */
  datatype Guard = Public | Authenticated | Allow(roles: seq<Role>)

  /** The route tables of the auth, user, course, assignment and attendance routers. */
  function GuardOf(req: Request): Guard {
    match req
    case Register(_, _, _, _) => Public
    case CreateAdmin(_, _, _) => Public
    case CreateAdminSecure(_, _, _) => Allow([Admin])
    case Login(_, _) => Public
    case ListUsers => Allow([Admin])
    case GetUser(_) => Authenticated
    case DeleteUser(_) => Allow([Admin])
    case SetUserRole(_, _) => Allow([Admin])
    case CreateCourse(_) => Allow([Admin])
    case AssignTeacher(_, _) => Allow([Admin])
    case AddStudent(_, _) => Allow([Admin])
    case RemoveStudent(_, _) => Allow([Admin])
    case RemoveTeacher(_, _) => Allow([Admin])
    case DeleteCourse(_) => Allow([Admin])
    case ListCourses => Authenticated
    case ListCourseStudents(_) => Allow([Admin, Teacher])
    case ListAllSubmissions => Allow([Admin])
    case CreateAssignment(_, _, _, _) => Allow([Teacher])
    case ListCourseAssignments(_) => Allow([Teacher, Student])
    case Submit(_) => Allow([Student])
    case Grade(_, _, _, _) => Allow([Teacher])
    case UpdateAssignment(_, _, _) => Allow([Teacher])
    case DeleteAssignment(_) => Allow([Teacher])
    case GetAssignment(_) => Authenticated
    case GiveFeedback(_, _, _) => Allow([Teacher])
    case ListSubmissions(_) => Allow([Student, Teacher, Admin])
    case MyAssignments => Allow([Student])
    case MarkAttendance(_, _, _, _) => Allow([Teacher, Admin])
    case CourseAttendance(_) => Allow([Teacher, Admin])
    case MyAttendance => Allow([Student])
    case UpdateAttendance(_, _, _) => Allow([Teacher, Admin])
    case ListAttendance => Authenticated
  }

  /**
    The foreign collaborators and the nondeterministic store outcome of one
    request: password hashing, password comparison, and whether the store
    fails a user insert for a reason other than a taken email.
   */
  datatype Env = Env(hash: string -> string, checkPassword: (string, string) -> bool, storeFault: bool)

  /** The payload of a successful reply. */
  datatype Reply =
    | Listed(ids: set<Id>)
    | Created(id: Id)
    | UserRow(user: User)
    | UserTable(users: map<Id, User>)
    | CourseRow(course: Course)
    | AssignmentRow(assignment: Assignment)
    | SubmissionRow(submission: Submission)
    | AttendanceRow(record: Attendance)
    | AdminCreated(admin: AuthHandlers.PublicUser)
    | LoggedIn(session: AuthHandlers.Session)
    | Done

  function Lift<T>(s: Step<T>, wrap: T -> Reply): Step<Reply> {
    match s.result
    case Ok(v) => Step(Ok(wrap(v)), s.state)
    case Err(e) => Step(Err(e), s.state)
  }

  /** Runs the handler of a request that got past its guard; `caller` is the token's actor, if the route reads one. */
  function Dispatch(st: State, caller: Option<Actor>, req: Request, env: Env): Step<Reply>
    requires GuardOf(req) != Public ==> caller.Some?
  {
    match req
    case Register(n, e, p, role) =>
      Lift(AuthHandlers.RegisterUser(st, n, e, p, role, env.hash, env.storeFault), id => Created(id))
    case CreateAdmin(n, e, p) =>
      Lift(AuthHandlers.CreateAdmin(st, None, n, e, p, env.hash, env.storeFault), a => AdminCreated(a))
    case CreateAdminSecure(n, e, p) =>
      Lift(AuthHandlers.CreateAdmin(st, caller, n, e, p, env.hash, env.storeFault), a => AdminCreated(a))
    case Login(e, p) =>
      Lift(AuthHandlers.LoginUser(st, e, p, env.checkPassword), s => LoggedIn(s))
    case ListUsers =>
      Lift(UserHandlers.GetAllUsers(st), us => UserTable(us))
    case GetUser(id) =>
      Lift(UserHandlers.GetUserById(st, id), u => UserRow(u))
    case DeleteUser(id) =>
      Lift(UserHandlers.DeleteUser(st, id), _ => Done)
    case SetUserRole(id, role) =>
      Lift(UserHandlers.UpdateUserRole(st, id, role), u => UserRow(u))
    case CreateCourse(form) =>
      Lift(CourseHandlers.CreateCourse(st, caller.value, form), id => Created(id))
    case AssignTeacher(c, t) =>
      Lift(CourseHandlers.AssignTeacher(st, c, t), course => CourseRow(course))
    case AddStudent(c, s) =>
      Lift(CourseHandlers.AddStudentToCourse(st, c, s), id => Created(id))
    case RemoveStudent(c, s) =>
      Lift(CourseHandlers.RemoveStudentFromCourse(st, c, s), _ => Done)
    case RemoveTeacher(c, t) =>
      Lift(CourseHandlers.RemoveTeacherFromCourse(st, c, t), _ => Done)
    case DeleteCourse(c) =>
      Lift(CourseHandlers.DeleteCourse(st, c), _ => Done)
    case ListCourses =>
      Lift(CourseHandlers.GetAllCourses(st, caller.value), ids => Listed(ids))
    case ListCourseStudents(c) =>
      Lift(CourseHandlers.GetCourseStudents(st, c), ids => Listed(ids))
    case ListAllSubmissions =>
      Lift(AssignmentHandlers.GetAllSubmissions(st, caller.value), ids => Listed(ids))
    case CreateAssignment(c, t, s, d) =>
      Lift(AssignmentHandlers.CreateAssignment(st, caller.value, c, t, s, d), id => Created(id))
    case ListCourseAssignments(c) =>
      Lift(AssignmentHandlers.GetAssignmentsByCourse(st, c), ids => Listed(ids))
    case Submit(a) =>
      Lift(AssignmentHandlers.SubmitAssignment(st, caller.value, a), id => Created(id))
    case Grade(a, s, g, f) =>
      Lift(AssignmentHandlers.GradeAssignment(st, caller.value, a, s, g, f), sub => SubmissionRow(sub))
    case UpdateAssignment(a, t, d) =>
      Lift(AssignmentHandlers.UpdateAssignment(st, caller.value, a, t, d), x => AssignmentRow(x))
    case DeleteAssignment(a) =>
      Lift(AssignmentHandlers.DeleteAssignment(st, caller.value, a), _ => Done)
    case GetAssignment(a) =>
      Lift(AssignmentHandlers.GetAssignmentById(st, a), x => AssignmentRow(x))
    case GiveFeedback(a, s, f) =>
      Lift(AssignmentHandlers.ProvideAssignmentFeedback(st, caller.value, a, s, f), sub => SubmissionRow(sub))
    case ListSubmissions(a) =>
      Lift(AssignmentHandlers.GetAssignmentSubmissions(st, caller.value, a), ids => Listed(ids))
    case MyAssignments =>
      Lift(AssignmentHandlers.GetStudentAssignments(st, caller.value), ids => Listed(ids))
    case MarkAttendance(c, s, d, status) =>
      Lift(AttendanceHandlers.MarkAttendance(st, caller.value, c, s, d, status), id => Created(id))
    case CourseAttendance(c) =>
      Lift(AttendanceHandlers.GetCourseAttendance(st, caller.value, c), ids => Listed(ids))
    case MyAttendance =>
      Lift(AttendanceHandlers.GetStudentAttendance(st, caller.value), ids => Listed(ids))
    case UpdateAttendance(c, a, status) =>
      Lift(AttendanceHandlers.UpdateAttendance(st, caller.value, c, a, status), x => AttendanceRow(x))
    case ListAttendance =>
      Lift(AttendanceHandlers.GetAttendanceRecords(st, caller.value), ids => Listed(ids))
  }

  /** The router a request belongs to. */
  predicate AuthRoute(req: Request) {
    req.Register? || req.CreateAdmin? || req.CreateAdminSecure? || req.Login?
  }

  predicate UserRoute(req: Request) {
    req.ListUsers? || req.GetUser? || req.DeleteUser? || req.SetUserRole?
  }

  predicate CourseRoute(req: Request) {
    || req.CreateCourse? || req.AssignTeacher? || req.AddStudent? || req.RemoveStudent?
    || req.RemoveTeacher? || req.DeleteCourse? || req.ListCourses? || req.ListCourseStudents?
  }

  predicate AttendanceRoute(req: Request) {
    req.MarkAttendance? || req.CourseAttendance? || req.MyAttendance? || req.UpdateAttendance? || req.ListAttendance?
  }

  predicate AssignmentRoute(req: Request) {
    !AuthRoute(req) && !UserRoute(req) && !CourseRoute(req) && !AttendanceRoute(req)
  }

  /**
    One request end to end. A guarded route first runs the token check, which
    refuses a missing and an invalid token with different messages, then the
    route's whitelist, if it has one. A public route never runs the token
    check, so its handler sees no actor.
   */
  function Handle(st: State, cred: Credential, req: Request, env: Env): (r: Step<Reply>)
    ensures GuardOf(req) != Public && cred.NoToken? ==> Rejected(r, st, Unauthorized, TokenMissing)
    ensures GuardOf(req) != Public && cred.InvalidToken? ==> Rejected(r, st, Unauthorized, TokenInvalid)
    ensures (GuardOf(req).Allow? && cred.Bearer? && !(cred.actor.role in GuardOf(req).roles)) ==>
      Rejected(r, st, Forbidden, RoleGuard.InsufficientPermissions)
    ensures GuardOf(req) == Public ==> r == Dispatch(st, None, req, env)
    ensures cred.Bearer? && (GuardOf(req) == Authenticated || (GuardOf(req).Allow? && cred.actor.role in GuardOf(req).roles)) ==>
      r == Dispatch(st, Some(cred.actor), req, env)
  {
    match GuardOf(req)
    case Public => Dispatch(st, None, req, env)
    case Authenticated =>
      (match cred
       case NoToken => Reject(st, Unauthorized, TokenMissing)
       case InvalidToken => Reject(st, Unauthorized, TokenInvalid)
       case Bearer(actor) => Dispatch(st, Some(actor), req, env))
    case Allow(roles) =>
      match cred
      case NoToken => Reject(st, Unauthorized, TokenMissing)
      case InvalidToken => Reject(st, Unauthorized, TokenInvalid)
      case Bearer(actor) =>
        if !RoleGuard.Authorize(roles, actor) then Reject(st, Forbidden, RoleGuard.InsufficientPermissions)
        else Dispatch(st, Some(actor), req, env)
  }
}
