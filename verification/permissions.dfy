/**
  Effective permissions: what the token check, the route whitelists and the
  handlers' own checks allow together, router by router and endpoint by
  endpoint.
 */
module Permissions {
  import opened Store
  import RoleGuard
  import AuthHandlers
  import AttendanceHandlers
  import opened Routes

  /** What a guarded route does for an authenticated actor: run the handler when admitted, else turn the request away unchanged. */
  function Guarded(admitted: bool, st: State, actor: Actor, req: Request, env: Env): Step<Reply>
    requires GuardOf(req) != Public
  {
    if admitted then Dispatch(st, Some(actor), req, env)
    else Reject(st, Forbidden, RoleGuard.InsufficientPermissions)
  }

  /**
    A token whose role claim is the string `claim` gets past a route's
    whitelist exactly when the source's `roles.includes(claim)` holds on the
    route's role strings.
   */
  lemma WhitelistReadsClaimString(st: State, id: Id, claim: string, req: Request, env: Env)
    requires GuardOf(req).Allow?
    ensures var r := Handle(st, Bearer(Actor(id, ParseRole(claim))), req, env);
      && (claim !in RoleGuard.Names(GuardOf(req).roles) ==> Rejected(r, st, Forbidden, RoleGuard.InsufficientPermissions))
      && (claim in RoleGuard.Names(GuardOf(req).roles) ==> r == Dispatch(st, Some(Actor(id, ParseRole(claim))), req, env))
  {
    RoleGuard.AuthorizeClaimString(GuardOf(req).roles, id, claim);
  }

  /** Every guarded route refuses a request without a token, or with one that fails verification, and writes nothing. */
  lemma UnauthenticatedRejected(st: State, req: Request, env: Env)
    requires !(req.Register? || req.Login? || req.CreateAdmin?)
    ensures Rejected(Handle(st, NoToken, req, env), st, Unauthorized, TokenMissing)
    ensures Rejected(Handle(st, InvalidToken, req, env), st, Unauthorized, TokenInvalid)
  {
  }

  /** The auth router: sign-up, login and bootstrap admin creation are public; the second admin route is admin-only. */
  lemma AuthRouteTable(st: State, cred: Credential, actor: Actor, req: Request, env: Env)
    requires AuthRoute(req)
    ensures !req.CreateAdminSecure? ==> Handle(st, cred, req, env) == Dispatch(st, None, req, env)
    ensures req.CreateAdminSecure? ==> Handle(st, Bearer(actor), req, env) == Guarded(actor.role == Admin, st, actor, req, env)
  {
  }

  /** The user router: fetching one user needs a token only; listing, deleting and re-roling are admin-only. */
  lemma UserRouteTable(st: State, actor: Actor, req: Request, env: Env)
    requires UserRoute(req)
    ensures req.GetUser? ==> Handle(st, Bearer(actor), req, env) == Dispatch(st, Some(actor), req, env)
    ensures !req.GetUser? ==> Handle(st, Bearer(actor), req, env) == Guarded(actor.role == Admin, st, actor, req, env)
  {
  }

  /**
    The course router: every write is admin-only, listing courses needs a
    token only, and listing a course's students is for admins and teachers.
   */
  lemma CourseRouteTable(st: State, actor: Actor, req: Request, env: Env)
    requires CourseRoute(req)
    ensures req.ListCourses? ==> Handle(st, Bearer(actor), req, env) == Dispatch(st, Some(actor), req, env)
    ensures req.ListCourseStudents? ==>
      Handle(st, Bearer(actor), req, env) == Guarded(actor.role == Admin || actor.role == Teacher, st, actor, req, env)
    ensures !req.ListCourses? && !req.ListCourseStudents? ==>
      Handle(st, Bearer(actor), req, env) == Guarded(actor.role == Admin, st, actor, req, env)
  {
  }

  /** The endpoints of the assignment router that only teachers reach. */
  predicate TeacherAssignmentRoute(req: Request) {
    req.CreateAssignment? || req.Grade? || req.UpdateAssignment? || req.DeleteAssignment? || req.GiveFeedback?
  }

  /**
    The assignment router: the full submission list is admin-only; creating,
    grading, editing, deleting and feedback are teacher-only; submitting and the
    student's own list are student-only; a course's list is for teachers and
    students; an assignment's submissions are for all three roles; fetching
    one assignment needs a token only.
   */
  lemma AssignmentRouteTable(st: State, actor: Actor, req: Request, env: Env)
    requires AssignmentRoute(req)
    ensures req.ListAllSubmissions? ==>
      Handle(st, Bearer(actor), req, env) == Guarded(actor.role == Admin, st, actor, req, env)
    ensures TeacherAssignmentRoute(req) ==>
      Handle(st, Bearer(actor), req, env) == Guarded(actor.role == Teacher, st, actor, req, env)
    ensures req.Submit? || req.MyAssignments? ==>
      Handle(st, Bearer(actor), req, env) == Guarded(actor.role == Student, st, actor, req, env)
    ensures req.ListCourseAssignments? ==>
      Handle(st, Bearer(actor), req, env) == Guarded(actor.role == Teacher || actor.role == Student, st, actor, req, env)
    ensures req.ListSubmissions? ==>
      Handle(st, Bearer(actor), req, env) == Guarded(!actor.role.Other?, st, actor, req, env)
    ensures req.GetAssignment? ==> Handle(st, Bearer(actor), req, env) == Dispatch(st, Some(actor), req, env)
  {
  }

  /**
    The attendance router: marking, a course's records and corrections are
    for teachers and admins, the student's own records for students, and the
    role-filtered list needs a token only.
   */
  lemma AttendanceRouteTable(st: State, actor: Actor, req: Request, env: Env)
    requires AttendanceRoute(req)
    ensures req.MarkAttendance? || req.CourseAttendance? || req.UpdateAttendance? ==>
      Handle(st, Bearer(actor), req, env) == Guarded(actor.role == Teacher || actor.role == Admin, st, actor, req, env)
    ensures req.MyAttendance? ==> Handle(st, Bearer(actor), req, env) == Guarded(actor.role == Student, st, actor, req, env)
    ensures req.ListAttendance? ==> Handle(st, Bearer(actor), req, env) == Dispatch(st, Some(actor), req, env)
  {
  }

  /**
    The unauthenticated admin route only bootstraps: once any admin exists it
    fails, whatever token the request carries, because the route never reads it.
   */
  lemma PublicCreateAdminBootstrapOnly(st: State, cred: Credential, name: string, email: string,
                                       password: Option<string>, env: Env)
    ensures AdminExists(st) ==>
      Rejected(Handle(st, cred, CreateAdmin(name, email, password), env), st, Forbidden, AuthHandlers.AdminAlreadyExists)
    ensures Handle(st, cred, CreateAdmin(name, email, password), env).result.Ok? ==> !AdminExists(st)
  {
  }

  /** The secure admin route creates a further admin for exactly the admin callers, store permitting. */
  lemma SecureCreateAdminForAdmins(st: State, actor: Actor, name: string, email: string, password: Option<string>, env: Env)
    ensures Handle(st, Bearer(actor), CreateAdminSecure(name, email, password), env).result.Ok? <==>
      actor.role == Admin && password.Some? && AuthHandlers.Insertable(st, email, env.storeFault)
    ensures Handle(st, Bearer(actor), CreateAdminSecure(name, email, password), env).result.Ok? ==>
      AdminExists(st) || actor.role == Admin
  {
  }

  /**
    Marking attendance: the whitelist admits teachers and admins, but the
    handler admits only the course's current teacher, so an admin who does
    not teach the course is refused.
   */
  lemma MarkAttendanceOnlyCourseTeacher(st: State, cred: Credential, courseId: Id, studentId: Option<Id>,
                                        date: Option<string>, status: Option<string>, env: Env)
    ensures Handle(st, cred, MarkAttendance(courseId, studentId, date, status), env).result.Ok? ==>
      && cred.Bearer?
      && (cred.actor.role == Teacher || cred.actor.role == Admin)
      && TeachesCourse(st, cred.actor.id, courseId)
    ensures cred.Bearer? && cred.actor.role == Admin && !TeachesCourse(st, cred.actor.id, courseId) ==>
      Handle(st, cred, MarkAttendance(courseId, studentId, date, status), env).result.Err?
  {
  }

  /** Updating attendance: an admin may update any existing record with a valid status, a teacher only in a course they teach. */
  lemma UpdateAttendanceAccess(st: State, actor: Actor, courseId: Id, attendanceId: Id, status: Option<string>, env: Env)
    ensures Handle(st, Bearer(actor), UpdateAttendance(courseId, attendanceId, status), env).result.Ok? <==>
      && (actor.role == Admin || actor.role == Teacher)
      && AttendanceHandlers.ValidStatus(status)
      && attendanceId in st.attendance
      && (actor.role == Teacher ==> TeachesCourse(st, actor.id, st.attendance[attendanceId].courseId))
  {
  }

  /** Viewing a course's attendance: admins for any existing course, teachers for the courses they teach. */
  lemma CourseAttendanceAccess(st: State, actor: Actor, courseId: Id, env: Env)
    ensures Handle(st, Bearer(actor), CourseAttendance(courseId), env).result.Ok? <==>
      && courseId in st.courses
      && (actor.role == Admin || (actor.role == Teacher && TeachesCourse(st, actor.id, courseId)))
  {
  }

  /** Listing a course's assignments: any teacher or student gets exactly that course's assignments, enrolled or not. */
  lemma CourseAssignmentsOpenToTeachersAndStudents(st: State, actor: Actor, courseId: Id, env: Env)
    requires actor.role == Teacher || actor.role == Student
    ensures var r := Handle(st, Bearer(actor), ListCourseAssignments(courseId), env);
      && r.state == st
      && r.result.Ok? && r.result.value.Listed?
      && forall a :: a in r.result.value.ids <==> a in st.assignments && st.assignments[a].courseId == courseId
  {
  }

  /** Listing a course's students: any admin or teacher, with no check that the teacher teaches it. */
  lemma CourseStudentsForAdminsAndTeachers(st: State, actor: Actor, courseId: Id, env: Env)
    ensures Handle(st, Bearer(actor), ListCourseStudents(courseId), env).result.Ok? <==>
      (actor.role == Admin || actor.role == Teacher) && courseId in st.courses
  {
  }

  /** Listing an assignment's submissions: admins, the course's teacher, and students (for their own rows). */
  lemma SubmissionListAccess(st: State, actor: Actor, assignmentId: Id, env: Env)
    ensures Handle(st, Bearer(actor), ListSubmissions(assignmentId), env).result.Ok? <==>
      && assignmentId in st.assignments
      && (|| actor.role == Admin
          || actor.role == Student
          || (actor.role == Teacher && TeachesCourse(st, actor.id, st.assignments[assignmentId].courseId)))
  {
  }

  /** Submitting: only a student enrolled in the assignment's course. */
  lemma SubmitNeedsEnrollment(st: State, actor: Actor, assignmentId: Id, env: Env)
    ensures Handle(st, Bearer(actor), Submit(assignmentId), env).result.Ok? <==>
      && actor.role == Student
      && assignmentId in st.assignments
      && Enrolled(st, actor.id, st.assignments[assignmentId].courseId)
  {
  }

  /** Grading: only a teacher who teaches the path assignment's course at the time of the request. */
  lemma GradingNeedsLiveTeacher(st: State, actor: Actor, assignmentId: Id, submissionId: Id,
                                grade: Option<int>, feedback: Option<string>, env: Env)
    ensures Handle(st, Bearer(actor), Grade(assignmentId, submissionId, grade, feedback), env).result.Ok? <==>
      && actor.role == Teacher
      && grade.Some?
      && assignmentId in st.assignments
      && TeachesCourse(st, actor.id, st.assignments[assignmentId].courseId)
      && submissionId in st.submissions
  {
  }

  /** Editing or deleting an assignment: a teacher who created it, whether or not they still teach the course. */
  lemma OwnershipGovernsAssignmentEdits(st: State, actor: Actor, id: Id, title: Option<string>, dueDate: Option<string>, env: Env)
    ensures Handle(st, Bearer(actor), UpdateAssignment(id, title, dueDate), env).result.Ok? <==>
      actor.role == Teacher && id in st.assignments && st.assignments[id].createdBy == actor.id
    ensures Handle(st, Bearer(actor), DeleteAssignment(id), env).result.Ok? <==>
      actor.role == Teacher && id in st.assignments && st.assignments[id].createdBy == actor.id
  {
  }

  /** Listing users: admin only, and then every user row. */
  lemma ListUsersAdminOnly(st: State, actor: Actor, env: Env)
    ensures Handle(st, Bearer(actor), ListUsers, env).result.Ok? <==> actor.role == Admin
    ensures actor.role == Admin ==> Handle(st, Bearer(actor), ListUsers, env).result == Ok(UserTable(st.users))
  {
  }

  /** Any authenticated caller, whatever its role, may fetch any user row. */
  lemma GetUserForAnyCaller(st: State, actor: Actor, id: Id, env: Env)
    ensures Handle(st, Bearer(actor), GetUser(id), env).result.Ok? <==> id in st.users
    ensures id in st.users ==> Handle(st, Bearer(actor), GetUser(id), env).result == Ok(UserRow(st.users[id]))
  {
  }

  /** Any authenticated caller, whatever its role, may fetch any assignment. */
  lemma GetAssignmentForAnyCaller(st: State, actor: Actor, id: Id, env: Env)
    ensures Handle(st, Bearer(actor), GetAssignment(id), env).result.Ok? <==> id in st.assignments
    ensures id in st.assignments ==>
      Handle(st, Bearer(actor), GetAssignment(id), env).result == Ok(AssignmentRow(st.assignments[id]))
  {
  }
}
