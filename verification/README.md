# School-management backend: authorization and relational bookkeeping

A Dafny model of the request handlers of a small school-management REST
backend (users with the roles admin, teacher and student; courses,
enrollments, assignments, submissions, grades and attendance). The model
covers:

- the five controllers (auth, user, course, assignment, attendance);
- the `authenticate` and `authorize(roles)` middleware;
- the five route tables that decide which middleware runs in front of which
  handler.

The relational store is an immutable `State`. It holds one map per table,
from a store-allocated identifier to the row, plus a counter `nextId` that
stands for the store handing out fresh identifiers. Every handler is a pure
function from a state, an actor and the request's fields to a `Step`: the
outcome (`Ok(value)` or `Err(Error(kind, message))`, with the source's own
message strings) and the state afterwards.

A request body field that may be missing is an `Option`. JavaScript
truthiness of a string is `Present`: present and not empty.

Modules, one per source concern:

- `Store` (store.dfy): roles, rows, outcomes, the relationship facts the
  handlers look up (`Enrolled`, `TeachesCourse`, `HasRole`, `AdminExists`)
  and the store invariant `Valid`. Roles that arrive in a body or a token
  have the type `CanonicalRole`: a role read from its string, so the role
  string "admin" is always `Admin` and never `Other("admin")`. `Valid` says:
  - identifiers are fresh;
  - emails are unique (the store's unique index);
  - there is at most one enrollment row per (student, course);
  - there is at most one attendance row per (student, course, date).
- `RoleGuard` (role_guard.dfy): the `authorize(roles)` whitelist check.
- `AuthHandlers`, `UserHandlers`, `CourseHandlers`, `AssignmentHandlers`,
  `AttendanceHandlers`: one function per exported handler. Each contract
  gives, for every error path, its error kind and message, says that a
  refused request writes nothing, gives an if-and-only-if for success, and
  describes exactly the write a success makes.
- `Routes` (routes.dfy):
  - the request type;
  - the route tables (`GuardOf`);
  - the bearer credential (`NoToken`, `InvalidToken`, `Bearer(actor)`);
  - `Handle`, which composes token check, whitelist and handler.
- `Permissions` (permissions.dfy): one route-table lemma per router, plus
  the effective permission of the endpoints where whitelist and handler
  checks combine.
- `Invariants` (invariants.dfy): every request, including refused ones,
  keeps `Valid`, so every store reachable from the empty one satisfies it.
- `Scenarios` (scenarios.dfy): behaviours that span several requests:
  - resubmission;
  - duplicate attendance;
  - reassigning a course's teacher;
  - unenrolment;
  - grading across courses.

Behaviours of the code as written are modelled as written:

- An admin is let through by the attendance router but cannot mark
  attendance for a course they do not teach.
- Grading never checks that the submission belongs to the path's assignment.
- Updating attendance ignores the course in its path.
- Submitting has no duplicate check.
- Removing a student or teacher leaves their submissions and attendance in
  place.

## Model

| member | source | states |
|---|---|---|
| Store.ParseRole | src/controllers/userController.js:76-77 | a role string read from a body is the one canonical role value whose name is that string |
| Store.RoleNameInjective | src/middleware/roleMiddleware.js:3 | on canonical roles, two roles have the same string exactly when they are the same role |
| RoleGuard.Includes | src/middleware/roleMiddleware.js:3 | the whitelist scan finds the role exactly when the role occurs in the list |
| RoleGuard.Authorize | src/middleware/roleMiddleware.js:1-8 | the request is let through iff some entry of the whitelist is the actor's role |
| RoleGuard.DecisionIgnoresIdentity | src/middleware/roleMiddleware.js:1-8 | two actors with the same role get the same decision whatever their ids |
| RoleGuard.EmptyWhitelistDeniesAll | src/middleware/roleMiddleware.js:3 | an empty whitelist refuses every actor |
| RoleGuard.AuthorizeClaimString | src/middleware/roleMiddleware.js:3-6 | for a token whose role claim is a given string, the decision is exactly whether that string is one of the whitelist's role strings |
| RoleGuard.AuthorizeMatchesRoleStrings | src/middleware/roleMiddleware.js:3-6 | deciding on role values agrees with the source's comparison of role strings, by induction over the whitelist |
| AuthHandlers.RegisterReadsRoleString | src/controllers/authController.js:14-16 | with the required fields present, sign-up is refused as "Cannot register as admin" exactly when the body's role string is "admin" |
| AuthHandlers.RegisterUser | src/controllers/authController.js:9-28 | missing name/email/password and role admin are refused first; any failed insert reads "Email already exists"; otherwise exactly one user with the given role and hashed password is added at a fresh id |
| AuthHandlers.CreateAdmin | src/controllers/authController.js:30-63 | with an admin present and no authenticated caller it refuses; a missing password or failed insert is an internal error; otherwise one admin row is added and the reply carries id, name, email and role but no hash |
| AuthHandlers.UserWithEmail | src/controllers/authController.js:68 | the lookup finds a row with that email iff one exists; under the unique index it is the only one |
| AuthHandlers.LoginUser | src/controllers/authController.js:65-78 | an unknown email and a wrong password give the same error; success happens iff a row with that email matches the password, and the claims are exactly that row's id and role; nothing is written |
| AuthHandlers.InsertUserPreservesValid | src/controllers/authController.js:21-23 | adding a user with a free email keeps fresh ids and the unique email index |
| AuthHandlers.WritesPreserveValid | src/controllers/authController.js:9-63 | registration and admin creation keep the store invariants |
| UserHandlers.GetAllUsers | src/controllers/userController.js:9-17 | the reply holds every user row unchanged and nothing is written |
| UserHandlers.GetUserById | src/controllers/userController.js:24-39 | an absent id is not found; otherwise the reply is that row, unchanged |
| UserHandlers.DeleteUser | src/controllers/userController.js:45-65 | not found for an absent id; an admin row is refused with the store unchanged; otherwise exactly that user row disappears and every other row stays |
| UserHandlers.AssignableReadsRoleString | src/controllers/userController.js:76-77 | a role string passes the role check exactly when it is "student", "teacher" or "admin" |
| UserHandlers.UpdateUserRole | src/controllers/userController.js:71-96 | a role outside student/teacher/admin is refused before the lookup; an absent user is not found; otherwise only that user's role changes |
| UserHandlers.WritesPreserveValid | src/controllers/userController.js:45-96 | deleting a user and changing a role keep the store invariants |
| UserHandlers.DeleteUserKeepsTheirRows | src/controllers/userController.js:58 | deleting a user removes the user row only; their courses, enrollments, submissions and attendance stay |
| CourseHandlers.GetAllCourses | src/controllers/courseController.js:9-51 | admin gets every course, a teacher exactly the courses whose teacher they are, a student exactly the courses they are enrolled in, any other role an error |
| CourseHandlers.CreateCourse | src/controllers/courseController.js:58-98 | a missing required field or a given teacher that is not a teacher-role user is refused; otherwise one course is added at a fresh id with the form's fields, creator = actor, the given teacher or none, and the meeting link when it is a non-empty string and none otherwise |
| CourseHandlers.DeleteCourse | src/controllers/courseController.js:104-120 | not found for an absent id; otherwise exactly that course row disappears |
| CourseHandlers.AssignTeacher | src/controllers/courseController.js:127-155 | the target must be a teacher-role user and the course must exist; afterwards the course's teacher is that user, whoever taught it before, and nothing else changes |
| CourseHandlers.AddStudentToCourse | src/controllers/courseController.js:162-196 | a non-student, a missing course and an existing enrollment of the pair are refused; otherwise exactly one enrollment row is added and the student is enrolled |
| CourseHandlers.AddStudentPreservesValid | src/controllers/courseController.js:177-186 | adding a student keeps at most one enrollment row per (student, course) |
| CourseHandlers.RemoveStudentFromCourse | src/controllers/courseController.js:203-242 | needs a student id, an existing course and an existing enrollment; on success exactly one enrollment row of that pair is deleted and nothing else changes |
| CourseHandlers.RemoveStudentDeletesOneRow | src/controllers/courseController.js:219-231 | the enrollment table shrinks by exactly one row, and under the invariant the student is no longer enrolled |
| CourseHandlers.RemoveTeacherFromCourse | src/controllers/courseController.js:249-286 | refuses a missing id, a missing course, a course without a teacher and a different teacher; otherwise the course is left without a teacher and nothing else changes |
| CourseHandlers.GetCourseStudents | src/controllers/courseController.js:293-316 | for an existing course the reply is exactly the users enrolled in it, whoever asks |
| CourseHandlers.CourseWritesPreserveValid | src/controllers/courseController.js:58-286 | creating, deleting and re-teaching courses and removing enrollments keep the store invariants |
| AssignmentHandlers.CreateAssignment | src/controllers/assignmentController.js:9-44 | missing title/start/due, an absent course and a caller who is not the course's teacher are refused; otherwise exactly one assignment is added with the path's course and creator = actor |
| AssignmentHandlers.SubmitAssignment | src/controllers/assignmentController.js:51-87 | succeeds iff the assignment exists and the actor is enrolled in its course; each success adds one ungraded submission with student = actor |
| AssignmentHandlers.UpdateAssignment | src/controllers/assignmentController.js:94-122 | permitted iff the actor created the assignment; an absent title or due date keeps the old one; course, start date and creator never change |
| AssignmentHandlers.DeleteAssignment | src/controllers/assignmentController.js:129-150 | permitted iff the actor created the assignment; then exactly that assignment disappears |
| AssignmentHandlers.GetAssignmentsByCourse | src/controllers/assignmentController.js:157-177 | the reply is exactly the assignments whose course is the given one |
| AssignmentHandlers.GetAssignmentById | src/controllers/assignmentController.js:313-337 | not found for an absent id; otherwise that assignment, unchanged |
| AssignmentHandlers.GetAssignmentSubmissions | src/controllers/assignmentController.js:184-231 | admin gets every submission of the assignment, a teacher only when teaching its course, a student only their own, any other role is refused; a teacher whose assignment's course was deleted gets "Failed to fetch submissions"; nothing is written |
| AssignmentHandlers.GradeAssignment | src/controllers/assignmentController.js:238-287 | needs a grade, an assignment whose course the actor teaches now, and an existing submission; then only that submission's grade and feedback-or-null change |
| AssignmentHandlers.GetAllSubmissions | src/controllers/assignmentController.js:289-311 | non-admins are refused; an empty table is an error; otherwise every submission |
| AssignmentHandlers.ProvideAssignmentFeedback | src/controllers/assignmentController.js:339-372 | needs non-empty feedback, an existing assignment and its live teacher; a deleted course or a missing or unknown submission fails with "Failed to provide feedback"; a refusal writes nothing; otherwise only that submission's feedback changes |
| AssignmentHandlers.EnrolledCourses | src/controllers/assignmentController.js:378-387 | a course is in the set iff the user has an enrollment row for it |
| AssignmentHandlers.GetStudentAssignments | src/controllers/assignmentController.js:374-401 | an error iff the actor has no enrollment; otherwise exactly the assignments of the courses they are enrolled in |
| AssignmentHandlers.InsertsPreserveValid | src/controllers/assignmentController.js:29-80 | creating assignments and submissions keeps the store invariants |
| AssignmentHandlers.EditsPreserveValid | src/controllers/assignmentController.js:94-372 | editing, deleting, grading and feedback keep the store invariants |
| AttendanceHandlers.MarkAttendance | src/controllers/attendanceController.js:9-93 | refuses, in order: missing fields, an absent course, a caller who is not its teacher (admins included), an unenrolled student, an existing record for the same student, course and date; otherwise one record with markedBy = actor is added |
| AttendanceHandlers.MarkPreservesValid | src/controllers/attendanceController.js:62-85 | marking keeps at most one record per (student, course, date) |
| AttendanceHandlers.GetCourseAttendance | src/controllers/attendanceController.js:100-128 | an absent course is not found and a teacher must teach it; other roles pass; the reply is exactly that course's records |
| AttendanceHandlers.GetStudentAttendance | src/controllers/attendanceController.js:135-149 | the reply is exactly the records whose student is the actor |
| AttendanceHandlers.UpdateAttendance | src/controllers/attendanceController.js:156-194 | a status outside Present/Absent is refused before any lookup, then an absent record, then for a teacher a deleted course ("Failed to update attendance") or a course they do not teach; a refusal writes nothing; on success only the status changes |
| AttendanceHandlers.UpdateIgnoresPathCourse | src/controllers/attendanceController.js:158-169 | the outcome is the same whatever course the path names |
| AttendanceHandlers.UpdatePreservesValid | src/controllers/attendanceController.js:181-184 | a status change keeps at most one record per (student, course, date) |
| AttendanceHandlers.GetAttendanceRecords | src/controllers/attendanceController.js:200-243 | admin, teacher and student succeed exactly when some record is selected for them (every record, those of courses they teach, their own) and then get exactly the selected records; other roles and an empty selection are errors |
| Routes.Handle | src/middleware/authMiddleware.js:4-22 | a guarded route refuses a missing token and an invalid token with their own messages, then a role off the whitelist with the forbidden message, all without writing; a public route runs its handler with no actor |
| Permissions.WhitelistReadsClaimString | src/middleware/roleMiddleware.js:1-8 | on every whitelisted route, a token whose role claim is a given string is turned away exactly when that string is not among the route's role strings, and otherwise reaches the handler |
| Permissions.UnauthenticatedRejected | src/middleware/authMiddleware.js:8-21 | every route except register, login and bootstrap admin creation refuses an unauthenticated request and writes nothing |
| Permissions.AuthRouteTable | src/routes/authRoutes.js:12-22 | register, login and bootstrap admin creation ignore the token; the secure admin route admits admins only |
| Permissions.UserRouteTable | src/routes/userRoutes.js:13-19 | fetching a user needs a token only; listing, deleting and re-roling admit admins only |
| Permissions.CourseRouteTable | src/routes/courseRoutes.js:17-56 | every course write admits admins only, listing courses needs a token only, a course's students admit admins and teachers |
| Permissions.AssignmentRouteTable | src/routes/assignmentRoutes.js:20-80 | all submissions: admin; create/grade/edit/delete/feedback: teacher; submit and own list: student; a course's list: teacher or student; an assignment's submissions: the three roles; one assignment: any token |
| Permissions.AttendanceRouteTable | src/routes/attendanceRoutes.js:17-44 | marking, a course's records and corrections admit teachers and admins, own records admit students, the filtered list needs a token only |
| Permissions.PublicCreateAdminBootstrapOnly | src/routes/authRoutes.js:12 | the public admin route fails once an admin exists, whatever token is sent, so it only ever creates the first admin |
| Permissions.SecureCreateAdminForAdmins | src/routes/authRoutes.js:14-19 | the secure admin route creates an admin iff the caller is an admin and the password and email are acceptable |
| Permissions.MarkAttendanceOnlyCourseTeacher | src/routes/attendanceRoutes.js:17-22 | marking succeeds only for a teacher or admin who teaches the course; an admin who does not is refused |
| Permissions.CourseAttendanceAccess | src/routes/attendanceRoutes.js:24-29 | a course's records are served iff the course exists and the caller is an admin or its teacher |
| Permissions.UpdateAttendanceAccess | src/routes/attendanceRoutes.js:38-43 | a correction succeeds iff the caller is an admin, or a teacher of the record's course, and the record and status are valid |
| Permissions.CourseAssignmentsOpenToTeachersAndStudents | src/routes/assignmentRoutes.js:34-39 | every teacher and student gets exactly the course's assignments, enrolled or teaching or not |
| Permissions.CourseStudentsForAdminsAndTeachers | src/routes/courseRoutes.js:51-56 | a course's students are served iff the caller is an admin or any teacher and the course exists |
| Permissions.SubmissionListAccess | src/routes/assignmentRoutes.js:68-73 | an assignment's submissions are served iff it exists and the caller is an admin, a student, or its course's teacher |
| Permissions.SubmitNeedsEnrollment | src/routes/assignmentRoutes.js:41-46 | submitting succeeds iff the caller is a student enrolled in the assignment's course |
| Permissions.GradingNeedsLiveTeacher | src/routes/assignmentRoutes.js:48-53 | grading succeeds iff the caller is a teacher who teaches the assignment's course now, with a grade and an existing submission |
| Permissions.OwnershipGovernsAssignmentEdits | src/routes/assignmentRoutes.js:55-57 | editing and deleting succeed iff the caller is a teacher who created the assignment |
| Permissions.ListUsersAdminOnly | src/routes/userRoutes.js:13 | listing users succeeds iff the caller is an admin, and then returns every user row |
| Permissions.GetUserForAnyCaller | src/routes/userRoutes.js:15 | any authenticated caller gets any existing user row |
| Permissions.GetAssignmentForAnyCaller | src/routes/assignmentRoutes.js:59 | any authenticated caller gets any existing assignment |
| Invariants.HandlePreservesValid | index.js:18-21 | every request to the mounted routers (index.js:18-21, with the auth router of server.js:16), served or refused, keeps fresh ids, unique emails (the unique index behind authController.js:20-27), unique enrollments (courseController.js:177-182) and unique attendance (attendanceController.js:62-85) |
| Invariants.RunPreservesValid | index.js:18-21 | any sequence of requests to the mounted routers, from a valid store, ends in a valid store |
| Invariants.ReachableIsValid | index.js:18-21 | every store reachable from the empty store by requests to the mounted routers satisfies the invariants |
| Scenarios.ResubmissionAddsSecondRow | src/controllers/assignmentController.js:74-80 | a second identical submission also succeeds and leaves two equal rows under different ids |
| Scenarios.MarkingTwiceConflicts | src/controllers/attendanceController.js:62-75 | marking the same student, course and date again is a conflict that writes nothing |
| Scenarios.ReassignRevokesTeacher | src/controllers/courseController.js:142-145 | after the course gets another teacher, the old one can no longer create its assignments or correct its attendance |
| Scenarios.CreatorKeepsEditRights | src/controllers/assignmentController.js:105-107 | after the course changes hands the creator can still edit, and the new teacher can neither edit nor delete |
| Scenarios.UnenrollKeepsAttendance | src/controllers/courseController.js:229-231 | removing a student keeps their attendance rows, so "attendance implies enrollment" is not an invariant |
| Scenarios.GradeReachesOtherCourses | src/controllers/assignmentController.js:266-268 | a teacher of the path assignment's course can grade any submission in the store |
| Scenarios.GradeCrossCourseWitness | src/controllers/assignmentController.js:266-268 | a concrete valid store where a teacher grades a submission to another course's assignment |

## Left out

- Password hashing and comparison are function parameters (`Env.hash`, `Env.checkPassword`).
- JWT signing and verification are not modelled. The token is reduced to the `Credential` it verifies to, and login returns the claims, not a signed token.
- Token expiry is left out.
- The store is a set of plain maps under sequential execution. Transactions, races between a check and its insert, and the persistence engine are left out.
- The unique email index is modelled by `EmailTaken`. Any other insert failure is an abstract `storeFault` flag.
- Cascades of deleting a course, a user or an assignment are not modelled, because the schema is not part of this model. Only the row itself is removed: `DeleteAssignment` leaves the assignment's submissions in place.
- Failures of store reads and writes that land in the handlers' catch blocks ("Failed to fetch …") are left out. The exceptions are the failures the code itself provokes, which are modelled:
  - a missing id passed to a unique lookup;
  - a dereference of a deleted course;
  - an update of a missing submission;
  - hashing a missing password.
- HTTP status codes and full response bodies are left out. The error kind is a label, the message is the source's string, and list replies are the identifiers of the selected rows without the included relations.
- Console logging is left out.
- Express path matching and registration order are left out, as is attendanceRoutes.js:47-54. Those lines register handlers the attendance controller does not export.
- Dates are opaque strings compared by equality. The normalisation `new Date(...)` applies is left out, and `submittedAt` (a clock read) is left out.
- Row identifiers are natural numbers. A missing body id is `None`. An empty-string id, which JavaScript would treat as missing, is not modelled.
- AuthHandlers.RegisterUser: the body's role is always given. An absent role would take a schema default that is not part of this model.
- AuthHandlers.CreateAdmin: name and email are always given. A missing one would make the store insert fail.
- AuthHandlers.LoginUser: email and password are always given. A missing one throws outside any try/catch.
- AuthHandlers.UserWithEmail: without the unique index the least identifier is chosen. The source's lookup is unique by schema.
- CourseHandlers.RemoveStudentFromCourse: `findFirst` may return any of several rows for a pair. The model deletes the one with the least identifier. Under the invariant there is only one such row.
- Server bootstrap, CORS, cookies and environment configuration are left out.
