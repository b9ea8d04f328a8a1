/**
  The abstract store behind the school-management backend: users, courses,
  enrollments, assignments, submissions and attendance records, each table a
  map from a store-allocated identifier to its row, plus the shared vocabulary
  every request handler uses (roles, actors, outcomes, relationship facts).
 */
module Store {

  datatype Option<+T> = None | Some(value: T)

  /** Row identifiers are allocated by the store; the model reads them as opaque numbers. */
  type Id = nat

  /** Calendar dates are opaque values compared by equality. */
  type Date = string

  /** The role stored on a user row and carried in a token's claims. */
  datatype Role = Student | Teacher | Admin | Other(name: string)

  const StudentName: string := "student"
  const TeacherName: string := "teacher"
  const AdminName: string := "admin"

  /** The string the source stores and compares for a role. */
  function RoleName(r: Role): string {
    match r
    case Student => StudentName
    case Teacher => TeacherName
    case Admin => AdminName
    case Other(n) => n
  }

  /** A role value in its one canonical spelling: `Other` never hides a known role name. */
  predicate Canonical(r: Role) {
    r.Other? ==> r.name != StudentName && r.name != TeacherName && r.name != AdminName
  }

  /**
    A role as it can arrive in a request body or a token: read from its
    string, so a known role name is always the known role.
   */
  type CanonicalRole = r: Role | Canonical(r) witness Student

  /** Reads a role string as it arrives in a body or a token. */
  function ParseRole(s: string): (r: CanonicalRole)
    ensures Canonical(r)
    ensures RoleName(r) == s
  {
    if s == StudentName then Student
    else if s == TeacherName then Teacher
    else if s == AdminName then Admin
    else Other(s)
  }

  /** On canonical roles, comparing role values is comparing the source's role strings. */
  lemma RoleNameInjective(a: Role, b: Role)
    requires Canonical(a) && Canonical(b)
    ensures RoleName(a) == RoleName(b) <==> a == b
  {
    if RoleName(a) == RoleName(b) {
      assert ParseRole(RoleName(a)) == a;
      assert ParseRole(RoleName(b)) == b;
    }
  }

  /** The authenticated identity of a request: the `{id, role}` claims of its token. */
  datatype Actor = Actor(id: Id, role: CanonicalRole)

  datatype User = User(name: string, email: string, passwordHash: string, role: CanonicalRole)

  datatype Course = Course(
    name: string,
    startDate: Date,
    endDate: Date,
    time: string,
    category: string,
    zoom: Option<string>,
    teacherId: Option<Id>,
    createdBy: Id)

  datatype Enrollment = Enrollment(userId: Id, courseId: Id)

  datatype Assignment = Assignment(courseId: Id, title: string, startDate: Date, dueDate: Date, createdBy: Id)

  datatype Submission = Submission(assignmentId: Id, studentId: Id, grade: Option<int>, feedback: Option<string>)

  datatype Attendance = Attendance(studentId: Id, courseId: Id, date: Date, status: string, markedBy: Id)

  /** The whole store; `nextId` is the identifier the store hands to the next row it creates. */
  datatype State = State(
    users: map<Id, User>,
    courses: map<Id, Course>,
    enrollments: map<Id, Enrollment>,
    assignments: map<Id, Assignment>,
    submissions: map<Id, Submission>,
    attendance: map<Id, Attendance>,
    nextId: Id)

  datatype ErrorKind = Validation | NotFound | Forbidden | Unauthorized | Conflict | Internal

  /** An error reply: its kind and the message the handler sends. */
  datatype Error = Error(kind: ErrorKind, message: string)

  datatype Result<+T> = Ok(value: T) | Err(error: Error)

  /** What one request does: its reply and the store afterwards. */
  datatype Step<+T> = Step(result: Result<T>, state: State)

  function Reject<T>(st: State, kind: ErrorKind, message: string): Step<T> {
    Step(Err(Error(kind, message)), st)
  }

  /** The request was refused with this error and wrote nothing. */
  predicate Rejected<T>(r: Step<T>, st: State, kind: ErrorKind, message: string) {
    r.result.Err? && r.result.error == Error(kind, message) && r.state == st
  }

  /** JavaScript truthiness of a body string: present and not empty. */
  predicate Present(s: Option<string>) {
    s.Some? && s.value != ""
  }

  /** `x || null` on a body string. */
  function OrNull(s: Option<string>): Option<string> {
    if Present(s) then s else None
  }

  // Relationship facts the handlers look up.

  predicate Enrolled(st: State, userId: Id, courseId: Id) {
    Enrollment(userId, courseId) in st.enrollments.Values
  }

  predicate TeachesCourse(st: State, userId: Id, courseId: Id) {
    courseId in st.courses && st.courses[courseId].teacherId == Some(userId)
  }

  predicate HasRole(st: State, userId: Id, role: Role) {
    userId in st.users && st.users[userId].role == role
  }

  predicate AdminExists(st: State) {
    exists u :: u in st.users && st.users[u].role == Admin
  }

  predicate EmailTaken(users: map<Id, User>, email: string) {
    exists u :: u in users && users[u].email == email
  }

  // Store invariants.

  predicate KeysBelow<V>(m: map<Id, V>, bound: Id) {
    forall k :: k in m ==> k < bound
  }

  /** Every row's identifier was handed out before `nextId`. */
  predicate IdsFresh(st: State) {
    && KeysBelow(st.users, st.nextId)
    && KeysBelow(st.courses, st.nextId)
    && KeysBelow(st.enrollments, st.nextId)
    && KeysBelow(st.assignments, st.nextId)
    && KeysBelow(st.submissions, st.nextId)
    && KeysBelow(st.attendance, st.nextId)
  }

  /** The store's unique index on a user's email. */
  predicate EmailsUnique(users: map<Id, User>) {
    forall u, v :: u in users && v in users && users[u].email == users[v].email ==> u == v
  }

  /** At most one enrollment row per (student, course) pair. */
  predicate EnrollmentsUnique(enrollments: map<Id, Enrollment>) {
    forall e, f :: e in enrollments && f in enrollments && enrollments[e] == enrollments[f] ==> e == f
  }

  predicate SameDay(a: Attendance, b: Attendance) {
    a.studentId == b.studentId && a.courseId == b.courseId && a.date == b.date
  }

  /** At most one attendance row per (student, course, date). */
  predicate AttendanceUnique(attendance: map<Id, Attendance>) {
    forall a, b :: a in attendance && b in attendance && SameDay(attendance[a], attendance[b]) ==> a == b
  }

  predicate Valid(st: State) {
    && IdsFresh(st)
    && EmailsUnique(st.users)
    && EnrollmentsUnique(st.enrollments)
    && AttendanceUnique(st.attendance)
  }

  /** Every non-empty finite set of identifiers has a least element. */
  lemma {:induction false} LeastExists(s: set<Id>)
    requires s != {}
    ensures exists m :: m in s && forall k :: k in s ==> m <= k
  {
    var x :| x in s;
    var rest := s - {x};
    if rest == {} {
      forall k | k in s ensures x <= k {
        assert k !in rest;
      }
      assert x in s && forall k :: k in s ==> x <= k;
    } else {
      LeastExists(rest);
      var m :| m in rest && forall k :: k in rest ==> m <= k;
      var least := if x < m then x else m;
      forall k | k in s ensures least <= k {
        if k != x {
          assert k in rest;
        }
      }
      assert least in s;
    }
  }

  /** The least element of a non-empty finite set of identifiers. */
  function Least(s: set<Id>): (m: Id)
    requires s != {}
    ensures m in s
    ensures forall k :: k in s ==> m <= k
  {
    LeastExists(s);
    var m :| m in s && forall k :: k in s ==> m <= k;
    m
  }
}
