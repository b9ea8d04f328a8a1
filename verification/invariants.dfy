/**
  The store's invariants across whole request sequences: every endpoint,
  guard included, keeps `Valid`, so any run of requests from the empty store
  keeps it too.
 */
module Invariants {
  import opened Store
  import AuthHandlers
  import UserHandlers
  import CourseHandlers
  import AssignmentHandlers
  import AttendanceHandlers
  import opened Routes

  /** The store before any request. */
  const Empty: State := State(map[], map[], map[], map[], map[], map[], 0)

  lemma EmptyIsValid()
    ensures Valid(Empty)
  {
  }

  lemma AuthDispatchPreservesValid(st: State, caller: Option<Actor>, req: Request, env: Env)
    requires Valid(st) && AuthRoute(req)
    requires GuardOf(req) != Public ==> caller.Some?
    ensures Valid(Dispatch(st, caller, req, env).state)
  {
    match req
    case Register(n, e, p, role) =>
      AuthHandlers.WritesPreserveValid(st, None, n, e, p, role, "", "", env.hash, env.storeFault);
    case CreateAdmin(n, e, p) =>
      AuthHandlers.WritesPreserveValid(st, None, None, None, p, Admin, n, e, env.hash, env.storeFault);
    case CreateAdminSecure(n, e, p) =>
      AuthHandlers.WritesPreserveValid(st, caller, None, None, p, Admin, n, e, env.hash, env.storeFault);
    case Login(_, _) =>
  }

  lemma UserDispatchPreservesValid(st: State, caller: Option<Actor>, req: Request, env: Env)
    requires Valid(st) && UserRoute(req)
    requires GuardOf(req) != Public ==> caller.Some?
    ensures Valid(Dispatch(st, caller, req, env).state)
  {
    match req
    case ListUsers =>
    case GetUser(_) =>
    case DeleteUser(id) =>
      UserHandlers.WritesPreserveValid(st, id, None);
    case SetUserRole(id, role) =>
      UserHandlers.WritesPreserveValid(st, id, role);
  }

  lemma EnrollmentDispatchPreservesValid(st: State, caller: Option<Actor>, req: Request, env: Env)
    requires Valid(st) && (req.AddStudent? || req.RemoveStudent?)
    requires GuardOf(req) != Public ==> caller.Some?
    ensures Valid(Dispatch(st, caller, req, env).state)
  {
    var blank := CourseHandlers.CourseForm(None, None, None, None, None, None, None);
    match req
    case AddStudent(c, s) =>
      CourseHandlers.AddStudentPreservesValid(st, c, s);
    case RemoveStudent(c, s) =>
      CourseHandlers.CourseWritesPreserveValid(st, caller.value, blank, 0, c, s);
  }

  lemma CourseDispatchPreservesValid(st: State, caller: Option<Actor>, req: Request, env: Env)
    requires Valid(st) && CourseRoute(req)
    requires GuardOf(req) != Public ==> caller.Some?
    ensures Valid(Dispatch(st, caller, req, env).state)
  {
    var blank := CourseHandlers.CourseForm(None, None, None, None, None, None, None);
    if req.AddStudent? || req.RemoveStudent? {
      EnrollmentDispatchPreservesValid(st, caller, req, env);
    } else {
      match req
      case CreateCourse(form) =>
        CourseHandlers.CourseWritesPreserveValid(st, caller.value, form, 0, 0, None);
      case AssignTeacher(c, t) =>
        CourseHandlers.CourseWritesPreserveValid(st, caller.value, blank, 0, c, t);
      case RemoveTeacher(c, t) =>
        CourseHandlers.CourseWritesPreserveValid(st, caller.value, blank, 0, c, t);
      case DeleteCourse(c) =>
        CourseHandlers.CourseWritesPreserveValid(st, caller.value, blank, c, 0, None);
      case ListCourses =>
      case ListCourseStudents(_) =>
    }
  }

  lemma AssignmentDispatchPreservesValid(st: State, caller: Option<Actor>, req: Request, env: Env)
    requires Valid(st) && AssignmentRoute(req)
    requires GuardOf(req) != Public ==> caller.Some?
    ensures Valid(Dispatch(st, caller, req, env).state)
  {
    match req
    case ListAllSubmissions =>
    case CreateAssignment(c, t, s, d) =>
      AssignmentHandlers.InsertsPreserveValid(st, caller.value, c, 0, t, s, d);
    case ListCourseAssignments(_) =>
    case Submit(a) =>
      AssignmentHandlers.InsertsPreserveValid(st, caller.value, 0, a, None, None, None);
    case Grade(a, s, g, f) =>
      AssignmentHandlers.EditsPreserveValid(st, caller.value, a, s, None, None, None, g, f);
    case UpdateAssignment(a, t, d) =>
      AssignmentHandlers.EditsPreserveValid(st, caller.value, a, 0, None, t, d, None, None);
    case DeleteAssignment(a) =>
      AssignmentHandlers.EditsPreserveValid(st, caller.value, a, 0, None, None, None, None, None);
    case GetAssignment(_) =>
    case GiveFeedback(a, s, f) =>
      AssignmentHandlers.EditsPreserveValid(st, caller.value, a, 0, s, None, None, None, f);
    case ListSubmissions(_) =>
    case MyAssignments =>
  }

  lemma AttendanceDispatchPreservesValid(st: State, caller: Option<Actor>, req: Request, env: Env)
    requires Valid(st) && AttendanceRoute(req)
    requires GuardOf(req) != Public ==> caller.Some?
    ensures Valid(Dispatch(st, caller, req, env).state)
  {
    match req
    case MarkAttendance(c, s, d, status) =>
      AttendanceHandlers.MarkPreservesValid(st, caller.value, c, s, d, status);
    case CourseAttendance(_) =>
    case MyAttendance =>
    case UpdateAttendance(c, a, status) =>
      AttendanceHandlers.UpdatePreservesValid(st, caller.value, c, a, status);
    case ListAttendance =>
  }

  /** The handler behind every endpoint keeps the store's invariants. */
  lemma DispatchPreservesValid(st: State, caller: Option<Actor>, req: Request, env: Env)
    requires Valid(st)
    requires GuardOf(req) != Public ==> caller.Some?
    ensures Valid(Dispatch(st, caller, req, env).state)
  {
    if AuthRoute(req) {
      AuthDispatchPreservesValid(st, caller, req, env);
    } else if UserRoute(req) {
      UserDispatchPreservesValid(st, caller, req, env);
    } else if CourseRoute(req) {
      CourseDispatchPreservesValid(st, caller, req, env);
    } else if AttendanceRoute(req) {
      AttendanceDispatchPreservesValid(st, caller, req, env);
    } else {
      AssignmentDispatchPreservesValid(st, caller, req, env);
    }
  }

  /** A request, guard and handler together, keeps the store's invariants. */
  lemma HandlePreservesValid(st: State, cred: Credential, req: Request, env: Env)
    requires Valid(st)
    ensures Valid(Handle(st, cred, req, env).state)
  {
    if GuardOf(req) == Public {
      DispatchPreservesValid(st, None, req, env);
    } else if cred.Bearer? {
      DispatchPreservesValid(st, Some(cred.actor), req, env);
    }
  }

  /** One request as it arrives: its credential, the request and its environment. */
  datatype Call = Call(cred: Credential, req: Request, env: Env)

  /** The store after serving `calls` in order, one at a time. */
  function Run(st: State, calls: seq<Call>): (r: State)
    decreases |calls|
  {
    if calls == [] then st
    else Run(Handle(st, calls[0].cred, calls[0].req, calls[0].env).state, calls[1..])
  }

  /** Serving any sequence of requests keeps the store's invariants. */
  lemma {:induction false} RunPreservesValid(st: State, calls: seq<Call>)
    requires Valid(st)
    ensures Valid(Run(st, calls))
    decreases |calls|
  {
    if calls != [] {
      HandlePreservesValid(st, calls[0].cred, calls[0].req, calls[0].env);
      RunPreservesValid(Handle(st, calls[0].cred, calls[0].req, calls[0].env).state, calls[1..]);
    }
  }

  /** Every reachable store satisfies the invariants. */
  lemma ReachableIsValid(calls: seq<Call>)
    ensures Valid(Run(Empty, calls))
  {
    EmptyIsValid();
    RunPreservesValid(Empty, calls);
  }
}
