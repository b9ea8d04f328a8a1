/**
  The attendance handlers: marking by a course's teacher, the per-course,
  per-student and role-filtered reads, and status corrections.
 */
module AttendanceHandlers {
  import opened Store

  const MissingFields: string := "All fields are required"
  const CourseNotFound: string := "Course not found"
  const NotCourseTeacher: string := "Unauthorized: You are not the teacher of this course"
  const StudentNotEnrolled: string := "Student is not enrolled in this course"
  const AlreadyRecorded: string := "Attendance for this student on this date already exists"
  const CannotViewCourse: string := "Unauthorized to view this course's attendance"
  const InvalidStatus: string := "Invalid attendance status"
  const RecordNotFound: string := "Attendance record not found"
  const CannotUpdateRecord: string := "Unauthorized to update this attendance record"
  const FailedToUpdate: string := "Failed to update attendance"
  const UnauthorizedRole: string := "Unauthorized role"
  const NoRecords: string := "No attendance records found"

  const PresentStatus: string := "Present"
  const AbsentStatus: string := "Absent"

  /** Some row already records this student in this course on this date. */
  predicate Recorded(st: State, studentId: Id, courseId: Id, date: Date) {
    exists a :: a in st.attendance
      && st.attendance[a].studentId == studentId
      && st.attendance[a].courseId == courseId
      && st.attendance[a].date == date
  }

  /**
    `markAttendance`: the three body fields are required, the course must
    exist, the actor must be its current teacher (an admin included), the
    student must be enrolled, and a second record for the same student, course
    and date is refused. The status itself is not checked here.
   */
  function MarkAttendance(st: State, actor: Actor, courseId: Id, studentId: Option<Id>, date: Option<string>,
                          status: Option<string>): (r: Step<Id>)
    ensures !(studentId.Some? && Present(date) && Present(status)) ==> Rejected(r, st, Validation, MissingFields)
    ensures studentId.Some? && Present(date) && Present(status) && courseId !in st.courses ==>
      Rejected(r, st, NotFound, CourseNotFound)
    ensures (studentId.Some? && Present(date) && Present(status) && courseId in st.courses
             && !TeachesCourse(st, actor.id, courseId)) ==> Rejected(r, st, Forbidden, NotCourseTeacher)
    ensures (studentId.Some? && Present(date) && Present(status) && TeachesCourse(st, actor.id, courseId)
             && !Enrolled(st, studentId.value, courseId)) ==> Rejected(r, st, NotFound, StudentNotEnrolled)
    ensures (studentId.Some? && Present(date) && Present(status) && TeachesCourse(st, actor.id, courseId)
             && Enrolled(st, studentId.value, courseId) && Recorded(st, studentId.value, courseId, date.value)) ==>
      Rejected(r, st, Conflict, AlreadyRecorded)
    ensures r.result.Ok? <==>
      && studentId.Some? && Present(date) && Present(status)
      && TeachesCourse(st, actor.id, courseId)
      && Enrolled(st, studentId.value, courseId)
      && !Recorded(st, studentId.value, courseId, date.value)
    ensures r.result.Ok? ==>
      && r.result.value == st.nextId
      && r.state == st.(attendance := st.attendance[st.nextId := Attendance(studentId.value, courseId, date.value, status.value, actor.id)],
                        nextId := st.nextId + 1)
      && Recorded(r.state, studentId.value, courseId, date.value)
    ensures r.result.Ok? && Valid(st) ==> |r.state.attendance| == |st.attendance| + 1
  {
    if studentId.None? || !Present(date) || !Present(status) then Reject(st, Validation, MissingFields)
    else if courseId !in st.courses then Reject(st, NotFound, CourseNotFound)
    else if !TeachesCourse(st, actor.id, courseId) then Reject(st, Forbidden, NotCourseTeacher)
    else if !Enrolled(st, studentId.value, courseId) then Reject(st, NotFound, StudentNotEnrolled)
    else if Recorded(st, studentId.value, courseId, date.value) then Reject(st, Conflict, AlreadyRecorded)
    else
      var record := Attendance(studentId.value, courseId, date.value, status.value, actor.id);
      var st' := st.(attendance := st.attendance[st.nextId := record], nextId := st.nextId + 1);
      assert st'.attendance[st.nextId] == record;
      Step(Ok(st.nextId), st')
  }

  /**
    `getCourseAttendance`: a teacher must teach the course; any other role
    that reaches the handler passes. The reply is exactly the course's records.
   */
  function GetCourseAttendance(st: State, actor: Actor, courseId: Id): (r: Step<set<Id>>)
    ensures r.state == st
    ensures courseId !in st.courses ==> Rejected(r, st, NotFound, CourseNotFound)
    ensures courseId in st.courses && actor.role == Teacher && !TeachesCourse(st, actor.id, courseId) ==>
      Rejected(r, st, Forbidden, CannotViewCourse)
    ensures r.result.Ok? <==> courseId in st.courses && (actor.role == Teacher ==> TeachesCourse(st, actor.id, courseId))
    ensures r.result.Ok? ==> forall a :: a in r.result.value <==> a in st.attendance && st.attendance[a].courseId == courseId
  {
    if courseId !in st.courses then Reject(st, NotFound, CourseNotFound)
    else if actor.role == Teacher && !TeachesCourse(st, actor.id, courseId) then Reject(st, Forbidden, CannotViewCourse)
    else Step(Ok(set a | a in st.attendance && st.attendance[a].courseId == courseId), st)
  }

  /** `getStudentAttendance`: exactly the records of the actor as a student. */
  function GetStudentAttendance(st: State, actor: Actor): (r: Step<set<Id>>)
    ensures r.state == st && r.result.Ok?
    ensures forall a :: a in r.result.value <==> a in st.attendance && st.attendance[a].studentId == actor.id
  {
    Step(Ok(set a | a in st.attendance && st.attendance[a].studentId == actor.id), st)
  }

  predicate ValidStatus(status: Option<string>) {
    status == Some(PresentStatus) || status == Some(AbsentStatus)
  }

  /**
    `updateAttendance`: the status is checked before any lookup; a teacher must
    teach the record's own course, while an admin may update any record. The
    course of the path plays no part. Only the status changes.
   */
  function UpdateAttendance(st: State, actor: Actor, courseId: Id, attendanceId: Id, status: Option<string>): (r: Step<Attendance>)
    ensures !ValidStatus(status) ==> Rejected(r, st, Validation, InvalidStatus)
    ensures ValidStatus(status) && attendanceId !in st.attendance ==> Rejected(r, st, NotFound, RecordNotFound)
    ensures (ValidStatus(status) && attendanceId in st.attendance && actor.role == Teacher
             && st.attendance[attendanceId].courseId in st.courses
             && !TeachesCourse(st, actor.id, st.attendance[attendanceId].courseId)) ==>
      Rejected(r, st, Forbidden, CannotUpdateRecord)
    ensures (ValidStatus(status) && attendanceId in st.attendance && actor.role == Teacher
             && st.attendance[attendanceId].courseId !in st.courses) ==>
      Rejected(r, st, Internal, FailedToUpdate)
    ensures r.result.Err? ==> r.state == st
    ensures r.result.Ok? <==>
      && ValidStatus(status)
      && attendanceId in st.attendance
      && (actor.role == Teacher ==> TeachesCourse(st, actor.id, st.attendance[attendanceId].courseId))
    ensures r.result.Ok? ==>
      && r.result.value == st.attendance[attendanceId].(status := status.value)
      && r.state == st.(attendance := st.attendance[attendanceId := r.result.value])
  {
    if !ValidStatus(status) then Reject(st, Validation, InvalidStatus)
    else if attendanceId !in st.attendance then Reject(st, NotFound, RecordNotFound)
    else
      var record := st.attendance[attendanceId];
      if actor.role == Teacher && record.courseId !in st.courses then Reject(st, Internal, FailedToUpdate)
      else if actor.role == Teacher && !TeachesCourse(st, actor.id, record.courseId) then
        Reject(st, Forbidden, CannotUpdateRecord)
      else
        var updated := record.(status := status.value);
        Step(Ok(updated), st.(attendance := st.attendance[attendanceId := updated]))
  }

  /** The course segment of the update path is never read. */
  lemma UpdateIgnoresPathCourse(st: State, actor: Actor, c1: Id, c2: Id, attendanceId: Id, status: Option<string>)
    ensures UpdateAttendance(st, actor, c1, attendanceId, status) == UpdateAttendance(st, actor, c2, attendanceId, status)
  {
  }

  /**
    The records `getAttendanceRecords` selects for an actor: every record for
    an admin, the records of the courses a teacher currently teaches, a
    student's own records, and none for any other role.
   */
  predicate Selected(st: State, actor: Actor, a: Id)
    requires a in st.attendance
  {
    || actor.role == Admin
    || (actor.role == Teacher && TeachesCourse(st, actor.id, st.attendance[a].courseId))
    || (actor.role == Student && st.attendance[a].studentId == actor.id)
  }

  /**
    `getAttendanceRecords`: an admin sees every record, a teacher the records
    of courses they teach, a student their own; any other role is refused,
    and an empty selection is reported as an error.
   */
  function GetAttendanceRecords(st: State, actor: Actor): (r: Step<set<Id>>)
    ensures r.state == st
    ensures actor.role.Other? ==> Rejected(r, st, Forbidden, UnauthorizedRole)
    ensures !actor.role.Other? ==> (r.result.Ok? <==> exists a :: a in st.attendance && Selected(st, actor, a))
    ensures r.result.Ok? ==> r.result.value != {}
    ensures r.result.Ok? ==> forall a :: a in r.result.value <==> a in st.attendance && Selected(st, actor, a)
    ensures r.result.Err? && !actor.role.Other? ==> Rejected(r, st, NotFound, NoRecords)
  {
    if actor.role.Other? then Reject(st, Forbidden, UnauthorizedRole)
    else
      var records :=
        if actor.role == Admin then st.attendance.Keys
        else if actor.role == Teacher then
          set a | a in st.attendance && TeachesCourse(st, actor.id, st.attendance[a].courseId)
        else set a | a in st.attendance && st.attendance[a].studentId == actor.id;
      assert forall a :: a in records <==> a in st.attendance && Selected(st, actor, a);
      if records == {} then Reject(st, NotFound, NoRecords)
      else Step(Ok(records), st)
  }

  /** Marking attendance keeps at most one record per (student, course, date). */
  lemma MarkPreservesValid(st: State, actor: Actor, courseId: Id, studentId: Option<Id>, date: Option<string>, status: Option<string>)
    requires Valid(st)
    ensures Valid(MarkAttendance(st, actor, courseId, studentId, date, status).state)
  {
    var r := MarkAttendance(st, actor, courseId, studentId, date, status);
    if r.result.Ok? {
      var m := r.state.attendance;
      forall a, b | a in m && b in m && SameDay(m[a], m[b]) ensures a == b {
        if a != st.nextId && b != st.nextId {
          assert SameDay(st.attendance[a], st.attendance[b]);
        }
      }
    }
  }

  /** A status correction leaves every record's (student, course, date) as it was. */
  lemma UpdatePreservesValid(st: State, actor: Actor, courseId: Id, attendanceId: Id, status: Option<string>)
    requires Valid(st)
    ensures Valid(UpdateAttendance(st, actor, courseId, attendanceId, status).state)
  {
    var r := UpdateAttendance(st, actor, courseId, attendanceId, status);
    if r.result.Ok? {
      var m := r.state.attendance;
      forall a, b | a in m && b in m && SameDay(m[a], m[b]) ensures a == b {
        assert SameDay(st.attendance[a], st.attendance[b]);
      }
    }
  }
}
