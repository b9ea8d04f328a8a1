/**
  The course handlers: role-filtered listing, creation and deletion, teacher
  assignment and removal, and the enrollment of students.
 */
module CourseHandlers {
  import opened Store

  const UnauthorizedRole: string := "Unauthorized role"
  const MissingCourseFields: string := "All fields except teacherId and zoom are required"
  const InvalidTeacherId: string := "Invalid teacher ID"
  const InvalidStudentId: string := "Invalid student ID"
  const CourseNotFound: string := "Course not found"
  const FailedToAssignTeacher: string := "Failed to assign teacher"
  const FailedToAddStudent: string := "Failed to add student"
  const AlreadyEnrolled: string := "Student already enrolled"
  const StudentIdRequired: string := "Student ID is required"
  const StudentNotEnrolled: string := "Student is not enrolled in this course"
  const TeacherIdRequired: string := "Teacher ID is required"
  const NoAssignedTeacher: string := "This course has no assigned teacher"
  const TeacherNotAssigned: string := "This teacher is not assigned to this course"

  /** The body of a course-creation request. */
  datatype CourseForm = CourseForm(
    name: Option<string>,
    startDate: Option<string>,
    endDate: Option<string>,
    time: Option<string>,
    category: Option<string>,
    teacherId: Option<Id>,
    zoom: Option<string>)

  predicate Complete(form: CourseForm) {
    Present(form.name) && Present(form.startDate) && Present(form.endDate) && Present(form.time) && Present(form.category)
  }

  /**
    `getAllCourses`: an admin sees every course, a teacher the courses they
    currently teach, a student the courses they are enrolled in; any other
    role is turned away.
   */
  function GetAllCourses(st: State, actor: Actor): (r: Step<set<Id>>)
    ensures r.state == st
    ensures r.result.Err? <==> actor.role.Other?
    ensures r.result.Err? ==> r.result.error == Error(Forbidden, UnauthorizedRole)
    ensures r.result.Ok? ==> r.result.value <= st.courses.Keys
    ensures actor.role == Admin ==> r.result == Ok(st.courses.Keys)
    ensures actor.role == Teacher ==> forall c :: c in r.result.value <==> TeachesCourse(st, actor.id, c)
    ensures actor.role == Student ==> forall c :: c in r.result.value <==> c in st.courses && Enrolled(st, actor.id, c)
  {
    if actor.role == Admin then Step(Ok(st.courses.Keys), st)
    else if actor.role == Teacher then
      Step(Ok(set c | c in st.courses && TeachesCourse(st, actor.id, c)), st)
    else if actor.role == Student then
      Step(Ok(set c | c in st.courses && Enrolled(st, actor.id, c)), st)
    else Reject(st, Forbidden, UnauthorizedRole)
  }

  /**
    `createCourse`: every field but the teacher and the meeting link is
    required; a teacher given in the body must be a user with the teacher
    role. The new course records its creator.
   */
  function CreateCourse(st: State, actor: Actor, form: CourseForm): (r: Step<Id>)
    ensures !Complete(form) ==> Rejected(r, st, Validation, MissingCourseFields)
    ensures Complete(form) && form.teacherId.Some? && !HasRole(st, form.teacherId.value, Teacher) ==>
      Rejected(r, st, Validation, InvalidTeacherId)
    ensures r.result.Ok? <==> Complete(form) && (form.teacherId.Some? ==> HasRole(st, form.teacherId.value, Teacher))
    ensures r.result.Ok? ==>
      && r.result.value == st.nextId
      && r.state == st.(courses := r.state.courses, nextId := st.nextId + 1)
      && r.result.value in r.state.courses
      && r.state.courses == st.courses[r.result.value := r.state.courses[r.result.value]]
    ensures r.result.Ok? ==>
      var course := r.state.courses[r.result.value];
      && course.createdBy == actor.id
      && course.teacherId == form.teacherId
      && course.name == form.name.value && course.startDate == form.startDate.value
      && course.endDate == form.endDate.value && course.time == form.time.value
      && course.category == form.category.value
      && (course.zoom.Some? <==> Present(form.zoom))
      && course.zoom == OrNull(form.zoom)
    ensures r.result.Ok? && Valid(st) ==> r.result.value !in st.courses
  {
    if !Complete(form) then Reject(st, Validation, MissingCourseFields)
    else if form.teacherId.Some? && !HasRole(st, form.teacherId.value, Teacher) then Reject(st, Validation, InvalidTeacherId)
    else
      var course := Course(form.name.value, form.startDate.value, form.endDate.value, form.time.value,
                           form.category.value, OrNull(form.zoom), form.teacherId, actor.id);
      Step(Ok(st.nextId), st.(courses := st.courses[st.nextId := course], nextId := st.nextId + 1))
  }

  /** `deleteCourse`: removes the course row alone. */
  function DeleteCourse(st: State, id: Id): (r: Step<()>)
    ensures id !in st.courses ==> Rejected(r, st, NotFound, CourseNotFound)
    ensures r.result.Ok? <==> id in st.courses
    ensures r.result.Ok? ==> r.state == st.(courses := r.state.courses)
    ensures r.result.Ok? ==> r.state.courses.Keys == st.courses.Keys - {id}
    ensures r.result.Ok? ==> forall c :: c in r.state.courses ==> r.state.courses[c] == st.courses[c]
  {
    if id !in st.courses then Reject(st, NotFound, CourseNotFound)
    else Step(Ok(()), st.(courses := st.courses - {id}))
  }

  /**
    `assignTeacher`: the named user must hold the teacher role and the course
    must exist; the course's teacher is then that user, whoever taught it before.
   */
  function AssignTeacher(st: State, courseId: Id, teacherId: Option<Id>): (r: Step<Course>)
    ensures teacherId.None? ==> Rejected(r, st, Internal, FailedToAssignTeacher)
    ensures teacherId.Some? && !HasRole(st, teacherId.value, Teacher) ==> Rejected(r, st, Validation, InvalidTeacherId)
    ensures teacherId.Some? && HasRole(st, teacherId.value, Teacher) && courseId !in st.courses ==>
      Rejected(r, st, NotFound, CourseNotFound)
    ensures r.result.Ok? <==> teacherId.Some? && HasRole(st, teacherId.value, Teacher) && courseId in st.courses
    ensures r.result.Ok? ==>
      && r.state == st.(courses := st.courses[courseId := r.result.value])
      && r.result.value == st.courses[courseId].(teacherId := teacherId)
      && TeachesCourse(r.state, teacherId.value, courseId)
  {
    if teacherId.None? then Reject(st, Internal, FailedToAssignTeacher)
    else if !HasRole(st, teacherId.value, Teacher) then Reject(st, Validation, InvalidTeacherId)
    else if courseId !in st.courses then Reject(st, NotFound, CourseNotFound)
    else
      var updated := st.courses[courseId].(teacherId := teacherId);
      Step(Ok(updated), st.(courses := st.courses[courseId := updated]))
  }

  /**
    `addStudentToCourse`: the user must hold the student role, the course must
    exist, and a second enrollment of the same pair is refused.
   */
  function AddStudentToCourse(st: State, courseId: Id, studentId: Option<Id>): (r: Step<Id>)
    ensures studentId.None? ==> Rejected(r, st, Internal, FailedToAddStudent)
    ensures studentId.Some? && !HasRole(st, studentId.value, Student) ==> Rejected(r, st, Validation, InvalidStudentId)
    ensures studentId.Some? && HasRole(st, studentId.value, Student) && courseId !in st.courses ==>
      Rejected(r, st, NotFound, CourseNotFound)
    ensures (studentId.Some? && HasRole(st, studentId.value, Student) && courseId in st.courses
             && Enrolled(st, studentId.value, courseId)) ==> Rejected(r, st, Conflict, AlreadyEnrolled)
    ensures r.result.Ok? <==>
      studentId.Some? && HasRole(st, studentId.value, Student) && courseId in st.courses && !Enrolled(st, studentId.value, courseId)
    ensures r.result.Ok? ==>
      && r.result.value == st.nextId
      && r.state == st.(enrollments := st.enrollments[st.nextId := Enrollment(studentId.value, courseId)], nextId := st.nextId + 1)
      && Enrolled(r.state, studentId.value, courseId)
    ensures r.result.Ok? && Valid(st) ==> |r.state.enrollments| == |st.enrollments| + 1
  {
    if studentId.None? then Reject(st, Internal, FailedToAddStudent)
    else if !HasRole(st, studentId.value, Student) then Reject(st, Validation, InvalidStudentId)
    else if courseId !in st.courses then Reject(st, NotFound, CourseNotFound)
    else if Enrolled(st, studentId.value, courseId) then Reject(st, Conflict, AlreadyEnrolled)
    else
      var st' := st.(enrollments := st.enrollments[st.nextId := Enrollment(studentId.value, courseId)], nextId := st.nextId + 1);
      assert st'.enrollments[st.nextId] == Enrollment(studentId.value, courseId);
      Step(Ok(st.nextId), st')
  }

  /** The identifiers of the enrollment rows for one (student, course) pair. */
  function PairRows(enrollments: map<Id, Enrollment>, pair: Enrollment): set<Id> {
    set e | e in enrollments && enrollments[e] == pair
  }

  /**
    `removeStudentFromCourse`: needs a student id, an existing course and an
    existing enrollment; it deletes the one enrollment row `findFirst` returns
    (here the least identifier among the pair's rows) and nothing else.
   */
  function RemoveStudentFromCourse(st: State, courseId: Id, studentId: Option<Id>): (r: Step<()>)
    ensures studentId.None? ==> Rejected(r, st, Validation, StudentIdRequired)
    ensures studentId.Some? && courseId !in st.courses ==> Rejected(r, st, NotFound, CourseNotFound)
    ensures studentId.Some? && courseId in st.courses && !Enrolled(st, studentId.value, courseId) ==>
      Rejected(r, st, NotFound, StudentNotEnrolled)
    ensures r.result.Ok? <==> studentId.Some? && courseId in st.courses && Enrolled(st, studentId.value, courseId)
    ensures r.result.Ok? ==> r.state == st.(enrollments := r.state.enrollments)
    ensures r.result.Ok? ==> exists e :: e in st.enrollments && st.enrollments[e] == Enrollment(studentId.value, courseId)
                                         && r.state.enrollments == st.enrollments - {e}
  {
    if studentId.None? then Reject(st, Validation, StudentIdRequired)
    else if courseId !in st.courses then Reject(st, NotFound, CourseNotFound)
    else if !Enrolled(st, studentId.value, courseId) then Reject(st, NotFound, StudentNotEnrolled)
    else
      var pair := Enrollment(studentId.value, courseId);
      var rows := PairRows(st.enrollments, pair);
      var e :| e in st.enrollments && st.enrollments[e] == pair;
      assert e in rows;
      var first := Least(rows);
      Step(Ok(()), st.(enrollments := st.enrollments - {first}))
  }

  /**
    Removing a student deletes exactly one enrollment row; under the
    uniqueness invariant that was the pair's only row, so the student is no
    longer enrolled.
   */
  lemma RemoveStudentDeletesOneRow(st: State, courseId: Id, studentId: Option<Id>)
    requires RemoveStudentFromCourse(st, courseId, studentId).result.Ok?
    ensures |RemoveStudentFromCourse(st, courseId, studentId).state.enrollments| == |st.enrollments| - 1
    ensures Valid(st) ==> !Enrolled(RemoveStudentFromCourse(st, courseId, studentId).state, studentId.value, courseId)
  {
    var r := RemoveStudentFromCourse(st, courseId, studentId);
    var pair := Enrollment(studentId.value, courseId);
    var e :| e in st.enrollments && st.enrollments[e] == pair && r.state.enrollments == st.enrollments - {e};
    assert r.state.enrollments.Keys == st.enrollments.Keys - {e};
  }

  /**
    `removeTeacherFromCourse`: the body's teacher must be the course's current
    teacher; the course is then left without one and nothing else changes.
   */
  function RemoveTeacherFromCourse(st: State, courseId: Id, teacherId: Option<Id>): (r: Step<()>)
    ensures teacherId.None? ==> Rejected(r, st, Validation, TeacherIdRequired)
    ensures teacherId.Some? && courseId !in st.courses ==> Rejected(r, st, NotFound, CourseNotFound)
    ensures teacherId.Some? && courseId in st.courses && st.courses[courseId].teacherId.None? ==>
      Rejected(r, st, Validation, NoAssignedTeacher)
    ensures (teacherId.Some? && courseId in st.courses && st.courses[courseId].teacherId.Some?
             && st.courses[courseId].teacherId != teacherId) ==> Rejected(r, st, Validation, TeacherNotAssigned)
    ensures r.result.Ok? <==> teacherId.Some? && TeachesCourse(st, teacherId.value, courseId)
    ensures r.result.Ok? ==> r.state == st.(courses := st.courses[courseId := st.courses[courseId].(teacherId := None)])
  {
    if teacherId.None? then Reject(st, Validation, TeacherIdRequired)
    else if courseId !in st.courses then Reject(st, NotFound, CourseNotFound)
    else if st.courses[courseId].teacherId.None? then Reject(st, Validation, NoAssignedTeacher)
    else if st.courses[courseId].teacherId != teacherId then Reject(st, Validation, TeacherNotAssigned)
    else Step(Ok(()), st.(courses := st.courses[courseId := st.courses[courseId].(teacherId := None)]))
  }

  /** `getCourseStudents`: the users of the course's enrollment rows, whoever asks. */
  function GetCourseStudents(st: State, courseId: Id): (r: Step<set<Id>>)
    ensures r.state == st
    ensures r.result.Ok? <==> courseId in st.courses
    ensures courseId !in st.courses ==> Rejected(r, st, NotFound, CourseNotFound)
    ensures r.result.Ok? ==> forall u :: u in r.result.value <==> Enrolled(st, u, courseId)
  {
    if courseId !in st.courses then Reject(st, NotFound, CourseNotFound)
    else
      var students := set e | e in st.enrollments && st.enrollments[e].courseId == courseId :: st.enrollments[e].userId;
      assert forall u :: u in students <==> Enrolled(st, u, courseId) by {
        forall u ensures u in students <==> Enrolled(st, u, courseId) {
          if Enrolled(st, u, courseId) {
            var e :| e in st.enrollments && st.enrollments[e] == Enrollment(u, courseId);
            assert st.enrollments[e].userId == u;
          }
        }
      }
      Step(Ok(students), st)
  }

  /** Creating, deleting and re-teaching courses, and removing enrollments, keep the store's invariants. */
  lemma CourseWritesPreserveValid(st: State, actor: Actor, form: CourseForm, id: Id, courseId: Id, userId: Option<Id>)
    requires Valid(st)
    ensures Valid(CreateCourse(st, actor, form).state)
    ensures Valid(DeleteCourse(st, id).state)
    ensures Valid(AssignTeacher(st, courseId, userId).state)
    ensures Valid(RemoveStudentFromCourse(st, courseId, userId).state)
    ensures Valid(RemoveTeacherFromCourse(st, courseId, userId).state)
  {
  }

  /** Adding a student keeps at most one enrollment row per (student, course) pair. */
  lemma AddStudentPreservesValid(st: State, courseId: Id, studentId: Option<Id>)
    requires Valid(st)
    ensures Valid(AddStudentToCourse(st, courseId, studentId).state)
  {
    var r := AddStudentToCourse(st, courseId, studentId);
    if r.result.Ok? {
      var pair := Enrollment(studentId.value, courseId);
      var m := r.state.enrollments;
      forall e, f | e in m && f in m && m[e] == m[f] ensures e == f {
        if e != st.nextId && f != st.nextId {
          assert st.enrollments[e] == st.enrollments[f];
        }
      }
    }
  }
}
