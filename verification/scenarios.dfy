/**
  Consequences of the handlers that span more than one request: what a
  repeated request does, what a reassignment takes away and what it does
  not, and the checks that are absent.
 */
module Scenarios {
  import opened Store
  import CourseHandlers
  import AssignmentHandlers
  import AttendanceHandlers

  /** Submitting twice is accepted twice and leaves two rows for the same student and assignment. */
  lemma ResubmissionAddsSecondRow(st: State, actor: Actor, assignmentId: Id)
    requires Valid(st)
    requires AssignmentHandlers.SubmitAssignment(st, actor, assignmentId).result.Ok?
    ensures var first := AssignmentHandlers.SubmitAssignment(st, actor, assignmentId);
            var second := AssignmentHandlers.SubmitAssignment(first.state, actor, assignmentId);
      && second.result.Ok?
      && first.result.value != second.result.value
      && first.result.value in second.state.submissions
      && second.state.submissions[first.result.value] == second.state.submissions[second.result.value]
      && |second.state.submissions| == |st.submissions| + 2
  {
    var first := AssignmentHandlers.SubmitAssignment(st, actor, assignmentId);
    AssignmentHandlers.InsertsPreserveValid(st, actor, 0, assignmentId, None, None, None);
    assert first.state.assignments == st.assignments && first.state.enrollments == st.enrollments;
  }

  /** Marking the same student, course and date a second time is a conflict that writes nothing. */
  lemma MarkingTwiceConflicts(st: State, actor: Actor, courseId: Id, studentId: Option<Id>,
                              date: Option<string>, status: Option<string>, status2: Option<string>)
    requires AttendanceHandlers.MarkAttendance(st, actor, courseId, studentId, date, status).result.Ok?
    requires Present(status2)
    ensures var s1 := AttendanceHandlers.MarkAttendance(st, actor, courseId, studentId, date, status).state;
      Rejected(AttendanceHandlers.MarkAttendance(s1, actor, courseId, studentId, date, status2), s1,
               Conflict, AttendanceHandlers.AlreadyRecorded)
  {
    var s1 := AttendanceHandlers.MarkAttendance(st, actor, courseId, studentId, date, status).state;
    assert s1.courses == st.courses && s1.enrollments == st.enrollments;
  }

  /**
    Assigning another teacher takes the course away from the previous one at
    once: they can no longer create its assignments or correct the
    course's attendance.
   */
  lemma ReassignRevokesTeacher(st: State, courseId: Id, oldTeacher: Id, newTeacher: Id, attendanceId: Id,
                               title: string, startDate: string, dueDate: string)
    requires TeachesCourse(st, oldTeacher, courseId)
    requires oldTeacher != newTeacher
    requires CourseHandlers.AssignTeacher(st, courseId, Some(newTeacher)).result.Ok?
    requires title != [] && startDate != [] && dueDate != []
    requires attendanceId in st.attendance && st.attendance[attendanceId].courseId == courseId
    ensures var s1 := CourseHandlers.AssignTeacher(st, courseId, Some(newTeacher)).state;
      && !TeachesCourse(s1, oldTeacher, courseId)
      && Rejected(AssignmentHandlers.CreateAssignment(s1, Actor(oldTeacher, Teacher), courseId, Some(title), Some(startDate), Some(dueDate)),
                  s1, Forbidden, AssignmentHandlers.NotCourseTeacher)
      && Rejected(AttendanceHandlers.UpdateAttendance(s1, Actor(oldTeacher, Teacher), courseId, attendanceId, Some(AttendanceHandlers.PresentStatus)),
                  s1, Forbidden, AttendanceHandlers.CannotUpdateRecord)
  {
  }

  /**
    Ownership outlives teaching: after the course changes hands, the
    assignment's creator may still edit it and the new teacher may not.
   */
  lemma CreatorKeepsEditRights(st: State, assignmentId: Id, newTeacher: Id, title: Option<string>, dueDate: Option<string>)
    requires assignmentId in st.assignments
    requires newTeacher != st.assignments[assignmentId].createdBy
    requires CourseHandlers.AssignTeacher(st, st.assignments[assignmentId].courseId, Some(newTeacher)).result.Ok?
    ensures var creator := st.assignments[assignmentId].createdBy;
            var s1 := CourseHandlers.AssignTeacher(st, st.assignments[assignmentId].courseId, Some(newTeacher)).state;
      && AssignmentHandlers.UpdateAssignment(s1, Actor(creator, Teacher), assignmentId, title, dueDate).result.Ok?
      && Rejected(AssignmentHandlers.UpdateAssignment(s1, Actor(newTeacher, Teacher), assignmentId, title, dueDate),
                  s1, Forbidden, AssignmentHandlers.CannotEdit)
      && Rejected(AssignmentHandlers.DeleteAssignment(s1, Actor(newTeacher, Teacher), assignmentId),
                  s1, Forbidden, AssignmentHandlers.CannotDelete)
  {
  }

  /**
    Removing a student from a course keeps their attendance rows, so a store
    can hold attendance of a student who is no longer enrolled in its course.
   */
  lemma UnenrollKeepsAttendance(st: State, courseId: Id, studentId: Id)
    requires Valid(st)
    requires CourseHandlers.RemoveStudentFromCourse(st, courseId, Some(studentId)).result.Ok?
    ensures var s1 := CourseHandlers.RemoveStudentFromCourse(st, courseId, Some(studentId)).state;
      && s1.attendance == st.attendance
      && !Enrolled(s1, studentId, courseId)
  {
    CourseHandlers.RemoveStudentDeletesOneRow(st, courseId, Some(studentId));
  }

  /**
    Grading checks the teacher against the path's assignment only, so a
    teacher may grade any submission in the store, including one to an
    assignment of a course they do not teach.
   */
  lemma GradeReachesOtherCourses(st: State, teacher: Id, assignmentId: Id, submissionId: Id, grade: int)
    requires assignmentId in st.assignments && TeachesCourse(st, teacher, st.assignments[assignmentId].courseId)
    requires submissionId in st.submissions
    ensures var r := AssignmentHandlers.GradeAssignment(st, Actor(teacher, Teacher), assignmentId, submissionId, Some(grade), None);
      && r.result.Ok?
      && r.state.submissions[submissionId].grade == Some(grade)
      && r.state.submissions[submissionId].assignmentId == st.submissions[submissionId].assignmentId
  {
  }

  /** A concrete store in which a teacher of one course grades a submission to another course's assignment. */
  lemma GradeCrossCourseWitness()
    ensures var st := State(
              map[0 := User("t", "t@x", "h", Teacher), 1 := User("u", "u@x", "h", Teacher), 2 := User("s", "s@x", "h", Student)],
              map[3 := Course("A", "d", "d", "t", "c", None, Some(0), 0), 4 := Course("B", "d", "d", "t", "c", None, Some(1), 0)],
              map[],
              map[5 := Assignment(3, "a", "d", "d", 0), 6 := Assignment(4, "b", "d", "d", 1)],
              map[7 := Submission(6, 2, None, None)],
              map[],
              8);
            var r := AssignmentHandlers.GradeAssignment(st, Actor(0, Teacher), 5, 7, Some(100), None);
      && Valid(st)
      && !TeachesCourse(st, 0, st.assignments[st.submissions[7].assignmentId].courseId)
      && r.result.Ok?
      && r.state.submissions[7].grade == Some(100)
  {
  }
}
