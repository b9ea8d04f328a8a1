/**
  The assignment handlers: creation by a course's teacher, submission by an
  enrolled student, owner-only edits and deletion, grading and feedback by the
  course's current teacher, and the role-filtered reads.
 */
module AssignmentHandlers {
  import opened Store

  const MissingFields: string := "All fields are required"
  const CourseNotFound: string := "Course not found"
  const NotCourseTeacher: string := "Unauthorized: You are not the teacher of this course"
  const AssignmentNotFound: string := "Assignment not found"
  const NotEnrolled: string := "Unauthorized: You are not enrolled in this course"
  const CannotEdit: string := "Unauthorized to edit this assignment"
  const CannotDelete: string := "Unauthorized to delete this assignment"
  const UnauthorizedAccess: string := "Unauthorized access"
  const FailedToFetchSubmissions: string := "Failed to fetch submissions"
  const GradeRequired: string := "Grade is required"
  const SubmissionNotFound: string := "Submission not found"
  const AdminOnly: string := "Unauthorized: Admin only"
  const NoSubmissions: string := "No submissions found"
  const FeedbackRequired: string := "Feedback is required"
  const OnlyTeacherGivesFeedback: string := "Unauthorized: Only the teacher can give feedback"
  const FailedToProvideFeedback: string := "Failed to provide feedback"
  const NotEnrolledAnywhere: string := "You are not enrolled in any courses"

  /**
    `createAssignment`: all three fields are required, the course must exist
    and the actor must be its current teacher; the new assignment belongs to
    the course of the path and records the actor as its creator.
   */
  function CreateAssignment(st: State, actor: Actor, courseId: Id,
                            title: Option<string>, startDate: Option<string>, dueDate: Option<string>): (r: Step<Id>)
    ensures !(Present(title) && Present(startDate) && Present(dueDate)) ==> Rejected(r, st, Validation, MissingFields)
    ensures Present(title) && Present(startDate) && Present(dueDate) && courseId !in st.courses ==>
      Rejected(r, st, NotFound, CourseNotFound)
    ensures (Present(title) && Present(startDate) && Present(dueDate) && courseId in st.courses
             && !TeachesCourse(st, actor.id, courseId)) ==> Rejected(r, st, Forbidden, NotCourseTeacher)
    ensures r.result.Ok? <==>
      Present(title) && Present(startDate) && Present(dueDate) && TeachesCourse(st, actor.id, courseId)
    ensures r.result.Ok? ==>
      && r.result.value == st.nextId
      && r.state == st.(assignments := st.assignments[st.nextId := Assignment(courseId, title.value, startDate.value, dueDate.value, actor.id)],
                        nextId := st.nextId + 1)
    ensures r.result.Ok? && Valid(st) ==> r.result.value !in st.assignments && |r.state.assignments| == |st.assignments| + 1
  {
    if !Present(title) || !Present(startDate) || !Present(dueDate) then Reject(st, Validation, MissingFields)
    else if courseId !in st.courses then Reject(st, NotFound, CourseNotFound)
    else if !TeachesCourse(st, actor.id, courseId) then Reject(st, Forbidden, NotCourseTeacher)
    else
      var a := Assignment(courseId, title.value, startDate.value, dueDate.value, actor.id);
      Step(Ok(st.nextId), st.(assignments := st.assignments[st.nextId := a], nextId := st.nextId + 1))
  }

  /**
    `submitAssignment`: the assignment must exist and the actor must be
    enrolled in its course. There is no duplicate check: every successful call
    adds one more submission row.
   */
  function SubmitAssignment(st: State, actor: Actor, assignmentId: Id): (r: Step<Id>)
    ensures assignmentId !in st.assignments ==> Rejected(r, st, NotFound, AssignmentNotFound)
    ensures (assignmentId in st.assignments && !Enrolled(st, actor.id, st.assignments[assignmentId].courseId)) ==>
      Rejected(r, st, Forbidden, NotEnrolled)
    ensures r.result.Ok? <==> assignmentId in st.assignments && Enrolled(st, actor.id, st.assignments[assignmentId].courseId)
    ensures r.result.Ok? ==>
      && r.result.value == st.nextId
      && r.state == st.(submissions := st.submissions[st.nextId := Submission(assignmentId, actor.id, None, None)],
                        nextId := st.nextId + 1)
    ensures r.result.Ok? && Valid(st) ==> r.result.value !in st.submissions && |r.state.submissions| == |st.submissions| + 1
  {
    if assignmentId !in st.assignments then Reject(st, NotFound, AssignmentNotFound)
    else if !Enrolled(st, actor.id, st.assignments[assignmentId].courseId) then
      Reject(st, Forbidden, NotEnrolled)
    else
      var s := Submission(assignmentId, actor.id, None, None);
      Step(Ok(st.nextId), st.(submissions := st.submissions[st.nextId := s], nextId := st.nextId + 1))
  }

  /**
    `updateAssignment`: only the assignment's creator may edit it, whoever
    teaches the course now. An absent title or due date keeps the old one; the
    start date, course and creator never change.
   */
  function UpdateAssignment(st: State, actor: Actor, id: Id, title: Option<string>, dueDate: Option<string>): (r: Step<Assignment>)
    ensures id !in st.assignments ==> Rejected(r, st, NotFound, AssignmentNotFound)
    ensures id in st.assignments && st.assignments[id].createdBy != actor.id ==> Rejected(r, st, Forbidden, CannotEdit)
    ensures r.result.Ok? <==> id in st.assignments && st.assignments[id].createdBy == actor.id
    ensures r.result.Ok? ==>
      var before := st.assignments[id];
      var after := r.result.value;
      && r.state == st.(assignments := st.assignments[id := after])
      && after.courseId == before.courseId
      && after.startDate == before.startDate
      && after.createdBy == before.createdBy
      && (Present(title) ==> after.title == title.value)
      && (!Present(title) ==> after.title == before.title)
      && (Present(dueDate) ==> after.dueDate == dueDate.value)
      && (!Present(dueDate) ==> after.dueDate == before.dueDate)
  {
    if id !in st.assignments then Reject(st, NotFound, AssignmentNotFound)
    else
      var a := st.assignments[id];
      if a.createdBy != actor.id then Reject(st, Forbidden, CannotEdit)
      else
        var updated := a.(title := if Present(title) then title.value else a.title,
                          dueDate := if Present(dueDate) then dueDate.value else a.dueDate);
        Step(Ok(updated), st.(assignments := st.assignments[id := updated]))
  }

  /** `deleteAssignment`: only the creator may delete; its submissions stay in the store. */
  function DeleteAssignment(st: State, actor: Actor, id: Id): (r: Step<()>)
    ensures id !in st.assignments ==> Rejected(r, st, NotFound, AssignmentNotFound)
    ensures id in st.assignments && st.assignments[id].createdBy != actor.id ==> Rejected(r, st, Forbidden, CannotDelete)
    ensures r.result.Ok? <==> id in st.assignments && st.assignments[id].createdBy == actor.id
    ensures r.result.Ok? ==> r.state == st.(assignments := r.state.assignments)
    ensures r.result.Ok? ==> r.state.assignments.Keys == st.assignments.Keys - {id}
    ensures r.result.Ok? ==> forall a :: a in r.state.assignments ==> r.state.assignments[a] == st.assignments[a]
  {
    if id !in st.assignments then Reject(st, NotFound, AssignmentNotFound)
    else if st.assignments[id].createdBy != actor.id then Reject(st, Forbidden, CannotDelete)
    else Step(Ok(()), st.(assignments := st.assignments - {id}))
  }

  /** `getAssignmentsByCourse`: the course's assignments, with no check on who asks and none that the course exists. */
  function GetAssignmentsByCourse(st: State, courseId: Id): (r: Step<set<Id>>)
    ensures r.state == st && r.result.Ok?
    ensures forall a :: a in r.result.value <==> a in st.assignments && st.assignments[a].courseId == courseId
  {
    Step(Ok(set a | a in st.assignments && st.assignments[a].courseId == courseId), st)
  }

  /** `getAssignmentById`: one assignment, for any authenticated caller. */
  function GetAssignmentById(st: State, id: Id): (r: Step<Assignment>)
    ensures r.state == st
    ensures r.result.Ok? <==> id in st.assignments
    ensures r.result.Ok? ==> r.result.value == st.assignments[id]
    ensures id !in st.assignments ==> Rejected(r, st, NotFound, AssignmentNotFound)
  {
    if id !in st.assignments then Reject(st, NotFound, AssignmentNotFound)
    else Step(Ok(st.assignments[id]), st)
  }

  /**
    `getAssignmentSubmissions`: an admin gets every submission of the
    assignment, a teacher gets them only when teaching its course, a student
    gets only their own, and any other role is refused.
   */
  function GetAssignmentSubmissions(st: State, actor: Actor, assignmentId: Id): (r: Step<set<Id>>)
    ensures r.state == st
    ensures assignmentId !in st.assignments ==> Rejected(r, st, NotFound, AssignmentNotFound)
    ensures assignmentId in st.assignments && actor.role.Other? ==> Rejected(r, st, Forbidden, UnauthorizedAccess)
    ensures (assignmentId in st.assignments && actor.role == Teacher
             && st.assignments[assignmentId].courseId in st.courses
             && !TeachesCourse(st, actor.id, st.assignments[assignmentId].courseId)) ==>
      Rejected(r, st, Forbidden, NotCourseTeacher)
    ensures (assignmentId in st.assignments && actor.role == Teacher
             && st.assignments[assignmentId].courseId !in st.courses) ==>
      Rejected(r, st, Internal, FailedToFetchSubmissions)
    ensures r.result.Ok? <==>
      && assignmentId in st.assignments
      && (|| actor.role == Admin
          || actor.role == Student
          || (actor.role == Teacher && TeachesCourse(st, actor.id, st.assignments[assignmentId].courseId)))
    ensures r.result.Ok? ==> forall s :: s in r.result.value <==>
      && s in st.submissions
      && st.submissions[s].assignmentId == assignmentId
      && (actor.role == Student ==> st.submissions[s].studentId == actor.id)
  {
    if assignmentId !in st.assignments then Reject(st, NotFound, AssignmentNotFound)
    else
      var all := set s | s in st.submissions && st.submissions[s].assignmentId == assignmentId;
      var courseId := st.assignments[assignmentId].courseId;
      if actor.role == Admin then Step(Ok(all), st)
      else if actor.role == Teacher then
        if courseId !in st.courses then Reject(st, Internal, FailedToFetchSubmissions)
        else if !TeachesCourse(st, actor.id, courseId) then Reject(st, Forbidden, NotCourseTeacher)
        else Step(Ok(all), st)
      else if actor.role == Student then
        Step(Ok(set s | s in st.submissions && st.submissions[s].assignmentId == assignmentId
                        && st.submissions[s].studentId == actor.id), st)
      else Reject(st, Forbidden, UnauthorizedAccess)
  }

  /**
    `gradeAssignment`: a grade is required and the actor must teach the
    course of the path's assignment right now. The submission is looked up by
    its own identifier alone: nothing ties it to the path's assignment.
   */
  function GradeAssignment(st: State, actor: Actor, assignmentId: Id, submissionId: Id,
                           grade: Option<int>, feedback: Option<string>): (r: Step<Submission>)
    ensures grade.None? ==> Rejected(r, st, Validation, GradeRequired)
    ensures grade.Some? && assignmentId !in st.assignments ==> Rejected(r, st, NotFound, AssignmentNotFound)
    ensures (grade.Some? && assignmentId in st.assignments
             && !TeachesCourse(st, actor.id, st.assignments[assignmentId].courseId)) ==>
      Rejected(r, st, Forbidden, NotCourseTeacher)
    ensures (grade.Some? && assignmentId in st.assignments
             && TeachesCourse(st, actor.id, st.assignments[assignmentId].courseId)
             && submissionId !in st.submissions) ==> Rejected(r, st, NotFound, SubmissionNotFound)
    ensures r.result.Ok? <==>
      && grade.Some?
      && assignmentId in st.assignments
      && TeachesCourse(st, actor.id, st.assignments[assignmentId].courseId)
      && submissionId in st.submissions
    ensures r.result.Ok? ==>
      && r.state == st.(submissions := st.submissions[submissionId := r.result.value])
      && r.result.value.grade == grade
      && (r.result.value.feedback.Some? <==> Present(feedback))
      && (Present(feedback) ==> r.result.value.feedback == feedback)
      && r.result.value.assignmentId == st.submissions[submissionId].assignmentId
      && r.result.value.studentId == st.submissions[submissionId].studentId
  {
    if grade.None? then Reject(st, Validation, GradeRequired)
    else if assignmentId !in st.assignments then Reject(st, NotFound, AssignmentNotFound)
    else
      var courseId := st.assignments[assignmentId].courseId;
      if !TeachesCourse(st, actor.id, courseId) then Reject(st, Forbidden, NotCourseTeacher)
      else if submissionId !in st.submissions then Reject(st, NotFound, SubmissionNotFound)
      else
        var graded := st.submissions[submissionId].(grade := grade, feedback := OrNull(feedback));
        Step(Ok(graded), st.(submissions := st.submissions[submissionId := graded]))
  }

  /** `getAllSubmissions`: admin only, and an empty table is reported as an error. */
  function GetAllSubmissions(st: State, actor: Actor): (r: Step<set<Id>>)
    ensures r.state == st
    ensures actor.role != Admin ==> Rejected(r, st, Forbidden, AdminOnly)
    ensures actor.role == Admin && |st.submissions| == 0 ==> Rejected(r, st, NotFound, NoSubmissions)
    ensures r.result.Ok? <==> actor.role == Admin && |st.submissions| > 0
    ensures r.result.Ok? ==> r.result.value == st.submissions.Keys
  {
    if actor.role != Admin then Reject(st, Forbidden, AdminOnly)
    else if |st.submissions| == 0 then Reject(st, NotFound, NoSubmissions)
    else Step(Ok(st.submissions.Keys), st)
  }

  /**
    `provideAssignmentFeedback`: non-empty feedback, an existing assignment and
    the course's current teacher; the submission named in the body is updated
    without any check that it belongs to that assignment. A missing or unknown
    submission makes the store update fail.
   */
  function ProvideAssignmentFeedback(st: State, actor: Actor, assignmentId: Id, submissionId: Option<Id>,
                                     feedback: Option<string>): (r: Step<Submission>)
    ensures !Present(feedback) ==> Rejected(r, st, Validation, FeedbackRequired)
    ensures Present(feedback) && assignmentId !in st.assignments ==> Rejected(r, st, NotFound, AssignmentNotFound)
    ensures (Present(feedback) && assignmentId in st.assignments && st.assignments[assignmentId].courseId in st.courses
             && !TeachesCourse(st, actor.id, st.assignments[assignmentId].courseId)) ==>
      Rejected(r, st, Forbidden, OnlyTeacherGivesFeedback)
    ensures (Present(feedback) && assignmentId in st.assignments
             && st.assignments[assignmentId].courseId !in st.courses) ==>
      Rejected(r, st, Internal, FailedToProvideFeedback)
    ensures r.result.Err? ==> r.state == st
    ensures (Present(feedback) && assignmentId in st.assignments
             && TeachesCourse(st, actor.id, st.assignments[assignmentId].courseId)
             && (submissionId.None? || submissionId.value !in st.submissions)) ==>
      Rejected(r, st, Internal, FailedToProvideFeedback)
    ensures r.result.Ok? <==>
      && Present(feedback)
      && assignmentId in st.assignments
      && TeachesCourse(st, actor.id, st.assignments[assignmentId].courseId)
      && submissionId.Some? && submissionId.value in st.submissions
    ensures r.result.Ok? ==>
      && r.state == st.(submissions := st.submissions[submissionId.value := r.result.value])
      && r.result.value == st.submissions[submissionId.value].(feedback := feedback)
  {
    if !Present(feedback) then Reject(st, Validation, FeedbackRequired)
    else if assignmentId !in st.assignments then Reject(st, NotFound, AssignmentNotFound)
    else
      var courseId := st.assignments[assignmentId].courseId;
      if courseId !in st.courses then Reject(st, Internal, FailedToProvideFeedback)
      else if !TeachesCourse(st, actor.id, courseId) then Reject(st, Forbidden, OnlyTeacherGivesFeedback)
      else if submissionId.None? || submissionId.value !in st.submissions then Reject(st, Internal, FailedToProvideFeedback)
      else
        var updated := st.submissions[submissionId.value].(feedback := feedback);
        Step(Ok(updated), st.(submissions := st.submissions[submissionId.value := updated]))
  }

  /** The courses a user has enrollment rows for. */
  function EnrolledCourses(st: State, userId: Id): (courses: set<Id>)
    ensures forall c :: c in courses <==> Enrolled(st, userId, c)
  {
    var courses := set e | e in st.enrollments && st.enrollments[e].userId == userId :: st.enrollments[e].courseId;
    assert forall c :: Enrolled(st, userId, c) ==> c in courses by {
      forall c | Enrolled(st, userId, c) ensures c in courses {
        var e :| e in st.enrollments && st.enrollments[e] == Enrollment(userId, c);
        assert st.enrollments[e].courseId == c;
      }
    }
    courses
  }

  /**
    `getStudentAssignments`: an error when the actor has no enrollment at all,
    otherwise exactly the assignments of the courses they are enrolled in.
   */
  function GetStudentAssignments(st: State, actor: Actor): (r: Step<set<Id>>)
    ensures r.state == st
    ensures r.result.Err? <==> forall c :: !Enrolled(st, actor.id, c)
    ensures r.result.Err? ==> r.result.error == Error(NotFound, NotEnrolledAnywhere)
    ensures r.result.Ok? ==> forall a :: a in r.result.value <==>
      a in st.assignments && Enrolled(st, actor.id, st.assignments[a].courseId)
  {
    var courses := EnrolledCourses(st, actor.id);
    if courses == {} then Reject(st, NotFound, NotEnrolledAnywhere)
    else Step(Ok(set a | a in st.assignments && st.assignments[a].courseId in courses), st)
  }

  /** Creating an assignment or a submission keeps the store's invariants. */
  lemma InsertsPreserveValid(st: State, actor: Actor, courseId: Id, id: Id,
                             title: Option<string>, startDate: Option<string>, dueDate: Option<string>)
    requires Valid(st)
    ensures Valid(CreateAssignment(st, actor, courseId, title, startDate, dueDate).state)
    ensures Valid(SubmitAssignment(st, actor, id).state)
  {
  }

  /** Editing and deleting assignments, grading and feedback keep the store's invariants. */
  lemma EditsPreserveValid(st: State, actor: Actor, id: Id, submissionId: Id, pick: Option<Id>,
                           title: Option<string>, dueDate: Option<string>, grade: Option<int>, feedback: Option<string>)
    requires Valid(st)
    ensures Valid(UpdateAssignment(st, actor, id, title, dueDate).state)
    ensures Valid(DeleteAssignment(st, actor, id).state)
    ensures Valid(GradeAssignment(st, actor, id, submissionId, grade, feedback).state)
    ensures Valid(ProvideAssignmentFeedback(st, actor, id, pick, feedback).state)
  {
  }
}
