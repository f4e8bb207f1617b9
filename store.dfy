/**
 * The in-memory backend (services/mockApiService.ts): three arrays of users,
 * courses and feedback changed in place by the API calls.
 *
 * Each call runs as one atomic step (the simulated latency is not modelled).
 * `Date.now()` and `new Date()` are read by the source; here the clock
 * readings arrive as parameters: `idStamp` for the id suffix and `now` for
 * `createdAt`.
 */
module MockApi {
  import opened Wrappers
  import opened Types
  import Text
  import Seqs

  /** The errors the API throws. */
  datatype ApiError =
    | InvalidCredentials
    | DuplicateEmail
    | UserNotFound
    | CourseNotFound
    | InvalidStudentOrCourse
    | DuplicateFeedback
    | FeedbackNotFound

  /** The `Error.message` of each thrown error. */
  function ErrorMessage(e: ApiError): string {
    match e
    case InvalidCredentials => "Invalid credentials or user is blocked."
    case DuplicateEmail => "User with this email already exists."
    case UserNotFound => "User not found"
    case CourseNotFound => "Course not found"
    case InvalidStudentOrCourse => "Invalid student or course"
    case DuplicateFeedback => "You have already submitted feedback for this course. Please edit the existing one."
    case FeedbackNotFound => "Feedback not found"
  }

  /** What `login` and `signup` resolve to. */
  datatype AuthPayload = AuthPayload(user: User, token: string)

  function TokenFor(userId: string): string {
    "mock-jwt-token-for-" + userId
  }

  // ------------------------------------------------------------ lookups

  /** `users.find(u => u.email === email)`, as an index. */
  function IndexOfEmail(users: seq<User>, email: string): Option<nat> {
    Seqs.FirstIndex(users, (u: User) => u.email == email)
  }

  /** `users.findIndex(u => u.id === id)`. */
  function IndexOfUser(users: seq<User>, id: string): Option<nat> {
    Seqs.FirstIndex(users, (u: User) => u.id == id)
  }

  /** `courses.findIndex(c => c.id === id)`. */
  function IndexOfCourse(courses: seq<Course>, id: string): Option<nat> {
    Seqs.FirstIndex(courses, (c: Course) => c.id == id)
  }

  /** `feedback.findIndex(f => f.id === id)`. */
  function IndexOfFeedback(feedback: seq<Feedback>, id: string): Option<nat> {
    Seqs.FirstIndex(feedback, (f: Feedback) => f.id == id)
  }

  /** `feedback.findIndex(f => f.studentId === studentId && f.courseId === courseId)`. */
  function IndexOfPair(feedback: seq<Feedback>, studentId: string, courseId: string): Option<nat> {
    Seqs.FirstIndex(feedback, (f: Feedback) => f.studentId == studentId && f.courseId == courseId)
  }

  /** `users.filter(u => u.id !== id)`. */
  function UsersWithoutId(users: seq<User>, id: string): seq<User> {
    Seqs.Filter(users, (u: User) => u.id != id)
  }

  /** `courses.filter(c => c.id !== id)`. */
  function CoursesWithoutId(courses: seq<Course>, id: string): seq<Course> {
    Seqs.Filter(courses, (c: Course) => c.id != id)
  }

  /** `feedback.filter(f => f.id !== id)`. */
  function FeedbackWithoutId(feedback: seq<Feedback>, id: string): seq<Feedback> {
    Seqs.Filter(feedback, (f: Feedback) => f.id != id)
  }

  /** `feedback.filter(f => f.studentId === studentId)`. */
  function FeedbackOfStudent(feedback: seq<Feedback>, studentId: string): seq<Feedback> {
    Seqs.Filter(feedback, (f: Feedback) => f.studentId == studentId)
  }

  // ------------------------------------------------------------ invariants

  /** At most one feedback record per (studentId, courseId) pair. */
  ghost predicate OnePerPair(feedback: seq<Feedback>) {
    forall i, j :: 0 <= i < j < |feedback| ==>
      feedback[i].studentId != feedback[j].studentId || feedback[i].courseId != feedback[j].courseId
  }

  /** No two users share an e-mail address. */
  ghost predicate EmailsUnique(users: seq<User>) {
    forall i, j :: 0 <= i < j < |users| ==> users[i].email != users[j].email
  }

  /** Appending a record for a pair that has none keeps the pairs unique. */
  lemma AppendKeepsOnePerPair(feedback: seq<Feedback>, f: Feedback)
    requires OnePerPair(feedback)
    requires IndexOfPair(feedback, f.studentId, f.courseId).None?
    ensures OnePerPair(feedback + [f])
  {
    var s := feedback + [f];
    forall i, j | 0 <= i < j < |s|
      ensures s[i].studentId != s[j].studentId || s[i].courseId != s[j].courseId
    {
      if j == |feedback| {
        var p := (g: Feedback) => g.studentId == f.studentId && g.courseId == f.courseId;
        assert !p(feedback[i]);
      }
    }
  }

  /** Editing only rating and message keeps the pairs unique. */
  lemma {:induction false} RetouchKeepsOnePerPair(feedback: seq<Feedback>, i: nat, up: FeedbackUpdates)
    requires OnePerPair(feedback) && i < |feedback|
    ensures OnePerPair(feedback[i := MergeFeedback(feedback[i], up)])
  {
    var s := feedback[i := MergeFeedback(feedback[i], up)];
    forall a, b | 0 <= a < b < |s|
      ensures s[a].studentId != s[b].studentId || s[a].courseId != s[b].courseId
    {
      assert s[a].studentId == feedback[a].studentId && s[a].courseId == feedback[a].courseId;
      assert s[b].studentId == feedback[b].studentId && s[b].courseId == feedback[b].courseId;
    }
  }

  /** Removing records keeps the pairs unique. */
  lemma {:induction false} SubsequenceKeepsOnePerPair(a: seq<Feedback>, b: seq<Feedback>)
    requires OnePerPair(b) && Seqs.IsSubsequence(a, b)
    ensures OnePerPair(a)
    decreases |b|
  {
    if a != [] {
      if a[0] == b[0] {
        SubsequenceKeepsOnePerPair(a[1..], b[1..]);
        Seqs.SubsequenceMembers(a[1..], b[1..]);
        forall j | 0 < j < |a|
          ensures a[0].studentId != a[j].studentId || a[0].courseId != a[j].courseId
        {
          assert a[j] == a[1..][j - 1];
          assert a[j] in a[1..];
          var k :| 0 <= k < |b[1..]| && b[1..][k] == a[j];
          assert b[k + 1] == a[j];
        }
        forall i, j | 0 <= i < j < |a|
          ensures a[i].studentId != a[j].studentId || a[i].courseId != a[j].courseId
        {
          if i > 0 {
            assert a[i] == a[1..][i - 1] && a[j] == a[1..][j - 1];
          }
        }
      } else {
        SubsequenceKeepsOnePerPair(a, b[1..]);
      }
    }
  }

  /** A successful signup keeps e-mails unique, since it checks the new address first. */
  lemma AppendKeepsEmailsUnique(users: seq<User>, u: User)
    requires EmailsUnique(users)
    requires IndexOfEmail(users, u.email).None?
    ensures EmailsUnique(users + [u])
  {
    var s := users + [u];
    forall i, j | 0 <= i < j < |s| ensures s[i].email != s[j].email {
      if j == |users| {
        var p := (v: User) => v.email == u.email;
        assert !p(users[i]);
      }
    }
  }

  /**
   * `updateUserProfile` does not check the e-mail it writes, so it can break
   * the uniqueness that `signup` maintains.
   */
  lemma UpdateCanDuplicateEmail()
    ensures exists users: seq<User>, up: UserUpdates ::
      |users| == 2 && EmailsUnique(users) && !EmailsUnique(users[1 := MergeUser(users[1], up)])
  {
    var a := User("a", "A", "a@x", Student, None, None, None, None, false, 0);
    var b := a.(id := "b", email := "b@x");
    var up := NoUserUpdates.(email := Some("a@x"));
    var users := [a, b];
    var after := users[1 := MergeUser(users[1], up)];
    assert after[0].email == after[1].email;
    assert EmailsUnique(users);
    assert !EmailsUnique(after);
  }

  // ------------------------------------------------------------ specifications of the calls

  /** The first user with this e-mail, if any. */
  ghost predicate FirstWithEmail(users: seq<User>, email: string, i: int) {
    0 <= i < |users| && users[i].email == email
    && forall j :: 0 <= j < i ==> users[j].email != email
  }

  /** `login`: the password is never consulted. */
  function Login(users: seq<User>, email: string): (r: Result<AuthPayload, ApiError>)
    ensures r.Success? <==> exists i :: FirstWithEmail(users, email, i) && !users[i].isBlocked
    ensures r.Success? ==> exists i :: FirstWithEmail(users, email, i) && r.value.user == users[i]
    ensures r.Success? ==> !r.value.user.isBlocked && r.value.token == TokenFor(r.value.user.id)
    ensures r.Failure? ==> r.error == InvalidCredentials
  {
    match IndexOfEmail(users, email)
    case Some(i) =>
      if !users[i].isBlocked then Success(AuthPayload(users[i], TokenFor(users[i].id)))
      else Failure(InvalidCredentials)
    case None => Failure(InvalidCredentials)
  }

  /** With unique e-mails, a blocked user's address never logs in, whatever the password. */
  lemma BlockedUserCannotLogin(users: seq<User>, k: nat)
    requires EmailsUnique(users) && k < |users| && users[k].isBlocked
    ensures Login(users, users[k].email) == Failure(InvalidCredentials)
  {
    forall i | FirstWithEmail(users, users[k].email, i) ensures users[i].isBlocked {
      assert k >= i;
      assert i == k;
    }
  }

  /** The user `signup` creates: a fresh, unblocked student. */
  function NewStudent(name: string, email: string, idStamp: nat, now: int): User {
    User("student-" + Text.NatToString(idStamp), name, email, Student, None, None, None, None, false, now)
  }

  /** `signup`'s answer: fails exactly when the e-mail (compared exactly) is already taken. */
  function SignupResult(users: seq<User>, name: string, email: string, idStamp: nat, now: int)
    : (r: Result<AuthPayload, ApiError>)
    ensures r.Failure? <==> exists k :: 0 <= k < |users| && users[k].email == email
    ensures r.Failure? ==> r.error == DuplicateEmail
    ensures r.Success? ==> r.value.user.name == name && r.value.user.email == email
    ensures r.Success? ==> r.value.user.role == Student && !r.value.user.isBlocked
    ensures r.Success? ==> r.value.token == TokenFor(r.value.user.id)
  {
    if IndexOfEmail(users, email).Some? then Failure(DuplicateEmail)
    else
      var u := NewStudent(name, email, idStamp, now);
      Success(AuthPayload(u, TokenFor(u.id)))
  }

  /** The users array after a signup: one record appended on success. */
  function UsersAfterSignup(users: seq<User>, r: Result<AuthPayload, ApiError>): seq<User> {
    if r.Success? then users + [r.value.user] else users
  }

  /** Signing up twice with one e-mail: the second call fails and the address is held by one user. */
  lemma SecondSignupFails(users: seq<User>, n1: string, n2: string, email: string, s1: nat, s2: nat, t1: int, t2: int)
    requires EmailsUnique(users)
    requires SignupResult(users, n1, email, s1, t1).Success?
    ensures var users1 := UsersAfterSignup(users, SignupResult(users, n1, email, s1, t1));
      && SignupResult(users1, n2, email, s2, t2) == Failure(DuplicateEmail)
      && EmailsUnique(users1)
      && |users1| == |users| + 1
  {
    var r := SignupResult(users, n1, email, s1, t1);
    var users1 := users + [r.value.user];
    assert users1[|users|].email == email;
    AppendKeepsEmailsUnique(users, r.value.user);
  }

  /** The record `addFeedback` creates, with the current student and course names copied in. */
  function NewFeedback(student: User, course: Course, rating: int, message: string, idStamp: nat, now: int)
    : Feedback
  {
    Feedback("fb-" + Text.NatToString(idStamp), student.id, student.name, course.id, course.name,
             rating, message, now)
  }

  /** `addFeedback`'s answer. */
  function AddFeedbackResult(users: seq<User>, courses: seq<Course>, feedback: seq<Feedback>,
                             studentId: string, courseId: string, rating: int, message: string,
                             idStamp: nat, now: int): (r: Result<Feedback, ApiError>)
    ensures r == Failure(InvalidStudentOrCourse) <==>
      (forall k :: 0 <= k < |users| ==> users[k].id != studentId)
      || (forall k :: 0 <= k < |courses| ==> courses[k].id != courseId)
    ensures r == Failure(DuplicateFeedback) <==>
      (exists k :: 0 <= k < |users| && users[k].id == studentId)
      && (exists k :: 0 <= k < |courses| && courses[k].id == courseId)
      && (exists k :: 0 <= k < |feedback| && feedback[k].studentId == studentId && feedback[k].courseId == courseId)
    ensures r.Success? ==>
      && r.value.studentId == studentId && r.value.courseId == courseId
      && r.value.rating == rating && r.value.message == message
      && r.value.studentName == users[IndexOfUser(users, studentId).value].name
      && r.value.courseName == courses[IndexOfCourse(courses, courseId).value].name
      && IndexOfPair(feedback, studentId, courseId).None?
  {
    var si := IndexOfUser(users, studentId);
    var ci := IndexOfCourse(courses, courseId);
    if si.None? || ci.None? then Failure(InvalidStudentOrCourse)
    else if IndexOfPair(feedback, studentId, courseId).Some? then Failure(DuplicateFeedback)
    else Success(NewFeedback(users[si.value], courses[ci.value], rating, message, idStamp, now))
  }

  /** Reviewing the same course twice: after a successful review, the same pair is refused. */
  lemma SecondReviewFails(users: seq<User>, courses: seq<Course>, feedback: seq<Feedback>,
                          studentId: string, courseId: string, r1: int, m1: string, r2: int, m2: string,
                          s1: nat, s2: nat, t1: int, t2: int)
    requires AddFeedbackResult(users, courses, feedback, studentId, courseId, r1, m1, s1, t1).Success?
    ensures var f := AddFeedbackResult(users, courses, feedback, studentId, courseId, r1, m1, s1, t1).value;
      AddFeedbackResult(users, courses, feedback + [f], studentId, courseId, r2, m2, s2, t2)
        == Failure(DuplicateFeedback)
  {
    var f := AddFeedbackResult(users, courses, feedback, studentId, courseId, r1, m1, s1, t1).value;
    assert (feedback + [f])[|feedback|] == f;
  }

  // ------------------------------------------------------------ seed data

  const SeedUsers: seq<User> := [
    User("admin-001", "Admin User", "admin@example.com", Admin, None, None, None, None, false, 1672567200000),
    User("admin-002", "Super Admin", "super.admin@example.com", Admin, None, None, None, None, false, 1673773200000),
    User("student-001", "Student User", "student@example.com", Student, Some("123-456-7890"),
         Some("2002-05-15T00:00:00.000Z"), Some("123 University Ave, Learnville"), None, false, 1676026800000),
    User("student-002", "Jane Doe", "jane.doe@example.com", Student, None, None, None, None, true, 1679313600000)
  ]

  /** The seeded courses as written, before their load-time stamp is applied. */
  const SeedCourseData: seq<Course> := [
    Course("course-101", "Introduction to React", "Learn the fundamentals of React and build modern web applications.",
           Some("https://www.youtube.com/watch?v=SqcY0GlETPk"), 0),
    Course("course-102", "Advanced CSS", "Master advanced CSS techniques like Flexbox, Grid, and animations.",
           None, 0),
    Course("course-201", "Node.js for Beginners", "An introduction to backend development with Node.js and Express.",
           Some("https://www.youtube.com/watch?v=f2EqECiTBL8"), 0),
    Course("course-301", "Mastering Python", "From basics to advanced concepts, become a Python pro.", None, 0),
    Course("course-302", "Data Science with Pandas", "Learn to manipulate and analyze data effectively using the Pandas library.",
           None, 0),
    Course("course-401", "UI/UX Design Fundamentals", "Discover the principles of user-centered design and create beautiful interfaces.",
           Some("https://www.youtube.com/watch?v=cKZEgt61w_o"), 0),
    Course("course-402", "Agile Project Management", "Learn the Scrum and Kanban frameworks for effective project delivery.",
           None, 0),
    Course("course-501", "Database Systems & SQL", "An in-depth look at relational databases and the SQL language.",
           None, 0)
  ]

  /** The seeded courses; their `createdAt` is the time the module is loaded. */
  function SeedCourses(loadTime: int): seq<Course> {
    seq(|SeedCourseData|, k requires 0 <= k < |SeedCourseData| => SeedCourseData[k].(createdAt := loadTime))
  }

  const SeedFeedback: seq<Feedback> := [
    Feedback("fb-001", "student-001", "Student User", "course-101", "Introduction to React", 5,
             "Excellent course! The instructor was clear and the projects were very helpful.", 1696154400000),
    Feedback("fb-002", "student-001", "Student User", "course-102", "Advanced CSS", 4,
             "Good content, but could use more real-world examples.", 1696514400000),
    Feedback("fb-003", "student-002", "Jane Doe", "course-101", "Introduction to React", 3,
             "It was okay. A bit fast-paced for me.", 1696269600000)
  ]

  /** The seed data already satisfies both uniqueness rules. */
  lemma SeedIsConsistent()
    ensures OnePerPair(SeedFeedback)
    ensures EmailsUnique(SeedUsers)
  {
  }

  // ------------------------------------------------------------ the store

  class Store {
    var users: seq<User>
    var courses: seq<Course>
    var feedback: seq<Feedback>

    /** The store's invariant: at most one feedback per (student, course). */
    ghost predicate Valid()
      reads this
    {
      OnePerPair(feedback)
    }

    /** The module's initial arrays. */
    constructor (loadTime: int)
      ensures users == SeedUsers && courses == SeedCourses(loadTime) && feedback == SeedFeedback
      ensures Valid()
    {
      users := SeedUsers;
      courses := SeedCourses(loadTime);
      feedback := SeedFeedback;
      SeedIsConsistent();
    }

    // -------------------------------------------------------- reads

    /** `getUserById`: the first user with this id, or null. */
    function GetUserById(id: string): (r: Option<User>)
      reads this
      ensures r.Some? ==> r.value.id == id && r.value in users
      ensures r.Some? ==> exists i :: 0 <= i < |users| && users[i] == r.value && forall j :: 0 <= j < i ==> users[j].id != id
      ensures r.None? <==> forall k :: 0 <= k < |users| ==> users[k].id != id
    {
      match IndexOfUser(users, id)
      case Some(i) => Some(users[i])
      case None => None
    }

    /** `getCourseById`: the first course with this id, or null. */
    function GetCourseById(id: string): (r: Option<Course>)
      reads this
      ensures r.Some? ==> r.value.id == id && r.value in courses
      ensures r.Some? ==> exists i :: 0 <= i < |courses| && courses[i] == r.value && forall j :: 0 <= j < i ==> courses[j].id != id
      ensures r.None? <==> forall k :: 0 <= k < |courses| ==> courses[k].id != id
    {
      match IndexOfCourse(courses, id)
      case Some(i) => Some(courses[i])
      case None => None
    }

    /** `getUsers`: a copy of the whole array; every user listed can be fetched by id. */
    function GetUsers(): (r: seq<User>)
      reads this
      ensures r == users
      ensures |r| == |users|
      ensures forall k :: 0 <= k < |r| ==> GetUserById(r[k].id).Some?
    {
      users
    }

    /** `getCourses`: a copy of the whole array; every course listed can be fetched by id. */
    function GetCourses(): (r: seq<Course>)
      reads this
      ensures r == courses
      ensures |r| == |courses|
      ensures forall k :: 0 <= k < |r| ==> GetCourseById(r[k].id).Some?
    {
      courses
    }

    /**
     * `getFeedback`: a copy of the whole array; it holds at most one record per
     * student and course, and each record is among its student's.
     */
    function GetFeedback(): (r: seq<Feedback>)
      reads this
      ensures r == feedback
      ensures |r| == |feedback|
      ensures Valid() ==> OnePerPair(r)
      ensures forall k :: 0 <= k < |r| ==> r[k] in GetFeedbackForStudent(r[k].studentId)
    {
      feedback
    }

    /** `getFeedbackForStudent`: that student's records, in store order. */
    function GetFeedbackForStudent(studentId: string): (r: seq<Feedback>)
      reads this
      ensures forall f :: f in r <==> f in feedback && f.studentId == studentId
      ensures Seqs.IsSubsequence(r, feedback)
      ensures forall f: Feedback :: f.studentId == studentId ==> multiset(r)[f] == multiset(feedback)[f]
    {
      var r := FeedbackOfStudent(feedback, studentId);
      forall f: Feedback | f.studentId == studentId ensures multiset(r)[f] == multiset(feedback)[f] {
        Seqs.FilterMultiplicity(feedback, (g: Feedback) => g.studentId == studentId, f);
      }
      r
    }

    // -------------------------------------------------------- auth

    /** `signup`: refuses a taken e-mail, else appends a new unblocked student. */
    method Signup(name: string, email: string, idStamp: nat, now: int)
      returns (r: Result<AuthPayload, ApiError>)
      requires Valid()
      modifies this
      ensures Valid()
      ensures r == SignupResult(old(users), name, email, idStamp, now)
      ensures users == UsersAfterSignup(old(users), r)
      ensures courses == old(courses) && feedback == old(feedback)
      ensures old(EmailsUnique(users)) ==> EmailsUnique(users)
    {
      if IndexOfEmail(users, email).Some? {
        return Failure(DuplicateEmail);
      }
      var u := NewStudent(name, email, idStamp, now);
      if EmailsUnique(users) {
        AppendKeepsEmailsUnique(users, u);
      }
      users := users + [u];
      r := Success(AuthPayload(u, TokenFor(u.id)));
    }

    // -------------------------------------------------------- users

    /** `updateUserProfile`: merges the updates into the first user with this id. */
    method UpdateUserProfile(id: string, updates: UserUpdates) returns (r: Result<User, ApiError>)
      requires Valid()
      modifies this
      ensures Valid()
      ensures courses == old(courses) && feedback == old(feedback)
      ensures IndexOfUser(old(users), id).None? ==> r == Failure(UserNotFound) && users == old(users)
      ensures IndexOfUser(old(users), id).Some? ==>
        var i := IndexOfUser(old(users), id).value;
        && users == old(users)[i := MergeUser(old(users)[i], updates)]
        && r == Success(users[i])
    {
      var idx := IndexOfUser(users, id);
      if idx.None? {
        return Failure(UserNotFound);
      }
      var i := idx.value;
      users := users[i := MergeUser(users[i], updates)];
      r := Success(users[i]);
    }

    /** `deleteUser`: drops every user with this id; the user's feedback stays. */
    method DeleteUser(id: string)
      requires Valid()
      modifies this
      ensures Valid()
      ensures users == UsersWithoutId(old(users), id)
      ensures courses == old(courses) && feedback == old(feedback)
    {
      users := UsersWithoutId(users, id);
    }

    // -------------------------------------------------------- courses

    /** `addCourse`: appends the course with a fresh id and timestamp. */
    method AddCourse(name: string, description: string, videoUrl: Option<string>, idStamp: nat, now: int)
      returns (c: Course)
      requires Valid()
      modifies this
      ensures Valid()
      ensures c == Course("course-" + Text.NatToString(idStamp), name, description, videoUrl, now)
      ensures courses == old(courses) + [c]
      ensures users == old(users) && feedback == old(feedback)
    {
      c := Course("course-" + Text.NatToString(idStamp), name, description, videoUrl, now);
      courses := courses + [c];
    }

    /** `updateCourse`: merges the updates into the first course with this id. */
    method UpdateCourse(id: string, updates: CourseUpdates) returns (r: Result<Course, ApiError>)
      requires Valid()
      modifies this
      ensures Valid()
      ensures users == old(users) && feedback == old(feedback)
      ensures IndexOfCourse(old(courses), id).None? ==> r == Failure(CourseNotFound) && courses == old(courses)
      ensures IndexOfCourse(old(courses), id).Some? ==>
        var i := IndexOfCourse(old(courses), id).value;
        && courses == old(courses)[i := MergeCourse(old(courses)[i], updates)]
        && r == Success(courses[i])
    {
      var idx := IndexOfCourse(courses, id);
      if idx.None? {
        return Failure(CourseNotFound);
      }
      var i := idx.value;
      courses := courses[i := MergeCourse(courses[i], updates)];
      r := Success(courses[i]);
    }

    /** `deleteCourse`: drops every course with this id; feedback for it stays. */
    method DeleteCourse(id: string)
      requires Valid()
      modifies this
      ensures Valid()
      ensures courses == CoursesWithoutId(old(courses), id)
      ensures users == old(users) && feedback == old(feedback)
    {
      courses := CoursesWithoutId(courses, id);
    }

    // -------------------------------------------------------- feedback

    /** `addFeedback`: checks the references and the pair, then appends the new record. */
    method AddFeedback(studentId: string, courseId: string, rating: int, message: string, idStamp: nat, now: int)
      returns (r: Result<Feedback, ApiError>)
      requires Valid()
      modifies this
      ensures Valid()
      ensures r == AddFeedbackResult(old(users), old(courses), old(feedback), studentId, courseId,
                                     rating, message, idStamp, now)
      ensures feedback == if r.Success? then old(feedback) + [r.value] else old(feedback)
      ensures users == old(users) && courses == old(courses)
    {
      var si := IndexOfUser(users, studentId);
      var ci := IndexOfCourse(courses, courseId);
      if si.None? || ci.None? {
        return Failure(InvalidStudentOrCourse);
      }
      if IndexOfPair(feedback, studentId, courseId).Some? {
        return Failure(DuplicateFeedback);
      }
      var f := NewFeedback(users[si.value], courses[ci.value], rating, message, idStamp, now);
      AppendKeepsOnePerPair(feedback, f);
      feedback := feedback + [f];
      r := Success(f);
    }

    /** `updateFeedback`: only the rating and the message of the first record with this id change. */
    method UpdateFeedback(id: string, updates: FeedbackUpdates) returns (r: Result<Feedback, ApiError>)
      requires Valid()
      modifies this
      ensures Valid()
      ensures users == old(users) && courses == old(courses)
      ensures IndexOfFeedback(old(feedback), id).None? ==> r == Failure(FeedbackNotFound) && feedback == old(feedback)
      ensures IndexOfFeedback(old(feedback), id).Some? ==>
        var i := IndexOfFeedback(old(feedback), id).value;
        && feedback == old(feedback)[i := MergeFeedback(old(feedback)[i], updates)]
        && r == Success(feedback[i])
    {
      var idx := IndexOfFeedback(feedback, id);
      if idx.None? {
        return Failure(FeedbackNotFound);
      }
      var i := idx.value;
      RetouchKeepsOnePerPair(feedback, i, updates);
      feedback := feedback[i := MergeFeedback(feedback[i], updates)];
      r := Success(feedback[i]);
    }

    /** `deleteFeedback`: drops every record with this id. */
    method DeleteFeedback(id: string)
      requires Valid()
      modifies this
      ensures Valid()
      ensures feedback == FeedbackWithoutId(old(feedback), id)
      ensures users == old(users) && courses == old(courses)
    {
      SubsequenceKeepsOnePerPair(FeedbackWithoutId(feedback, id), feedback);
      feedback := FeedbackWithoutId(feedback, id);
    }
  }

  /** Deleting removes exactly the records with that id, keeps the rest in order, and is a no-op for an absent id. */
  lemma DeleteUserRemovesExactly(users: seq<User>, id: string)
    ensures forall u :: u in UsersWithoutId(users, id) <==> u in users && u.id != id
    ensures Seqs.IsSubsequence(UsersWithoutId(users, id), users)
    ensures forall u: User :: u.id != id ==> multiset(UsersWithoutId(users, id))[u] == multiset(users)[u]
    ensures (forall k :: 0 <= k < |users| ==> users[k].id != id) ==> UsersWithoutId(users, id) == users
  {
    var p := (u: User) => u.id != id;
    forall u: User | u.id != id ensures multiset(UsersWithoutId(users, id))[u] == multiset(users)[u] {
      Seqs.FilterMultiplicity(users, p, u);
    }
    if forall k :: 0 <= k < |users| ==> users[k].id != id {
      Seqs.FilterKeepsAll(users, p);
    }
  }

  lemma DeleteCourseRemovesExactly(courses: seq<Course>, id: string)
    ensures forall c :: c in CoursesWithoutId(courses, id) <==> c in courses && c.id != id
    ensures Seqs.IsSubsequence(CoursesWithoutId(courses, id), courses)
    ensures forall c: Course :: c.id != id ==> multiset(CoursesWithoutId(courses, id))[c] == multiset(courses)[c]
    ensures (forall k :: 0 <= k < |courses| ==> courses[k].id != id) ==> CoursesWithoutId(courses, id) == courses
  {
    var p := (c: Course) => c.id != id;
    forall c: Course | c.id != id ensures multiset(CoursesWithoutId(courses, id))[c] == multiset(courses)[c] {
      Seqs.FilterMultiplicity(courses, p, c);
    }
    if forall k :: 0 <= k < |courses| ==> courses[k].id != id {
      Seqs.FilterKeepsAll(courses, p);
    }
  }

  lemma DeleteFeedbackRemovesExactly(feedback: seq<Feedback>, id: string)
    ensures forall f :: f in FeedbackWithoutId(feedback, id) <==> f in feedback && f.id != id
    ensures Seqs.IsSubsequence(FeedbackWithoutId(feedback, id), feedback)
    ensures forall f: Feedback :: f.id != id ==> multiset(FeedbackWithoutId(feedback, id))[f] == multiset(feedback)[f]
    ensures (forall k :: 0 <= k < |feedback| ==> feedback[k].id != id) ==> FeedbackWithoutId(feedback, id) == feedback
  {
    var p := (f: Feedback) => f.id != id;
    forall f: Feedback | f.id != id ensures multiset(FeedbackWithoutId(feedback, id))[f] == multiset(feedback)[f] {
      Seqs.FilterMultiplicity(feedback, p, f);
    }
    if forall k :: 0 <= k < |feedback| ==> feedback[k].id != id {
      Seqs.FilterKeepsAll(feedback, p);
    }
  }
}
