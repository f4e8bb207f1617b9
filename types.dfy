/**
 * The application's records (types.ts) and the partial updates that
 * `{ ...record, ...updates }` merges into them.
 *
 * Timestamps (`createdAt`) are milliseconds since the epoch, so "newest first"
 * is an integer comparison; `dateOfBirth` stays the ISO string the source stores.
 */
module Types {
  import opened Wrappers

  datatype Role = Student | Admin

  /** The string values of the `Role` enum. */
  function RoleValue(r: Role): string {
    match r
    case Student => "student"
    case Admin => "admin"
  }

  datatype User = User(
    id: string,
    name: string,
    email: string,
    role: Role,
    phoneNumber: Option<string>,
    dateOfBirth: Option<string>,
    address: Option<string>,
    profilePictureUrl: Option<string>,
    isBlocked: bool,
    createdAt: int)

  datatype Course = Course(
    id: string,
    name: string,
    description: string,
    videoUrl: Option<string>,
    createdAt: int)

  datatype Feedback = Feedback(
    id: string,
    studentId: string,
    studentName: string,
    courseId: string,
    courseName: string,
    rating: int,
    message: string,
    createdAt: int)

  /**
   * The sort keys of `new Date(b.createdAt).getTime() - new Date(a.createdAt).getTime()`,
   * used by every newest-first list.
   */
  function UserCreatedAt(u: User): int { u.createdAt }
  function FeedbackCreatedAt(f: Feedback): int { f.createdAt }

  /**
   * `Partial<User>`: `None` means the key is absent. For the optional fields a
   * key may also be present with the value `undefined`, written `Some(None)`.
   */
  datatype UserUpdates = UserUpdates(
    id: Option<string>,
    name: Option<string>,
    email: Option<string>,
    role: Option<Role>,
    phoneNumber: Option<Option<string>>,
    dateOfBirth: Option<Option<string>>,
    address: Option<Option<string>>,
    profilePictureUrl: Option<Option<string>>,
    isBlocked: Option<bool>,
    createdAt: Option<int>)

  /** `Partial<Course>`. */
  datatype CourseUpdates = CourseUpdates(
    id: Option<string>,
    name: Option<string>,
    description: Option<string>,
    videoUrl: Option<Option<string>>,
    createdAt: Option<int>)

  /** The updates `updateFeedback` accepts: only `rating` and `message`. */
  datatype FeedbackUpdates = FeedbackUpdates(rating: Option<int>, message: Option<string>)

  const NoUserUpdates := UserUpdates(None, None, None, None, None, None, None, None, None, None)
  const NoCourseUpdates := CourseUpdates(None, None, None, None, None)

  /** `{ ...u, ...up }`. */
  function MergeUser(u: User, up: UserUpdates): User {
    User(
      up.id.GetOr(u.id), up.name.GetOr(u.name), up.email.GetOr(u.email), up.role.GetOr(u.role),
      up.phoneNumber.GetOr(u.phoneNumber), up.dateOfBirth.GetOr(u.dateOfBirth),
      up.address.GetOr(u.address), up.profilePictureUrl.GetOr(u.profilePictureUrl),
      up.isBlocked.GetOr(u.isBlocked), up.createdAt.GetOr(u.createdAt))
  }

  /** `{ ...c, ...up }`. */
  function MergeCourse(c: Course, up: CourseUpdates): Course {
    Course(up.id.GetOr(c.id), up.name.GetOr(c.name), up.description.GetOr(c.description),
           up.videoUrl.GetOr(c.videoUrl), up.createdAt.GetOr(c.createdAt))
  }

  /** `{ ...f, ...up }`: only the rating and the message can change. */
  function MergeFeedback(f: Feedback, up: FeedbackUpdates): (r: Feedback)
    ensures r.id == f.id && r.studentId == f.studentId && r.studentName == f.studentName
    ensures r.courseId == f.courseId && r.courseName == f.courseName && r.createdAt == f.createdAt
    ensures r.rating == (if up.rating.Some? then up.rating.value else f.rating)
    ensures r.message == (if up.message.Some? then up.message.value else f.message)
  {
    f.(rating := up.rating.GetOr(f.rating), message := up.message.GetOr(f.message))
  }

  /** Spreading two updates one after the other: later keys win. */
  function CombineUserUpdates(a: UserUpdates, b: UserUpdates): UserUpdates {
    UserUpdates(
      if b.id.Some? then b.id else a.id,
      if b.name.Some? then b.name else a.name,
      if b.email.Some? then b.email else a.email,
      if b.role.Some? then b.role else a.role,
      if b.phoneNumber.Some? then b.phoneNumber else a.phoneNumber,
      if b.dateOfBirth.Some? then b.dateOfBirth else a.dateOfBirth,
      if b.address.Some? then b.address else a.address,
      if b.profilePictureUrl.Some? then b.profilePictureUrl else a.profilePictureUrl,
      if b.isBlocked.Some? then b.isBlocked else a.isBlocked,
      if b.createdAt.Some? then b.createdAt else a.createdAt)
  }

  /**
   * Properties of the user merge: the empty update changes nothing, merging
   * the same update twice is merging it once, fields the update does not name
   * keep their value, and merging `a` then `b` is merging their combination.
   */
  lemma MergeUserLaws(u: User, a: UserUpdates, b: UserUpdates)
    ensures MergeUser(u, NoUserUpdates) == u
    ensures MergeUser(MergeUser(u, a), a) == MergeUser(u, a)
    ensures a.name.None? ==> MergeUser(u, a).name == u.name
    ensures a.email.None? ==> MergeUser(u, a).email == u.email
    ensures a.isBlocked.None? ==> MergeUser(u, a).isBlocked == u.isBlocked
    ensures a.role.None? ==> MergeUser(u, a).role == u.role
    ensures a.id.None? ==> MergeUser(u, a).id == u.id
    ensures MergeUser(MergeUser(u, a), b) == MergeUser(u, CombineUserUpdates(a, b))
  {
  }

  /** The same laws for courses. */
  lemma MergeCourseLaws(c: Course, a: CourseUpdates)
    ensures MergeCourse(c, NoCourseUpdates) == c
    ensures MergeCourse(MergeCourse(c, a), a) == MergeCourse(c, a)
    ensures a.id.None? ==> MergeCourse(c, a).id == c.id
    ensures a.name.None? ==> MergeCourse(c, a).name == c.name
    ensures a.videoUrl.None? ==> MergeCourse(c, a).videoUrl == c.videoUrl
  {
  }
}
