/**
 * The student's dashboard (pages/student/StudentDashboard.tsx): the stat cards,
 * the courses still waiting for a review, and the course-card images.
 */
module StudentDashboard {
  import opened Wrappers
  import opened Types
  import Text
  import Seqs
  import Sorting
  import MockApi
  import CourseImages

  // ---------------------------------------------------------------- stats

  /** The four cards; `averageRating` is `None` where the page shows 'N/A'. */
  datatype StudentStats = StudentStats(reviewedCount: nat, totalCourses: nat, averageRating: Option<real>, pendingReviews: int)

  /** `feedbackList.reduce((acc, f) => acc + f.rating, 0)`. */
  function RatingSum(feedbackList: seq<Feedback>): int
    decreases |feedbackList|
  {
    if feedbackList == [] then 0 else feedbackList[0].rating + RatingSum(feedbackList[1..])
  }

  /** With ratings from 1 to 5 the sum lies between the count and five times the count. */
  lemma {:induction false} RatingSumBounds(feedbackList: seq<Feedback>)
    requires forall k :: 0 <= k < |feedbackList| ==> 1 <= feedbackList[k].rating <= 5
    ensures |feedbackList| <= RatingSum(feedbackList) <= 5 * |feedbackList|
    decreases |feedbackList|
  {
    if feedbackList != [] {
      RatingSumBounds(feedbackList[1..]);
    }
  }

  /**
   * The `stats` memo: the number of reviews, the number of courses, their
   * difference, and the mean rating, which is missing without any review.
   */
  function StatsOf(feedbackList: seq<Feedback>, courses: seq<Course>): (s: StudentStats)
    ensures s.reviewedCount == |feedbackList| && s.totalCourses == |courses|
    ensures s.pendingReviews == |courses| - |feedbackList|
    ensures s.averageRating.None? <==> feedbackList == []
    ensures s.averageRating.Some? ==>
      s.averageRating.value * (|feedbackList| as real) == RatingSum(feedbackList) as real
  {
    var n := |feedbackList|;
    StudentStats(n, |courses|,
                 if n > 0 then Some(RatingSum(feedbackList) as real / n as real) else None,
                 |courses| - n)
  }

  /** With ratings from 1 to 5 the average shown lies between 1 and 5. */
  lemma AverageWithinStars(feedbackList: seq<Feedback>, courses: seq<Course>)
    requires feedbackList != []
    requires forall k :: 0 <= k < |feedbackList| ==> 1 <= feedbackList[k].rating <= 5
    ensures 1.0 <= StatsOf(feedbackList, courses).averageRating.value <= 5.0
  {
    RatingSumBounds(feedbackList);
    QuotientBounds(RatingSum(feedbackList) as real, |feedbackList| as real);
  }

  /** A total between `n` and `5n`, divided by `n`, lies between 1 and 5. */
  lemma QuotientBounds(total: real, n: real)
    requires n > 0.0 && n <= total <= 5.0 * n
    ensures 1.0 <= total / n <= 5.0
  {
    var q := total / n;
    assert q * n == total;
    assert (q - 1.0) * n == total - n;
    NonNegativeFactor(q - 1.0, n);
    assert (5.0 - q) * n == 5.0 * n - total;
    NonNegativeFactor(5.0 - q, n);
  }

  /** A number whose product with a positive number is not negative is not negative. */
  lemma NonNegativeFactor(x: real, n: real)
    requires n > 0.0 && x * n >= 0.0
    ensures x >= 0.0
  {
  }

  // ---------------------------------------------------------------- available courses

  /** `new Set(feedbackList.map(f => f.courseId))`. */
  function ReviewedIds(feedbackList: seq<Feedback>): set<string> {
    set k | 0 <= k < |feedbackList| :: feedbackList[k].courseId
  }

  /** The test of `courses.filter(c => !reviewedCourseIds.has(c.id))`. */
  function NotReviewed(ids: set<string>): Course -> bool {
    (c: Course) => c.id !in ids
  }

  /** `availableCourses`: the courses no review in the list names, in course order. */
  function AvailableCourses(feedbackList: seq<Feedback>, courses: seq<Course>): (r: seq<Course>)
    ensures forall c :: c in r <==> c in courses && forall k :: 0 <= k < |feedbackList| ==> feedbackList[k].courseId != c.id
    ensures Seqs.IsSubsequence(r, courses)
    ensures forall c: Course :: (forall k :: 0 <= k < |feedbackList| ==> feedbackList[k].courseId != c.id) ==>
      multiset(r)[c] == multiset(courses)[c]
  {
    var ids := ReviewedIds(feedbackList);
    assert forall c: Course :: c.id in ids <==> exists k :: 0 <= k < |feedbackList| && feedbackList[k].courseId == c.id;
    var r := Seqs.Filter(courses, NotReviewed(ids));
    forall c: Course | forall k :: 0 <= k < |feedbackList| ==> feedbackList[k].courseId != c.id
      ensures multiset(r)[c] == multiset(courses)[c]
    {
      Seqs.FilterMultiplicity(courses, NotReviewed(ids), c);
    }
    r
  }

  /** A student who has reviewed nothing sees every course. */
  lemma NothingReviewedAllAvailable(courses: seq<Course>)
    ensures AvailableCourses([], courses) == courses
  {
    Seqs.FilterKeepsAll(courses, NotReviewed(ReviewedIds([])));
  }

  /** Every course id is distinct. */
  predicate DistinctCourseIds(courses: seq<Course>) {
    forall i, j :: 0 <= i < j < |courses| ==> courses[i].id != courses[j].id
  }

  /** No two reviews in the list name the same course. */
  predicate OneReviewPerCourse(feedbackList: seq<Feedback>) {
    forall i, j :: 0 <= i < j < |feedbackList| ==> feedbackList[i].courseId != feedbackList[j].courseId
  }

  /** One review per course means as many reviewed ids as reviews. */
  lemma {:induction false} ReviewedIdsCount(feedbackList: seq<Feedback>)
    requires OneReviewPerCourse(feedbackList)
    ensures |ReviewedIds(feedbackList)| == |feedbackList|
    decreases |feedbackList|
  {
    if feedbackList != [] {
      var rest := feedbackList[1..];
      ReviewedIdsCount(rest);
      assert ReviewedIds(feedbackList) == {feedbackList[0].courseId} + ReviewedIds(rest) by {
        forall id ensures id in ReviewedIds(feedbackList) <==> id == feedbackList[0].courseId || id in ReviewedIds(rest) {
          if id in ReviewedIds(feedbackList) && id != feedbackList[0].courseId {
            var k :| 0 <= k < |feedbackList| && feedbackList[k].courseId == id;
            assert rest[k - 1].courseId == id;
          }
          if id in ReviewedIds(rest) {
            var k :| 0 <= k < |rest| && rest[k].courseId == id;
            assert feedbackList[k + 1].courseId == id;
          }
        }
      }
      assert feedbackList[0].courseId !in ReviewedIds(rest);
    }
  }

  /** The ids of the courses in a list. */
  function IdsOf(courses: seq<Course>): set<string> {
    set k | 0 <= k < |courses| :: courses[k].id
  }

  /** Filtering out a set of existing, distinct course ids removes exactly that many courses. */
  lemma {:induction false} AvailableCount(courses: seq<Course>, ids: set<string>)
    requires DistinctCourseIds(courses)
    requires ids <= IdsOf(courses)
    ensures |Seqs.Filter(courses, NotReviewed(ids))| == |courses| - |ids|
    decreases |courses|
  {
    if courses == [] {
      assert ids == {};
    } else {
      var c := courses[0];
      var rest := courses[1..];
      assert DistinctCourseIds(rest);
      assert c.id !in IdsOf(rest);
      assert IdsOf(courses) == {c.id} + IdsOf(rest) by {
        forall id | id in IdsOf(courses) ensures id == c.id || id in IdsOf(rest) {
          var k :| 0 <= k < |courses| && courses[k].id == id;
          if k > 0 { assert rest[k - 1].id == id; }
        }
        forall id | id in IdsOf(rest) ensures id in IdsOf(courses) {
          var k :| 0 <= k < |rest| && rest[k].id == id;
          assert courses[k + 1].id == id;
        }
      }
      if c.id in ids {
        var smaller := ids - {c.id};
        AvailableCount(rest, smaller);
        assert forall k :: 0 <= k < |rest| ==> rest[k].id in IdsOf(rest);
        Seqs.FilterSameOn(rest, NotReviewed(ids), NotReviewed(smaller));
      } else {
        AvailableCount(rest, ids);
      }
    }
  }

  /**
   * When every reviewed course still exists, course ids are distinct and each
   * course is reviewed at most once, the pending count is exactly the number of
   * available courses. Courses deleted after being reviewed break this: the
   * store does not delete their reviews, so the count can fall below zero.
   */
  lemma PendingIsAvailableCount(feedbackList: seq<Feedback>, courses: seq<Course>)
    requires DistinctCourseIds(courses)
    requires OneReviewPerCourse(feedbackList)
    requires forall k :: 0 <= k < |feedbackList| ==> feedbackList[k].courseId in IdsOf(courses)
    ensures StatsOf(feedbackList, courses).pendingReviews == |AvailableCourses(feedbackList, courses)|
  {
    ReviewedIdsCount(feedbackList);
    AvailableCount(courses, ReviewedIds(feedbackList));
  }

  /** One student's records in a store that keeps one review per pair name each course once. */
  lemma {:induction false} StudentReviewsOnePerCourse(feedback: seq<Feedback>, studentId: string)
    requires MockApi.OnePerPair(feedback)
    ensures OneReviewPerCourse(MockApi.FeedbackOfStudent(feedback, studentId))
    decreases |feedback|
  {
    if feedback != [] {
      var rest := feedback[1..];
      assert MockApi.OnePerPair(rest) by {
        forall i, j | 0 <= i < j < |rest|
          ensures rest[i].studentId != rest[j].studentId || rest[i].courseId != rest[j].courseId
        {
          assert rest[i] == feedback[i + 1] && rest[j] == feedback[j + 1];
        }
      }
      StudentReviewsOnePerCourse(rest, studentId);
      var tail := MockApi.FeedbackOfStudent(rest, studentId);
      var f := feedback[0];
      if f.studentId == studentId {
        forall g | g in tail ensures g.courseId != f.courseId {
          var k :| 0 <= k < |rest| && rest[k] == g;
          assert feedback[k + 1] == g;
        }
        var mine := [f] + tail;
        forall i, j | 0 <= i < j < |mine| ensures mine[i].courseId != mine[j].courseId {
          if i > 0 {
            assert mine[i] == tail[i - 1] && mine[j] == tail[j - 1];
          } else {
            assert mine[j] in tail;
          }
        }
      }
    }
  }

  // ---------------------------------------------------------------- images

  /** The dashboard's six rules, in the order they are tried. */
  const DashboardRules: seq<CourseImages.Rule> := [
    CourseImages.Rule("react", "react,javascript,web,ui"),
    CourseImages.Rule("css", "css,web design,stylesheet,layout"),
    CourseImages.Rule("node.js", "nodejs,backend,server,javascript"),
    CourseImages.Rule("web", "web,development,html,internet"),
    CourseImages.Rule("database", "database,sql,server,data"),
    CourseImages.Rule("python", "python,programming,data science")
  ]

  /** The filler phrases the dashboard strips from a course name. */
  const DashboardPhrases: seq<string> := ["introduction to", "for beginners", "advanced"]

  lemma DashboardPhrasesNonEmpty()
    ensures Text.NonEmptyPhrases(DashboardPhrases)
  {
  }

  /** `getKeywordsForCourse` of the dashboard: the image address for a course card. */
  function ImageFor(courseName: string): (url: string)
    ensures Text.IsPrefix(CourseImages.UrlBase, url)
  {
    DashboardPhrasesNonEmpty();
    CourseImages.ImageUrl(CourseImages.Keywords(courseName, DashboardRules),
                          CourseImages.SpecificKeywords(courseName, DashboardPhrases))
  }

  /** The address's tags: the chosen rule's keywords, then the stripped course name. */
  lemma ImageForTags(courseName: string)
    ensures Text.NonEmptyPhrases(DashboardPhrases)
    ensures Text.Split(CourseImages.Query(ImageFor(courseName)), ',') ==
      Text.Split(CourseImages.Keywords(courseName, DashboardRules), ',') +
      Text.Split(CourseImages.SpecificKeywords(courseName, DashboardPhrases), ',')
  {
    DashboardPhrasesNonEmpty();
    CourseImages.ImageUrlTags(CourseImages.Keywords(courseName, DashboardRules),
                              CourseImages.SpecificKeywords(courseName, DashboardPhrases));
  }

  // ---------------------------------------------------------------- the page

  /** The page's own state. */
  class DashboardPage {
    var feedbackList: seq<Feedback>
    var courses: seq<Course>
    var loading: bool

    constructor ()
      ensures feedbackList == [] && courses == [] && loading
    {
      feedbackList := [];
      courses := [];
      loading := true;
    }

    /**
     * `fetchStudentData`: without a user nothing happens; otherwise the list
     * is the student's own reviews newest first, the courses are the whole
     * catalogue, and the page stops loading.
     */
    method FetchStudentData(user: Option<User>, api: MockApi.Store)
      modifies this
      ensures user.None? ==> unchanged(this)
      ensures user.Some? ==>
        && feedbackList == Sorting.SortDesc(api.GetFeedbackForStudent(user.value.id), FeedbackCreatedAt)
        && courses == api.courses
        && !loading
    {
      if user.None? {
        return;
      }
      loading := true;
      var mine := api.GetFeedbackForStudent(user.value.id);
      var all := api.GetCourses();
      feedbackList := Sorting.SortDesc(mine, FeedbackCreatedAt);
      courses := all;
      loading := false;
    }

    /** The stat cards for the current state. */
    function Stats(): StudentStats
      reads this
    {
      StatsOf(feedbackList, courses)
    }

    /** The courses offered for review in the current state. */
    function Available(): seq<Course>
      reads this
    {
      AvailableCourses(feedbackList, courses)
    }
  }

  /** After fetching, the review count is the number of the student's records in the store. */
  lemma ReviewedCountAfterFetch(feedback: seq<Feedback>, courses: seq<Course>, studentId: string)
    ensures StatsOf(Sorting.SortDesc(MockApi.FeedbackOfStudent(feedback, studentId), FeedbackCreatedAt), courses).reviewedCount
      == |MockApi.FeedbackOfStudent(feedback, studentId)|
  {
  }

  /** Sorting the list does not change which courses are available. */
  lemma AvailableIgnoresOrder(feedbackList: seq<Feedback>, courses: seq<Course>)
    ensures AvailableCourses(Sorting.SortDesc(feedbackList, FeedbackCreatedAt), courses) == AvailableCourses(feedbackList, courses)
  {
    var sorted := Sorting.SortDesc(feedbackList, FeedbackCreatedAt);
    Sorting.SortDescMembers(feedbackList, FeedbackCreatedAt);
    assert ReviewedIds(sorted) == ReviewedIds(feedbackList) by {
      forall id ensures id in ReviewedIds(sorted) <==> id in ReviewedIds(feedbackList) {
        if id in ReviewedIds(sorted) {
          var k :| 0 <= k < |sorted| && sorted[k].courseId == id;
          assert sorted[k] in feedbackList;
        }
        if id in ReviewedIds(feedbackList) {
          var k :| 0 <= k < |feedbackList| && feedbackList[k].courseId == id;
          assert feedbackList[k] in sorted;
        }
      }
    }
  }
}
