/**
 * The administrator's dashboard (pages/admin/AdminDashboard.tsx): the three
 * counts and the per-course rating chart.
 */
module AdminDashboard {
  import opened Types
  import MockApi

  /** The three stat cards; "Total Students" shows every user, administrators included. */
  datatype Stats = Stats(users: nat, feedback: nat, courses: nat)

  /** One course's running `{ total, count }`. */
  datatype Tally = Tally(total: int, count: nat)

  /** One bar of the chart. */
  datatype ChartEntry = ChartEntry(name: string, averageRating: real)

  // ---------------------------------------------------------------- specification

  /** The sum of the ratings of the records for course `id`. */
  function SumRatings(feedback: seq<Feedback>, id: string): int
    decreases |feedback|
  {
    if feedback == [] then 0
    else
      var last := feedback[|feedback| - 1];
      SumRatings(feedback[..|feedback| - 1], id) + (if last.courseId == id then last.rating else 0)
  }

  /** The number of records for course `id`. */
  function CountRatings(feedback: seq<Feedback>, id: string): (n: nat)
    ensures n <= |feedback|
    decreases |feedback|
  {
    if feedback == [] then 0
    else
      var last := feedback[|feedback| - 1];
      CountRatings(feedback[..|feedback| - 1], id) + (if last.courseId == id then 1 else 0)
  }

  /** A record for another course adds nothing to this course's tally. */
  lemma OtherCourseIgnored(feedback: seq<Feedback>, f: Feedback, id: string)
    requires f.courseId != id
    ensures SumRatings(feedback + [f], id) == SumRatings(feedback, id)
    ensures CountRatings(feedback + [f], id) == CountRatings(feedback, id)
  {
    assert (feedback + [f])[..|feedback|] == feedback;
  }

  /** A course nobody has reviewed has a zero tally. */
  lemma {:induction false} UnreviewedCourse(feedback: seq<Feedback>, id: string)
    requires forall k :: 0 <= k < |feedback| ==> feedback[k].courseId != id
    ensures SumRatings(feedback, id) == 0 && CountRatings(feedback, id) == 0
    decreases |feedback|
  {
    if feedback != [] {
      UnreviewedCourse(feedback[..|feedback| - 1], id);
    }
  }

  /** With ratings from 1 to 5, the total lies between the count and five times the count. */
  lemma {:induction false} TotalWithinBounds(feedback: seq<Feedback>, id: string)
    requires forall k :: 0 <= k < |feedback| ==> 1 <= feedback[k].rating <= 5
    ensures CountRatings(feedback, id) <= SumRatings(feedback, id) <= 5 * CountRatings(feedback, id)
    decreases |feedback|
  {
    if feedback != [] {
      TotalWithinBounds(feedback[..|feedback| - 1], id);
    }
  }

  /** The course ids the tally is keyed by. */
  function CourseIds(courses: seq<Course>): set<string> {
    set k | 0 <= k < |courses| :: courses[k].id
  }

  /** `course.name.length > 15 ? course.name.substring(0, 15) + '...' : course.name`. */
  function Truncate(name: string): (r: string)
    ensures |name| <= 15 ==> r == name
    ensures |name| > 15 ==> |r| == 18 && r[..15] == name[..15] && r[15..] == "..."
  {
    if |name| > 15 then name[..15] + "..." else name
  }

  /** No chart label is longer than 18 characters, and every label starts like the course name. */
  lemma TruncateBounds(name: string)
    ensures |Truncate(name)| <= 18
    ensures var n := if |name| <= 15 then |name| else 15; Truncate(name)[..n] == name[..n]
  {
  }

  /** The average of a tally; a course without ratings shows 0. */
  function Average(t: Tally): (a: real)
    ensures t.count == 0 ==> a == 0.0
    ensures t.count > 0 ==> a * (t.count as real) == t.total as real
  {
    if t.count > 0 then t.total as real / t.count as real else 0.0
  }

  /** The chart the page should draw: one bar per course, in course order. */
  function ChartSpec(courses: seq<Course>, feedback: seq<Feedback>): (chart: seq<ChartEntry>)
    ensures |chart| == |courses|
  {
    seq(|courses|, k requires 0 <= k < |courses| =>
      ChartEntry(Truncate(courses[k].name),
                 Average(Tally(SumRatings(feedback, courses[k].id), CountRatings(feedback, courses[k].id)))))
  }

  /** Each bar's label and value, including the zero bar of an unreviewed course. */
  lemma ChartSpecEntries(courses: seq<Course>, feedback: seq<Feedback>, k: nat)
    requires k < |courses|
    ensures ChartSpec(courses, feedback)[k].name == Truncate(courses[k].name)
    ensures CountRatings(feedback, courses[k].id) == 0 ==> ChartSpec(courses, feedback)[k].averageRating == 0.0
    ensures CountRatings(feedback, courses[k].id) > 0 ==>
      ChartSpec(courses, feedback)[k].averageRating * (CountRatings(feedback, courses[k].id) as real)
        == SumRatings(feedback, courses[k].id) as real
  {
  }

  // ---------------------------------------------------------------- the computation

  /**
   * The two `forEach` loops: every course starts at `{ total: 0, count: 0 }`,
   * then each record whose course is in the table adds its rating and one to
   * the count. Records for unknown courses are skipped.
   */
  method CourseRatings(courses: seq<Course>, feedback: seq<Feedback>) returns (ratings: map<string, Tally>)
    ensures ratings.Keys == CourseIds(courses)
    ensures forall id :: id in ratings ==> ratings[id] == Tally(SumRatings(feedback, id), CountRatings(feedback, id))
  {
    ratings := map[];
    var i := 0;
    while i < |courses|
      invariant 0 <= i <= |courses|
      invariant ratings.Keys == CourseIds(courses[..i])
      invariant forall id :: id in ratings ==> ratings[id] == Tally(0, 0)
    {
      assert CourseIds(courses[..i + 1]) == CourseIds(courses[..i]) + {courses[i].id} by {
        assert forall k :: 0 <= k < i ==> courses[..i + 1][k] == courses[..i][k];
      }
      ratings := ratings[courses[i].id := Tally(0, 0)];
      i := i + 1;
    }
    assert courses[..i] == courses;
    var j := 0;
    while j < |feedback|
      invariant 0 <= j <= |feedback|
      invariant ratings.Keys == CourseIds(courses)
      invariant forall id :: id in ratings ==>
        ratings[id] == Tally(SumRatings(feedback[..j], id), CountRatings(feedback[..j], id))
    {
      var f := feedback[j];
      assert feedback[..j + 1][..j] == feedback[..j];
      if f.courseId in ratings {
        var t := ratings[f.courseId];
        ratings := ratings[f.courseId := Tally(t.total + f.rating, t.count + 1)];
      }
      j := j + 1;
    }
    assert feedback[..j] == feedback;
  }

  /** `courses.map(...)` over the tally table. */
  function ChartData(courses: seq<Course>, ratings: map<string, Tally>): (chart: seq<ChartEntry>)
    requires forall k :: 0 <= k < |courses| ==> courses[k].id in ratings
    ensures |chart| == |courses|
    ensures forall k :: 0 <= k < |courses| ==>
      chart[k] == ChartEntry(Truncate(courses[k].name), Average(ratings[courses[k].id]))
  {
    seq(|courses|, k requires 0 <= k < |courses| => ChartEntry(Truncate(courses[k].name), Average(ratings[courses[k].id])))
  }

  /** The page's state after `fetchData`. */
  class DashboardPage {
    var stats: Stats
    var ratingData: seq<ChartEntry>
    var loading: bool

    constructor ()
      ensures stats == Stats(0, 0, 0) && ratingData == [] && loading
    {
      stats := Stats(0, 0, 0);
      ratingData := [];
      loading := true;
    }

    /** `fetchData`: the counts are the three lengths and the chart is the specified one. */
    method FetchData(api: MockApi.Store)
      modifies this
      ensures stats == Stats(|api.users|, |api.feedback|, |api.courses|)
      ensures ratingData == ChartSpec(api.courses, api.feedback)
      ensures !loading
    {
      loading := true;
      var users, feedback, courses := api.GetUsers(), api.GetFeedback(), api.GetCourses();
      stats := Stats(|users|, |feedback|, |courses|);
      var ratings := CourseRatings(courses, feedback);
      assert forall k :: 0 <= k < |courses| ==> courses[k].id in CourseIds(courses);
      ratingData := ChartData(courses, ratings);
      loading := false;
    }
  }
}
