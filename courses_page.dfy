/**
 * The course catalogue (pages/student/CoursesPage.tsx): the search filter and
 * the catalogue's own, longer copy of the image-keyword rules.
 */
module CoursesPage {
  import opened Wrappers
  import opened Types
  import Text
  import Seqs
  import CourseImages
  import StudentDashboard

  // ---------------------------------------------------------------- search

  /** The course's name or description contains the (already lowercased) term. */
  predicate CourseMatches(c: Course, lowerTerm: string) {
    Text.Includes(Text.Lower(c.name), lowerTerm) || Text.Includes(Text.Lower(c.description), lowerTerm)
  }

  /** The test handed to `courses.filter`. */
  function Matcher(lowerTerm: string): Course -> bool {
    (c: Course) => CourseMatches(c, lowerTerm)
  }

  /**
   * `filteredCourses`: an empty term shows the catalogue as it is; any other
   * term keeps exactly the courses whose lowercased name or description
   * contains the lowercased term, in catalogue order.
   */
  function FilterCourses(courses: seq<Course>, term: string): (r: seq<Course>)
    ensures term == [] ==> r == courses
    ensures term != [] ==> forall c :: c in r <==> c in courses && CourseMatches(c, Text.Lower(term))
    ensures Seqs.IsSubsequence(r, courses)
    ensures term != [] ==> forall c: Course :: CourseMatches(c, Text.Lower(term)) ==> multiset(r)[c] == multiset(courses)[c]
  {
    if term == [] then
      Seqs.SubsequenceOfSelf(courses);
      courses
    else
      var r := Seqs.Filter(courses, Matcher(Text.Lower(term)));
      forall c: Course | CourseMatches(c, Text.Lower(term)) ensures multiset(r)[c] == multiset(courses)[c] {
        Seqs.FilterMultiplicity(courses, Matcher(Text.Lower(term)), c);
      }
      r
  }

  /** The empty-term shortcut changes nothing: every course contains the empty string. */
  lemma EmptyTermShortcut(courses: seq<Course>)
    ensures FilterCourses(courses, []) == Seqs.Filter(courses, Matcher(Text.Lower([])))
  {
    forall k | 0 <= k < |courses| ensures Matcher([])(courses[k]) {
      Text.IncludesEmpty(Text.Lower(courses[k].name));
    }
    Seqs.FilterKeepsAll(courses, Matcher(Text.Lower([])));
  }

  /** The search ignores ASCII case in the term. */
  lemma SearchIgnoresCase(courses: seq<Course>, term: string)
    ensures FilterCourses(courses, Text.Upper(term)) == FilterCourses(courses, Text.Lower(term))
  {
    assert |Text.Upper(term)| == |term| == |Text.Lower(term)|;
    assert Text.Lower(Text.Upper(term)) == Text.Lower(Text.Lower(term)) by {
      Text.LowerIdempotent(term);
      forall k | 0 <= k < |term| ensures Text.Lower(Text.Upper(term))[k] == Text.Lower(term)[k] {
      }
    }
    Text.LowerIdempotent(term);
  }

  // ---------------------------------------------------------------- images

  /** The catalogue's nine rules, in the order they are tried. */
  const CatalogRules: seq<CourseImages.Rule> := [
    CourseImages.Rule("react", "react,javascript,web,ui"),
    CourseImages.Rule("css", "css,web design,stylesheet,layout"),
    CourseImages.Rule("node.js", "nodejs,backend,server,javascript"),
    CourseImages.Rule("web", "web,development,html,internet"),
    CourseImages.Rule("database", "database,sql,server,data"),
    CourseImages.Rule("python", "python,programming,data science"),
    CourseImages.Rule("design", "design,ui,ux,interface"),
    CourseImages.Rule("data science", "data,analytics,chart,graph"),
    CourseImages.Rule("project management", "agile,scrum,team,collaboration")
  ]

  /** The filler phrases the catalogue strips from a course name. */
  const CatalogPhrases: seq<string> := ["introduction to", "for beginners", "advanced", "fundamentals", "mastering"]

  lemma CatalogPhrasesNonEmpty()
    ensures Text.NonEmptyPhrases(CatalogPhrases)
  {
  }

  /** `getKeywordsForCourse` of the catalogue: the image address for a course card. */
  function ImageFor(courseName: string): (url: string)
    ensures Text.IsPrefix(CourseImages.UrlBase, url)
  {
    CatalogPhrasesNonEmpty();
    CourseImages.ImageUrl(CourseImages.Keywords(courseName, CatalogRules),
                          CourseImages.SpecificKeywords(courseName, CatalogPhrases))
  }

  /** The catalogue's rule list is the dashboard's, with three more rules after it. */
  lemma CatalogExtendsDashboard()
    ensures CatalogRules == StudentDashboard.DashboardRules + CatalogRules[6..]
    ensures CatalogPhrases[..3] == StudentDashboard.DashboardPhrases
  {
  }

  /**
   * The two copies agree whenever one of the dashboard's six rules matches;
   * otherwise the catalogue falls through to its three extra rules, and only
   * when none of those matches either do both use the default.
   */
  lemma KeywordsAgreeOnSharedRules(courseName: string)
    ensures CourseImages.FirstMatch(Text.Lower(courseName), StudentDashboard.DashboardRules).Some? ==>
      CourseImages.Keywords(courseName, CatalogRules) == CourseImages.Keywords(courseName, StudentDashboard.DashboardRules)
    ensures CourseImages.FirstMatch(Text.Lower(courseName), StudentDashboard.DashboardRules).None? ==>
      CourseImages.Keywords(courseName, StudentDashboard.DashboardRules) == CourseImages.DefaultKeywords &&
      CourseImages.Keywords(courseName, CatalogRules) == CourseImages.Keywords(courseName, CatalogRules[6..])
  {
    var name := Text.Lower(courseName);
    CatalogExtendsDashboard();
    var shared := StudentDashboard.DashboardRules;
    var extra := CatalogRules[6..];
    if CourseImages.FirstMatch(name, shared).Some? {
      CourseImages.FirstMatchAppendHit(name, shared, extra);
    } else {
      CourseImages.FirstMatchAppendMiss(name, shared, extra);
      if CourseImages.FirstMatch(name, extra).Some? {
        var k := CourseImages.FirstMatch(name, extra).value;
        assert CatalogRules[6 + k] == extra[k];
      }
    }
  }

  /** The address's tags: the chosen rule's keywords, then the stripped course name. */
  lemma ImageForTags(courseName: string)
    ensures Text.NonEmptyPhrases(CatalogPhrases)
    ensures Text.Split(CourseImages.Query(ImageFor(courseName)), ',') ==
      Text.Split(CourseImages.Keywords(courseName, CatalogRules), ',') +
      Text.Split(CourseImages.SpecificKeywords(courseName, CatalogPhrases), ',')
  {
    CatalogPhrasesNonEmpty();
    CourseImages.ImageUrlTags(CourseImages.Keywords(courseName, CatalogRules),
                              CourseImages.SpecificKeywords(courseName, CatalogPhrases));
  }

  /** The copies do differ: a course called "design" gets the default picture on the dashboard only. */
  lemma CopiesDiffer()
    ensures CourseImages.Keywords("design", StudentDashboard.DashboardRules) == CourseImages.DefaultKeywords
    ensures CourseImages.Keywords("design", CatalogRules) == "design,ui,ux,interface"
  {
    DesignIsLowerCase();
    DesignMissesSharedRules();
    KeywordsAgreeOnSharedRules("design");
    DesignMatchesDesignRule();
  }

  lemma DesignIsLowerCase()
    ensures Text.Lower("design") == "design"
  {
    Text.LowerOfLowerCase("design");
  }

  /** The first extra rule is the one for "design". */
  lemma DesignMatchesDesignRule()
    ensures CourseImages.FirstMatch("design", CatalogRules[6..]) == Some(0)
  {
    var extra := CatalogRules[6..];
    assert extra[0].needle == "design";
    assert Text.IsPrefix("design", "design");
  }

  /** None of the dashboard's needles occurs in "design". */
  lemma DesignMissesSharedRules()
    ensures CourseImages.FirstMatch("design", StudentDashboard.DashboardRules).None?
  {
    var s := "design";
    assert 'r' !in s && 'c' !in s && 'w' !in s && 'p' !in s;
    NoSharedNeedleIn(s);
  }

  /**
   * A name shorter than seven characters with no `r`, `c`, `w` or `p` in it
   * holds none of the dashboard's needles: each of them is longer or starts
   * with one of those letters.
   */
  lemma NoSharedNeedleIn(name: string)
    requires |name| < 7 && 'r' !in name && 'c' !in name && 'w' !in name && 'p' !in name
    ensures CourseImages.FirstMatch(name, StudentDashboard.DashboardRules).None?
  {
    var rules := StudentDashboard.DashboardRules;
    forall j | 0 <= j < |rules| ensures !Text.Includes(name, rules[j].needle) {
      var needle := rules[j].needle;
      if |needle| > |name| {
        Text.IncludesNotLonger(name, needle);
      } else {
        assert needle[0] in "rcwp";
        Text.IncludesNeedsHead(name, needle);
      }
    }
  }
}
