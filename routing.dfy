/**
 * The access guard (components/layout/ProtectedRoute.tsx) and the route table
 * (App.tsx) that gives each path its allowed roles.
 */
module Routing {
  import opened Wrappers
  import opened Types
  import Text
  import Seqs

  // ---------------------------------------------------------------- the guard

  /** What `ProtectedRoute` renders; `from` is the requested location carried in the navigation state. */
  datatype Element = Spinner | Outlet | Navigate(to: string, from: Option<string>)

  /** The landing page of each role. */
  function Home(role: Role): string {
    match role
    case Admin => "/admin/dashboard"
    case Student => "/dashboard"
  }

  /** The decision chain of `ProtectedRoute`, over the session state and the requested path. */
  function Guard(loading: bool, isAuthenticated: bool, user: Option<User>, pathname: string, allowedRoles: seq<Role>): (e: Element)
    // the page is rendered only for a signed-in user whose role is allowed
    ensures e == Outlet ==> !loading && isAuthenticated && user.Some? && user.value.role in allowedRoles
    // once loading is over the guard never shows an error page and sends nobody anywhere else
    ensures !loading ==> e != Spinner
    ensures e.Navigate? ==> e.to in {"/login", "/dashboard", "/admin/dashboard"}
    // only the redirect to the login page remembers where the user was going
    ensures e.Navigate? ==> (e.from.Some? <==> e.to == "/login") && (e.from.Some? ==> e.from.value == pathname)
    ensures e.Navigate? && e.to == "/login" ==> !isAuthenticated || user.None?
  {
    if loading then Spinner
    else if !isAuthenticated then Navigate("/login", Some(pathname))
    else if user.None? then Navigate("/login", Some(pathname))
    else
      var role := user.value.role;
      if role in allowedRoles then
        if (pathname == "/" || pathname == "/dashboard") && role == Admin then Navigate("/admin/dashboard", None)
        else Outlet
      else Navigate(Home(role), None)
  }

  /** Each step of the chain, in the order the guard takes them. */
  lemma GuardDecisions(loading: bool, isAuthenticated: bool, user: Option<User>, pathname: string, allowedRoles: seq<Role>)
    ensures loading ==> Guard(loading, isAuthenticated, user, pathname, allowedRoles) == Spinner
    ensures !loading && (!isAuthenticated || user.None?) ==>
      Guard(loading, isAuthenticated, user, pathname, allowedRoles) == Navigate("/login", Some(pathname))
    ensures !loading && isAuthenticated && user.Some? && user.value.role !in allowedRoles ==>
      Guard(loading, isAuthenticated, user, pathname, allowedRoles) == Navigate(Home(user.value.role), None)
    ensures !loading && isAuthenticated && user.Some? && user.value.role in allowedRoles ==>
      Guard(loading, isAuthenticated, user, pathname, allowedRoles) ==
        (if user.value.role == Admin && pathname in {"/", "/dashboard"} then Navigate("/admin/dashboard", None) else Outlet)
  {
  }

  // ---------------------------------------------------------------- the route table

  datatype Page =
    | LoginPage | SignupPage
    | StudentDashboard | CoursesPage | CourseDetailPage(courseId: string) | ProfilePage
    | AdminDashboard | AdminFeedbackPage | AdminUsersPage | AdminCoursesPage
    | NotFoundPage

  /** The pages only administrators are meant to see. */
  predicate IsAdminPage(p: Page) {
    p.AdminDashboard? || p.AdminFeedbackPage? || p.AdminUsersPage? || p.AdminCoursesPage?
  }

  /** The pages only students are meant to see. */
  predicate IsStudentPage(p: Page) {
    p.StudentDashboard? || p.CoursesPage? || p.CourseDetailPage? || p.ProfilePage?
  }

  /** What the route table does with a path: render a page, follow the index redirect, or ask a guard. */
  datatype Route = Open(page: Page) | IndexRedirect(to: string) | Guarded(roles: seq<Role>, page: Page)

  /** The part before a leading `/` is empty and is not a segment. */
  function DropLeadingEmpty(parts: seq<string>): seq<string> {
    if parts != [] && parts[0] == [] then parts[1..] else parts
  }

  /** Trailing empty parts come from trailing slashes, which the router ignores. */
  function StripTrailingEmpty(parts: seq<string>): (r: seq<string>)
    ensures r == [] || r[|r| - 1] != []
    ensures r <= parts
    ensures forall k :: |r| <= k < |parts| ==> parts[k] == []
    decreases |parts|
  {
    if parts != [] && parts[|parts| - 1] == [] then StripTrailingEmpty(parts[..|parts| - 1]) else parts
  }

  /**
   * The `/`-separated segments a path is matched on: the empty part before
   * the leading `/` and the empty parts after trailing slashes are dropped;
   * an empty segment anywhere else is kept, and no route matches it.
   */
  function Segments(path: string): (segs: seq<string>)
    ensures forall k :: 0 <= k < |segs| ==> '/' !in segs[k]
    ensures segs == [] || segs[|segs| - 1] != []
  {
    var parts := Text.Split(path, '/');
    var segs := StripTrailingEmpty(DropLeadingEmpty(parts));
    assert forall k :: 0 <= k < |segs| ==> segs[k] in parts by {
      forall k | 0 <= k < |segs| ensures segs[k] in parts {
        assert segs[k] == DropLeadingEmpty(parts)[k];
      }
    }
    segs
  }

  /** A static segment of a route path, matched without regard to case. */
  predicate SegmentIs(seg: string, name: string) {
    Text.Lower(seg) == name
  }

  /**
   * The route matched by a sequence of segments. Static segments are compared
   * case-insensitively, `:courseId` takes one segment as it is, and `*` takes
   * whatever is left.
   */
  function MatchSegments(segs: seq<string>): (r: Route)
    ensures r.IndexRedirect? <==> segs == []
    ensures !r.IndexRedirect? && r.page.CourseDetailPage? ==> |segs| == 2 && r.page.courseId == segs[1]
  {
    if segs == [] then IndexRedirect("/dashboard")
    else if |segs| == 1 then
      var s := segs[0];
      if SegmentIs(s, "login") then Open(LoginPage)
      else if SegmentIs(s, "signup") then Open(SignupPage)
      else if SegmentIs(s, "dashboard") then Guarded([Student], StudentDashboard)
      else if SegmentIs(s, "courses") then Guarded([Student], CoursesPage)
      else if SegmentIs(s, "profile") then Guarded([Student], ProfilePage)
      else Open(NotFoundPage)
    else if |segs| == 2 then
      if SegmentIs(segs[0], "courses") then Guarded([Student], CourseDetailPage(segs[1]))
      else if SegmentIs(segs[0], "admin") then
        if SegmentIs(segs[1], "dashboard") then Guarded([Admin], AdminDashboard)
        else if SegmentIs(segs[1], "feedback") then Guarded([Admin], AdminFeedbackPage)
        else if SegmentIs(segs[1], "users") then Guarded([Admin], AdminUsersPage)
        else if SegmentIs(segs[1], "courses") then Guarded([Admin], AdminCoursesPage)
        else Open(NotFoundPage)
      else Open(NotFoundPage)
    else Open(NotFoundPage)
  }

  /**
   * The route of a path: the index redirect exactly for a path of slashes
   * alone, and a course id is always one whole, non-empty segment.
   */
  function MatchRoute(path: string): (r: Route)
    ensures r.IndexRedirect? <==> Segments(path) == []
    ensures !r.IndexRedirect? && r.page.CourseDetailPage? ==> r.page.courseId != [] && '/' !in r.page.courseId
  {
    MatchSegments(Segments(path))
  }

  /**
   * The shape of the table: only the login and sign-up pages and the
   * not-found page are unguarded; every student page is guarded by exactly
   * `[Student]` and every admin page by exactly `[Admin]`; no other page is
   * guarded.
   */
  lemma {:induction false} RouteTableShape(path: string)
    ensures MatchRoute(path).Open? ==> MatchRoute(path).page in {LoginPage, SignupPage, NotFoundPage}
    ensures MatchRoute(path).Guarded? ==>
      (IsStudentPage(MatchRoute(path).page) && MatchRoute(path).roles == [Student]) ||
      (IsAdminPage(MatchRoute(path).page) && MatchRoute(path).roles == [Admin])
    ensures MatchRoute(path).IndexRedirect? ==> MatchRoute(path).to == "/dashboard"
  {
    SegmentsShape(Segments(path));
  }

  lemma SegmentsShape(segs: seq<string>)
    ensures MatchSegments(segs).Open? ==> MatchSegments(segs).page in {LoginPage, SignupPage, NotFoundPage}
    ensures MatchSegments(segs).Guarded? ==>
      (IsStudentPage(MatchSegments(segs).page) && MatchSegments(segs).roles == [Student]) ||
      (IsAdminPage(MatchSegments(segs).page) && MatchSegments(segs).roles == [Admin])
    ensures MatchSegments(segs).IndexRedirect? ==> MatchSegments(segs).to == "/dashboard"
  {
  }

  /** An empty segment before the last one matches no route. */
  lemma EmptySegmentNotFound(segs: seq<string>, k: nat)
    requires k < |segs| - 1 && segs[k] == []
    ensures MatchSegments(segs) == Open(NotFoundPage)
  {
    var empty: string := [];
    assert Text.Lower(empty) == empty;
  }

  /**
   * Segments undo writing a path: any segments without a slash whose last one
   * is not empty are exactly the segments of the path `/s1/s2/...`.
   */
  lemma SegmentsOfJoin(segs: seq<string>)
    requires forall k :: 0 <= k < |segs| ==> '/' !in segs[k]
    requires segs == [] || segs[|segs| - 1] != []
    ensures Segments("/" + Text.Join(segs, "/")) == segs
  {
    var empty: string := [];
    SplitOfRootedJoin(segs);
    if segs == [] {
      assert StripTrailingEmpty([empty]) == StripTrailingEmpty([]);
    } else {
      assert DropLeadingEmpty([empty] + segs) == segs;
    }
  }

  /** Splitting `/s1/s2/...` gives the empty part before the slash, then the segments. */
  lemma SplitOfRootedJoin(segs: seq<string>)
    requires forall k :: 0 <= k < |segs| ==> '/' !in segs[k]
    ensures Text.Split("/" + Text.Join(segs, "/"), '/') == [[]] + (if segs == [] then [[]] else segs)
  {
    var empty: string := [];
    var joined := Text.Join(segs, "/");
    assert "/" + joined == empty + ['/'] + joined;
    Text.SplitConcat(empty, joined, '/');
    assert Text.Split(empty, '/') == [empty];
    if segs != [] {
      Text.SplitJoin(segs, '/');
    }
  }

  /** A trailing slash does not change the segments, so it does not change the route. */
  lemma TrailingSlashIgnored(path: string)
    ensures Segments(path + "/") == Segments(path)
    ensures MatchRoute(path + "/") == MatchRoute(path)
  {
    var empty: string := [];
    var parts := Text.Split(path, '/');
    assert path + "/" == path + ['/'] + empty;
    Text.SplitConcat(path, empty, '/');
    assert Text.Split(empty, '/') == [empty];
    DropLeadingOfAppend(parts, empty);
    StripTrailingOfAppend(DropLeadingEmpty(parts));
  }

  /** Appending a part after at least one leaves the leading part alone. */
  lemma DropLeadingOfAppend(parts: seq<string>, last: string)
    requires parts != []
    ensures DropLeadingEmpty(parts + [last]) == DropLeadingEmpty(parts) + [last]
  {
  }

  /** Another trailing empty part is stripped with the rest. */
  lemma StripTrailingOfAppend(parts: seq<string>)
    ensures StripTrailingEmpty(parts + [[]]) == StripTrailingEmpty(parts)
  {
    var d := parts + [[]];
    assert d[..|d| - 1] == parts;
  }

  /** The segments of `/`, `/a` and `/a/b`. */
  lemma SegmentsOfShortPaths(a: string, b: string)
    requires a != [] && b != [] && '/' !in a && '/' !in b
    ensures Segments("/") == []
    ensures Segments("/" + a) == [a]
    ensures Segments("/" + a + "/" + b) == [a, b]
  {
    var none: seq<string> := [];
    SegmentsOfJoin(none);
    assert "/" + Text.Join(none, "/") == "/";
    SegmentsOfJoin([a]);
    assert Text.Join([a], "/") == a;
    SegmentsOfJoin([a, b]);
    assert [a, b][1..] == [b];
    assert Text.Join([a, b], "/") == a + "/" + b;
    assert "/" + (a + "/" + b) == "/" + a + "/" + b;
  }

  /** The route of a path is decided by its segments alone. */
  lemma RouteBySegments(path: string, segs: seq<string>)
    requires Segments(path) == segs
    ensures MatchRoute(path) == MatchSegments(segs)
  {
  }

  /** A lower-case name, as a segment, matches exactly its own name. */
  lemma SegmentIsLiteral(name: string)
    requires forall c :: c in name ==> 'a' <= c <= 'z'
    ensures forall other: string :: SegmentIs(name, other) <==> other == name
  {
    assert forall k :: 0 <= k < |name| ==> name[k] in name;
    Text.LowerOfLowerCase(name);
  }

  /** The route of `/a` is the route of its one segment. */
  lemma OneSegmentRoute(path: string, a: string)
    requires a != [] && '/' !in a
    requires path == "/" + a
    ensures MatchRoute(path) == MatchSegments([a])
  {
    SegmentsOfShortPaths(a, a);
  }

  /** The route of `/a/b` is the route of its two segments. */
  lemma TwoSegmentRoute(path: string, a: string, b: string)
    requires a != [] && b != [] && '/' !in a && '/' !in b
    requires path == "/" + a + "/" + b
    ensures MatchRoute(path) == MatchSegments([a, b])
  {
    SegmentsOfShortPaths(a, b);
  }

  /** The one-segment paths of the table select their pages. */
  lemma OneSegmentTable()
    ensures MatchSegments(["login"]) == Open(LoginPage)
    ensures MatchSegments(["signup"]) == Open(SignupPage)
    ensures MatchSegments(["dashboard"]) == Guarded([Student], StudentDashboard)
    ensures MatchSegments(["courses"]) == Guarded([Student], CoursesPage)
    ensures MatchSegments(["profile"]) == Guarded([Student], ProfilePage)
  {
    SegmentIsLiteral("login");
    SegmentIsLiteral("signup");
    SegmentIsLiteral("dashboard");
    SegmentIsLiteral("courses");
    SegmentIsLiteral("profile");
  }

  /** The two-segment paths of the table select their pages. */
  lemma TwoSegmentTable(courseId: string)
    ensures MatchSegments(["courses", courseId]) == Guarded([Student], CourseDetailPage(courseId))
    ensures MatchSegments(["admin", "dashboard"]) == Guarded([Admin], AdminDashboard)
    ensures MatchSegments(["admin", "feedback"]) == Guarded([Admin], AdminFeedbackPage)
    ensures MatchSegments(["admin", "users"]) == Guarded([Admin], AdminUsersPage)
    ensures MatchSegments(["admin", "courses"]) == Guarded([Admin], AdminCoursesPage)
  {
    SegmentIsLiteral("courses");
    SegmentIsLiteral("admin");
    SegmentIsLiteral("dashboard");
    SegmentIsLiteral("feedback");
    SegmentIsLiteral("users");
  }

  /** Every path of the route table, and the index, reach the route written for them. */
  lemma KnownRoutes(courseId: string)
    requires courseId != [] && '/' !in courseId
    ensures MatchRoute("/") == IndexRedirect("/dashboard")
    ensures MatchRoute("/login") == Open(LoginPage)
    ensures MatchRoute("/signup") == Open(SignupPage)
    ensures MatchRoute("/dashboard") == Guarded([Student], StudentDashboard)
    ensures MatchRoute("/courses") == Guarded([Student], CoursesPage)
    ensures MatchRoute("/courses/" + courseId) == Guarded([Student], CourseDetailPage(courseId))
    ensures MatchRoute("/profile") == Guarded([Student], ProfilePage)
    ensures MatchRoute("/admin/dashboard") == Guarded([Admin], AdminDashboard)
    ensures MatchRoute("/admin/feedback") == Guarded([Admin], AdminFeedbackPage)
    ensures MatchRoute("/admin/users") == Guarded([Admin], AdminUsersPage)
    ensures MatchRoute("/admin/courses") == Guarded([Admin], AdminCoursesPage)
  {
    RouteOfLogin();
    RouteOfSignup();
    RouteOfDashboard();
    RouteOfCourses();
    RouteOfCourseDetail(courseId);
    RouteOfProfile();
    RouteOfAdminDashboard();
    RouteOfAdminFeedback();
    RouteOfAdminUsers();
    RouteOfAdminCourses();
  }

  lemma RouteOfLogin()
    ensures MatchRoute("/") == IndexRedirect("/dashboard")
    ensures MatchRoute("/login") == Open(LoginPage)
  {
    SegmentsOfShortPaths("login", "login");
    OneSegmentRoute("/login", "login");
    OneSegmentTable();
  }

  lemma RouteOfSignup()
    ensures MatchRoute("/signup") == Open(SignupPage)
  {
    OneSegmentRoute("/signup", "signup");
    OneSegmentTable();
  }

  lemma RouteOfDashboard()
    ensures MatchRoute("/dashboard") == Guarded([Student], StudentDashboard)
  {
    OneSegmentRoute("/dashboard", "dashboard");
    OneSegmentTable();
  }

  lemma RouteOfCourses()
    ensures MatchRoute("/courses") == Guarded([Student], CoursesPage)
  {
    OneSegmentRoute("/courses", "courses");
    OneSegmentTable();
  }

  /** `courses/:courseId` takes any single non-empty segment as the course id. */
  lemma RouteOfCourseDetail(courseId: string)
    requires courseId != [] && '/' !in courseId
    ensures MatchRoute("/courses/" + courseId) == Guarded([Student], CourseDetailPage(courseId))
  {
    TwoSegmentRoute("/courses/" + courseId, "courses", courseId);
    TwoSegmentTable(courseId);
  }

  lemma RouteOfProfile()
    ensures MatchRoute("/profile") == Guarded([Student], ProfilePage)
  {
    OneSegmentRoute("/profile", "profile");
    OneSegmentTable();
  }

  lemma RouteOfAdminDashboard()
    ensures MatchRoute("/admin/dashboard") == Guarded([Admin], AdminDashboard)
  {
    TwoSegmentRoute("/admin/dashboard", "admin", "dashboard");
    TwoSegmentTable("x");
  }

  lemma RouteOfAdminFeedback()
    ensures MatchRoute("/admin/feedback") == Guarded([Admin], AdminFeedbackPage)
  {
    TwoSegmentRoute("/admin/feedback", "admin", "feedback");
    TwoSegmentTable("x");
  }

  lemma RouteOfAdminUsers()
    ensures MatchRoute("/admin/users") == Guarded([Admin], AdminUsersPage)
  {
    TwoSegmentRoute("/admin/users", "admin", "users");
    TwoSegmentTable("x");
  }

  lemma RouteOfAdminCourses()
    ensures MatchRoute("/admin/courses") == Guarded([Admin], AdminCoursesPage)
  {
    TwoSegmentRoute("/admin/courses", "admin", "courses");
    TwoSegmentTable("x");
  }

  /** The router rejects `//dashboard`: the empty segment before `dashboard` matches nothing. */
  lemma LeadingDoubleSlashNotFound(b: string)
    requires b != [] && '/' !in b
    ensures MatchRoute("//" + b) == Open(NotFoundPage)
  {
    var empty: string := [];
    SegmentsOfJoin([empty, b]);
    assert [empty, b][1..] == [b];
    assert Text.Join([empty, b], "/") == "/" + b;
    assert "/" + ("/" + b) == "//" + b;
    EmptySegmentNotFound([empty, b], 0);
  }

  /** The router rejects `/admin//users`: an inner empty segment matches nothing. */
  lemma InnerDoubleSlashNotFound(a: string, b: string)
    requires '/' !in a && b != [] && '/' !in b
    ensures MatchRoute("/" + a + "//" + b) == Open(NotFoundPage)
  {
    var empty: string := [];
    SegmentsOfJoin([a, empty, b]);
    assert [a, empty, b][1..] == [empty, b];
    assert [empty, b][1..] == [b];
    assert Text.Join([empty, b], "/") == "/" + b;
    assert Text.Join([a, empty, b], "/") == a + "/" + ("/" + b);
    assert "/" + (a + "/" + ("/" + b)) == "/" + a + "//" + b;
    EmptySegmentNotFound([a, empty, b], 1);
  }

  // ---------------------------------------------------------------- rendering a path

  /** What the user ends up looking at: a page, the spinner, or a redirect to follow. */
  datatype Screen = Show(page: Page) | Spin | Redirect(to: string, from: Option<string>)

  /** The redirect targets of the guard and of the two sign-in pages. */
  predicate IsTarget(to: string) {
    to in {"/login", "/dashboard", "/admin/dashboard"}
  }

  /**
   * The page suits the visitor: someone signed out sees only the login,
   * sign-up and not-found pages, someone signed in never sees the login or
   * sign-up page, a student never sees an admin page, and an administrator
   * never sees a student page.
   */
  predicate Fits(user: Option<User>, p: Page) {
    && (user.None? ==> p in {LoginPage, SignupPage, NotFoundPage})
    && (user.Some? ==> p != LoginPage && p != SignupPage)
    && (user.Some? && user.value.role == Student ==> !IsAdminPage(p))
    && (user.Some? && user.value.role == Admin ==> !IsStudentPage(p))
  }

  /**
   * Where the login page sends a signed-in visitor: back to the page the guard
   * turned them away from, else to their role's home.
   */
  function LoginDestination(u: User, state: Option<string>): string {
    if state.Some? && state.value != "" then state.value else Home(u.role)
  }

  /**
   * One render of `path` for the session state (`isAuthenticated` is `!!user`)
   * and the `from` carried in the navigation state. The login and sign-up
   * pages send a signed-in visitor on from their effect; a guarded page asks
   * the guard.
   */
  function Render(loading: bool, user: Option<User>, path: string, state: Option<string>): (s: Screen)
    // whatever is shown suits the visitor and is the page the route table names
    ensures s.Show? ==> Fits(user, s.page)
    ensures s.Show? ==> !MatchRoute(path).IndexRedirect? && s.page == MatchRoute(path).page
    // the spinner only while loading, on a guarded path
    ensures s.Spin? ==> loading && MatchRoute(path).Guarded?
    // without a remembered location every redirect goes to one of the three targets
    ensures s.Redirect? && state.None? ==> IsTarget(s.to)
    // only a signed-out visitor is sent on with a location to come back to
    ensures s.Redirect? && s.from.Some? ==> user.None? && s.to == "/login" && s.from.value == path
  {
    RouteTableShape(path);
    match MatchRoute(path)
    case Open(p) =>
      if user.Some? && p == LoginPage then Redirect(LoginDestination(user.value, state), None)
      else if user.Some? && p == SignupPage then Redirect("/dashboard", None)
      else Show(p)
    case IndexRedirect(to) => Redirect(to, None)
    case Guarded(roles, p) =>
      match Guard(loading, user.Some?, user, path, roles)
      case Spinner => Spin
      case Outlet => Show(p)
      case Navigate(to, from) => Redirect(to, from)
  }

  /**
   * Rendering and following redirects, at most `hops` of them; each redirect
   * carries its `from` as the next navigation state.
   */
  function Follow(loading: bool, user: Option<User>, path: string, state: Option<string>, hops: nat): (s: Screen)
    ensures s.Show? ==> Fits(user, s.page)
    ensures s.Spin? ==> loading
    ensures hops == 0 ==> s == Render(loading, user, path, state)
    decreases hops
  {
    var s := Render(loading, user, path, state);
    if s.Redirect? && hops > 0 then Follow(loading, user, s.to, s.from, hops - 1) else s
  }

  /** The login page shows itself to a visitor signed out, and sends one signed in on. */
  lemma RenderLogin(user: Option<User>, state: Option<string>)
    ensures Render(false, user, "/login", state) ==
      if user.None? then Show(LoginPage) else Redirect(LoginDestination(user.value, state), None)
  {
    RouteOfLogin();
  }

  /** The sign-up page shows itself to a visitor signed out, and sends one signed in to `/dashboard`. */
  lemma RenderSignup(user: Option<User>, state: Option<string>)
    ensures Render(false, user, "/signup", state) ==
      if user.None? then Show(SignupPage) else Redirect("/dashboard", None)
  {
    RouteOfSignup();
  }

  lemma RenderDashboard(user: Option<User>, state: Option<string>)
    ensures Render(false, user, "/dashboard", state) ==
      if user.None? then Redirect("/login", Some("/dashboard"))
      else if user.value.role == Student then Show(StudentDashboard)
      else Redirect("/admin/dashboard", None)
  {
    RouteOfDashboard();
    RenderGuarded(user, "/dashboard", state, Student, StudentDashboard);
  }

  lemma RenderAdminDashboard(user: Option<User>, state: Option<string>)
    ensures Render(false, user, "/admin/dashboard", state) ==
      if user.None? then Redirect("/login", Some("/admin/dashboard"))
      else if user.value.role == Admin then Show(AdminDashboard)
      else Redirect("/dashboard", None)
  {
    RouteOfAdminDashboard();
    RenderGuarded(user, "/admin/dashboard", state, Admin, AdminDashboard);
  }

  /** What the three redirect targets and the sign-up page show once loading is over. */
  lemma RedirectTargets(user: Option<User>, state: Option<string>)
    ensures Render(false, user, "/login", state) ==
      if user.None? then Show(LoginPage) else Redirect(LoginDestination(user.value, state), None)
    ensures Render(false, user, "/signup", state) ==
      if user.None? then Show(SignupPage) else Redirect("/dashboard", None)
    ensures Render(false, user, "/dashboard", state) ==
      if user.None? then Redirect("/login", Some("/dashboard"))
      else if user.value.role == Student then Show(StudentDashboard)
      else Redirect("/admin/dashboard", None)
    ensures Render(false, user, "/admin/dashboard", state) ==
      if user.None? then Redirect("/login", Some("/admin/dashboard"))
      else if user.value.role == Admin then Show(AdminDashboard)
      else Redirect("/dashboard", None)
  {
    RenderLogin(user, state);
    RenderSignup(user, state);
    RenderDashboard(user, state);
    RenderAdminDashboard(user, state);
  }

  /** A guarded path, rendered once loading is over, for a visitor with one role allowed. */
  lemma RenderGuarded(user: Option<User>, path: string, state: Option<string>, role: Role, p: Page)
    requires MatchRoute(path) == Guarded([role], p)
    requires path != "/" && (path == "/dashboard" ==> role == Student)
    ensures Render(false, user, path, state) ==
      if user.None? then Redirect("/login", Some(path))
      else if user.value.role == role then Show(p)
      else Redirect(Home(user.value.role), None)
  {
  }

  /** After signing in, the login page returns the visitor to the page they had asked for. */
  lemma LoginReturnsToRequestedPage(u: User, requested: string)
    requires requested != ""
    ensures Render(false, Some(u), "/login", Some(requested)) == Redirect(requested, None)
    ensures Render(false, Some(u), "/login", None) == Redirect(Home(u.role), None)
  {
    RenderLogin(Some(u), Some(requested));
    RenderLogin(Some(u), None);
  }

  /** The page a visitor lands on when sent to their home: the login page when signed out. */
  function HomePage(user: Option<User>): (p: Page)
    ensures Fits(user, p)
  {
    if user.None? then LoginPage
    else if user.value.role == Admin then AdminDashboard
    else StudentDashboard
  }

  /** Following at most one redirect: render, and render the target if there is one. */
  lemma FollowOneHop(user: Option<User>, path: string, state: Option<string>, first: Screen, second: Screen)
    requires Render(false, user, path, state) == first
    requires first.Redirect? ==> Render(false, user, first.to, first.from) == second
    ensures Follow(false, user, path, state, 1) == if first.Redirect? then second else first
  {
  }

  /**
   * From any redirect target, one more redirect at most reaches the visitor's
   * home page, provided a signed-in visitor carries no location.
   */
  lemma FollowTarget(user: Option<User>, t: string, state: Option<string>)
    requires IsTarget(t)
    requires user.Some? ==> state.None?
    ensures Follow(false, user, t, state, 1) == Show(HomePage(user))
  {
    if t == "/login" {
      FollowFromLogin(user, state);
    } else if t == "/dashboard" {
      FollowFromDashboard(user, state);
    } else {
      FollowFromAdminDashboard(user, state);
    }
  }

  lemma FollowFromLogin(user: Option<User>, state: Option<string>)
    requires user.Some? ==> state.None?
    ensures Follow(false, user, "/login", state, 1) == Show(HomePage(user))
  {
    RenderLogin(user, state);
    if user.None? {
      FollowOneHop(user, "/login", state, Show(LoginPage), Show(LoginPage));
    } else if user.value.role == Admin {
      RenderAdminDashboard(user, None);
      FollowOneHop(user, "/login", state, Redirect("/admin/dashboard", None), Show(AdminDashboard));
    } else {
      RenderDashboard(user, None);
      FollowOneHop(user, "/login", state, Redirect("/dashboard", None), Show(StudentDashboard));
    }
  }

  lemma FollowFromDashboard(user: Option<User>, state: Option<string>)
    ensures Follow(false, user, "/dashboard", state, 1) == Show(HomePage(user))
  {
    RenderDashboard(user, state);
    if user.None? {
      RenderLogin(user, Some("/dashboard"));
      FollowOneHop(user, "/dashboard", state, Redirect("/login", Some("/dashboard")), Show(LoginPage));
    } else if user.value.role == Student {
      FollowOneHop(user, "/dashboard", state, Show(StudentDashboard), Show(StudentDashboard));
    } else {
      RenderAdminDashboard(user, None);
      FollowOneHop(user, "/dashboard", state, Redirect("/admin/dashboard", None), Show(AdminDashboard));
    }
  }

  lemma FollowFromAdminDashboard(user: Option<User>, state: Option<string>)
    ensures Follow(false, user, "/admin/dashboard", state, 1) == Show(HomePage(user))
  {
    RenderAdminDashboard(user, state);
    if user.None? {
      RenderLogin(user, Some("/admin/dashboard"));
      FollowOneHop(user, "/admin/dashboard", state, Redirect("/login", Some("/admin/dashboard")), Show(LoginPage));
    } else if user.value.role == Admin {
      FollowOneHop(user, "/admin/dashboard", state, Show(AdminDashboard), Show(AdminDashboard));
    } else {
      RenderDashboard(user, None);
      FollowOneHop(user, "/admin/dashboard", state, Redirect("/dashboard", None), Show(StudentDashboard));
    }
  }

  /**
   * Once the session has loaded, a path visited afresh settles within two
   * redirects on a page that suits the visitor: the page the route names, or
   * the visitor's home page.
   */
  lemma {:induction false} EveryPathSettles(user: Option<User>, path: string)
    ensures Follow(false, user, path, None, 2).Show?
    ensures Fits(user, Follow(false, user, path, None, 2).page)
    ensures Render(false, user, path, None).Redirect? ==> Follow(false, user, path, None, 2) == Show(HomePage(user))
  {
    FollowOnce(user, path, None);
    var s := Render(false, user, path, None);
    if s.Redirect? {
      FollowTarget(user, s.to, s.from);
    } else {
      assert !s.Spin?;
    }
  }

  /** Following from a path is rendering it, then following its redirect if it has one. */
  lemma FollowOnce(user: Option<User>, path: string, state: Option<string>)
    ensures Render(false, user, path, state).Redirect? ==>
      Follow(false, user, path, state, 2) ==
        Follow(false, user, Render(false, user, path, state).to, Render(false, user, path, state).from, 1)
    ensures !Render(false, user, path, state).Redirect? ==> Follow(false, user, path, state, 2) == Render(false, user, path, state)
  {
  }

  /** While the session loads, a guarded path shows the spinner and nothing else. */
  lemma LoadingShowsSpinner(user: Option<User>, path: string, state: Option<string>)
    requires MatchRoute(path).Guarded?
    ensures Render(true, user, path, state) == Spin
  {
  }

  /**
   * The guard's own redirect of an administrator at `/` or `/dashboard` never
   * fires in this table: `/` is the unguarded index redirect and `/dashboard`
   * admits only students, so the administrator is sent home by the
   * disallowed-role branch instead.
   */
  lemma AdminAtRootBranchUnused(path: string)
    requires MatchRoute(path).Guarded? && Admin in MatchRoute(path).roles
    ensures path != "/" && path != "/dashboard"
  {
    RouteOfLogin();
    RouteOfDashboard();
  }
}
