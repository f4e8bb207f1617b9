# Learning-feedback portal: a Dafny model of the core

The portal is a client-side React application. Students sign up, review
courses (a 1-5 star rating and a message) and browse the catalogue.
Administrators see the totals, read and export the reviews, block or delete
users, and manage courses. No server is involved. Every call goes to an
in-memory mock store that keeps three arrays: users, courses and feedback.

This project models the parts of the application that decide something:

- **`MockApi`** (`store.dfy`): the in-memory store as a class `Store`, with
  `seq` fields for the three arrays. Each API call is a method with a
  `Result` for its error path. Beside the methods are the store's invariant
  (at most one review per student and course), the login and sign-up
  specifications, and the seed data. The getters `getUsers`, `getCourses`
  and `getFeedback` are the functions `GetUsers`, `GetCourses` and
  `GetFeedback`; each returns a whole array.
- **`Types`** (`types.ts`): the records, and the `{ ...record, ...updates }`
  merge of a partial update.
- **`Session`** (`AuthContext.tsx`): the authentication provider as a class
  over the signed-in user, the loading flag and the two persisted storage
  keys. What `initializeAuth` leaves behind is also the pure function
  `Rehydrated`, and the lemmas about rehydration are stated over it.
- **`Routing`** (`ProtectedRoute.tsx`, `App.tsx`): the guard's decision
  chain, the route table, and what a visitor ends up seeing once redirects
  are followed. Paths are matched as React Router matches them: static
  segments ignore case, trailing slashes are ignored, and an empty segment
  anywhere else matches no route. The login and sign-up pages send a
  visitor who is already signed in on from their effects
  (`LoginPage.tsx:16-22`, `SignupPage.tsx:17-21`): login to the location
  the guard remembered, or else to the role's home, and sign-up to
  `/dashboard`.
- **`SignupPage`**: the password rule and the check order of the form.
- **`AdminDashboard`**: the counts and the per-course rating chart. The two
  aggregation loops are a method proved against a specification function.
- **`AdminFeedback`**: newest-first loading, filtering, pagination, the CSV
  export, the row selection and the summary request.
- **`StudentDashboard`** and **`CoursesPage`**: the stat cards, the courses
  still open for review, the search, and the two separate copies of the
  course-image keyword builder. **`CourseImages`** holds what the two copies
  share.
- **`AdminUsers`**: the user list, the search, the confirmation dialog, the
  block toggle and the avatar initials.
- **`Text`**, **`Seqs`** and **`Sorting`**: the JavaScript string
  operations these pages use (`toLowerCase`, `includes`, `split`, `join`,
  `trim`, `replace`, `parseInt`); filtering and first-match search over
  sequences; and the stable newest-first sort.

Conventions:

- A page's component state is a class whose fields are its `useState`
  variables. Each handler is a method of that class.
- An `await` of the store is one atomic step.
- Clock readings are parameters. The id stamp (`Date.now()`) is `idStamp`,
  the creation time is `now`, and the seed courses' `new Date()` is the
  store's `loadTime`.
- Timestamps (`createdAt`) are integers, in milliseconds. The source stores
  ISO strings and sorts on their parsed value, so the order is the same.

Things the source does that the proofs make explicit:

- `updateUserProfile` does not re-check e-mail uniqueness
  (`MockApi.UpdateCanDuplicateEmail`).
- The admin dashboard's "Total Students" card counts every user,
  administrators included.
- A student's "pending reviews" card equals the number of courses still
  open for review only while every reviewed course still exists
  (`StudentDashboard.PendingIsAvailableCount`). Deleting a course does not
  delete its reviews, so the card can fall below zero.
- The guard's own redirect of an administrator at `/` or `/dashboard` never
  fires under this route table. The disallowed-role branch sends the
  administrator home instead (`Routing.AdminAtRootBranchUnused`).
- The sign-up page sends a signed-in administrator to `/dashboard`, where
  the guard sends them on to `/admin/dashboard`. This path, like `/` for an
  administrator, takes both of the two redirects that
  `Routing.EveryPathSettles` allows.
- The two keyword builders disagree on a name such as "design"
  (`CoursesPage.CopiesDiffer`).

## Model

| member | source | states |
|---|---|---|
| Types.MergeUserLaws | services/mockApiService.ts:120 | An empty update keeps the user. Applying the same update twice is applying it once. A field absent from the update keeps its value. Two updates in a row equal one combined update in which the later keys win. |
| Types.MergeCourseLaws | services/mockApiService.ts:151 | An empty update keeps the course. Applying the same update twice is applying it once. Absent fields keep their values. |
| Types.MergeFeedback | services/mockApiService.ts:193-197 | An update can change only the rating and the message. The id, the student and course ids and names, and the creation time are kept. |
| MockApi.Login | services/mockApiService.ts:78-86 | Login succeeds exactly when the first user with that e-mail, compared exactly, is not blocked. The password plays no part. On success the payload carries that user and the token `mock-jwt-token-for-<id>`. Otherwise the answer is the invalid-credentials error. |
| MockApi.BlockedUserCannotLogin | services/mockApiService.ts:81-85 | With unique e-mails, a blocked user's address is refused whatever the password. |
| MockApi.SignupResult | services/mockApiService.ts:88-103 | Sign-up fails with the duplicate-e-mail error exactly when some user already has that e-mail. Otherwise it returns an unblocked student with the given name and e-mail, and that user's token. |
| MockApi.SecondSignupFails | services/mockApiService.ts:90-101 | After a successful sign-up, signing up again with the same e-mail fails. The list has grown by exactly one record and e-mails stay unique. |
| MockApi.AppendKeepsEmailsUnique | services/mockApiService.ts:90-101 | Appending a user whose e-mail is not yet present keeps e-mails unique. |
| MockApi.UpdateCanDuplicateEmail | services/mockApiService.ts:116-121 | A profile update can give a user another user's e-mail. The store does not check, and the result breaks uniqueness. |
| MockApi.AddFeedbackResult | services/mockApiService.ts:171-191 | The invalid-student-or-course error comes exactly when the student or the course is missing. The duplicate error comes exactly when both exist and the pair already has a review. A new review carries the given ids, rating and message, plus the names of the student and course found. |
| MockApi.SecondReviewFails | services/mockApiService.ts:177-180 | After a successful review, a second review of the same course by the same student is refused. |
| MockApi.AppendKeepsOnePerPair | services/mockApiService.ts:177-189 | Appending a review for a pair that has none keeps at most one review per pair. |
| MockApi.RetouchKeepsOnePerPair | services/mockApiService.ts:193-198 | Updating a review in place keeps at most one review per pair. |
| MockApi.SubsequenceKeepsOnePerPair | services/mockApiService.ts:201-204 | Removing reviews keeps at most one review per pair. |
| MockApi.SeedIsConsistent | services/mockApiService.ts:18-71 | The seed data has unique e-mails and at most one review per pair. |
| MockApi.Store.constructor | services/mockApiService.ts:18-71 | The store starts with the seed users, the seed courses stamped with the load time, and the seed reviews. It satisfies its invariant. |
| MockApi.Store.GetUserById | services/mockApiService.ts:105-108 | The user found has the requested id and is the first stored user with it, as `find` returns. Nothing is found exactly when no user has that id. |
| MockApi.Store.GetCourseById | services/mockApiService.ts:135-138 | The course found has the requested id and is the first stored course with it, as `find` returns. Nothing is found exactly when no course has that id. |
| MockApi.Store.GetFeedbackForStudent | services/mockApiService.ts:166-169 | The reviews returned are exactly the student's own, in store order, each as often as it is stored. |
| MockApi.Store.GetUsers | services/mockApiService.ts:111-114 | The list is the stored users array itself, so every user listed can be fetched by id. |
| MockApi.Store.GetCourses | services/mockApiService.ts:130-133 | The list is the stored courses array itself, so every course listed can be fetched by id. |
| MockApi.Store.GetFeedback | services/mockApiService.ts:161-164 | The list is the stored reviews array itself, in store order. In a valid store the list holds at most one review per student and course, and each review is among its student's own. |
| MockApi.Store.Signup | services/mockApiService.ts:88-103 | The answer is the sign-up specification. On success the users array gains exactly that record, and nothing else changes. The review invariant holds, and e-mail uniqueness is preserved. |
| MockApi.Store.UpdateUserProfile | services/mockApiService.ts:116-122 | An unknown id fails with the user-not-found error and changes nothing. Otherwise only the first user with that id is replaced by the merge, and the merged record is returned. Courses and reviews are untouched. |
| MockApi.Store.DeleteUser | services/mockApiService.ts:124-127 | The users array loses exactly the users with that id. Reviews and courses are untouched, so there is no cascade. |
| MockApi.Store.AddCourse | services/mockApiService.ts:140-145 | Exactly one course is appended, with id `course-<stamp>` and the given fields. Nothing else changes. |
| MockApi.Store.UpdateCourse | services/mockApiService.ts:147-153 | An unknown id fails with the course-not-found error and changes nothing. Otherwise only the first course with that id is replaced by the merge. |
| MockApi.Store.DeleteCourse | services/mockApiService.ts:155-158 | The courses array loses exactly the courses with that id. Reviews stay. |
| MockApi.Store.AddFeedback | services/mockApiService.ts:171-191 | The answer is the add-feedback specification. One record is appended exactly on success. The one-review-per-pair invariant is kept. |
| MockApi.Store.UpdateFeedback | services/mockApiService.ts:193-199 | An unknown id fails with the feedback-not-found error. Otherwise only that review's rating and message change, and the invariant is kept. |
| MockApi.Store.DeleteFeedback | services/mockApiService.ts:201-204 | The reviews array loses exactly the reviews with that id, and the invariant is kept. |
| MockApi.DeleteUserRemovesExactly | services/mockApiService.ts:124-127 | The remaining users are exactly those with another id, in order and each as often as before. An absent id changes nothing. |
| MockApi.DeleteCourseRemovesExactly | services/mockApiService.ts:155-158 | The remaining courses are exactly those with another id, in order and each as often as before. An absent id changes nothing. |
| MockApi.DeleteFeedbackRemovesExactly | services/mockApiService.ts:201-204 | The remaining reviews are exactly those with another id, in order and each as often as before. An absent id changes nothing. |
| Session.HasCredentials | context/AuthContext.tsx:32-34 | Credentials count as present only when both keys are stored, each with a non-empty value. |
| Session.CredentialsOfStoredAndCleared | context/AuthContext.tsx:23-34 | After logout there are never credentials. After a token and an id are stored there are credentials exactly when neither is empty. |
| Session.Cleared | context/AuthContext.tsx:25-26 | Both keys are removed, and every other key keeps its value. |
| Session.Stored | context/AuthContext.tsx:55-56 | Both keys are set to the token and the user id, and every other key keeps its value. |
| Session.AuthProvider.constructor | context/AuthContext.tsx:20-21 | The provider starts with no user, loading, and the persisted storage. |
| Session.AuthProvider.AdminIsAuthenticated | context/AuthContext.tsx:66-67 | `isAuthenticated` holds exactly when there is a user. An administrator is always authenticated. |
| Session.AuthProvider.Logout | context/AuthContext.tsx:23-27 | After logout there is no user and both keys are cleared. Neither `isAuthenticated` nor `isAdmin` holds. |
| Session.Rehydrated | context/AuthContext.tsx:29-50 | Without credentials the session is kept. With them, the user becomes the store's answer for the stored id. A new user is always the stored id's user, taken from the store. Storage is either kept or, when the stored id is unknown, has both keys removed. |
| Session.AuthProvider.InitializeAuth | context/AuthContext.tsx:29-50 | The new user and storage are exactly the `Rehydrated` session of the old state, and loading ends. If a key is missing or empty, nothing else changes. If the stored id is known, that user is restored. An unknown id leads to the logout state. |
| Session.AuthProvider.Login | context/AuthContext.tsx:52-57 | When the store accepts, the session holds the returned user and both keys are stored. When it refuses, the error is passed on and neither the user nor the storage changes. |
| Session.AuthProvider.Signup | context/AuthContext.tsx:59-64 | The same as login, with the store's sign-up applied to its users array. |
| Session.RehydrationOfUnknownIdLogsOut | context/AuthContext.tsx:34-40 | When the persisted id names no user, rehydration ends with no user and with both keys removed, so the token is gone too. |
| Session.RehydrationOfKnownIdSignsIn | context/AuthContext.tsx:34-37 | When some user has the persisted id, rehydration signs in a stored user with that id and keeps storage as it was. |
| Session.RehydrationIsIdempotent | context/AuthContext.tsx:29-50 | Rehydrating the rehydrated session changes nothing, so running the effect again is harmless. |
| Session.RehydrationKeepsSessionValid | context/AuthContext.tsx:29-50 | From a session whose user matches the stored id, rehydration ends in such a session. |
| Routing.Guard | components/layout/ProtectedRoute.tsx:21-51 | The page is rendered only for a signed-in user whose role is allowed. After loading there is never a spinner. Every redirect goes to one of `/login`, `/dashboard` or `/admin/dashboard`. Only the redirect to `/login` carries the requested path, and only a visitor without a user is sent there. |
| Routing.GuardDecisions | components/layout/ProtectedRoute.tsx:21-51 | The chain in order: spinner while loading; the login redirect without a user; a role that is not allowed is sent home (admin to `/admin/dashboard`, student to `/dashboard`); an allowed administrator at `/` or `/dashboard` goes to `/admin/dashboard`; otherwise the outlet is rendered. |
| Routing.Segments | App.tsx:25-49 | No segment holds a slash, and the last segment is never empty: trailing slashes do not count. |
| Routing.MatchSegments | App.tsx:25-49 | The index redirect is taken exactly when there are no segments. A course page's id is the second of exactly two segments. |
| Routing.MatchRoute | App.tsx:25-49 | The index redirect is taken exactly when the path has no segments. A course id is always one whole, non-empty segment with no slash. |
| Routing.SegmentsOfJoin | App.tsx:25-49 | Segments undo writing a path: for slash-free segments whose last one is not empty, the segments of `/s1/.../sn` are exactly `s1, ..., sn`. |
| Routing.TrailingSlashIgnored | App.tsx:25-49 | A trailing slash changes neither the segments nor the route. |
| Routing.EmptySegmentNotFound | App.tsx:48 | An empty segment before the last one matches no route, so the not-found page is shown. |
| Routing.LeadingDoubleSlashNotFound | App.tsx:48 | `//name` is not found. |
| Routing.InnerDoubleSlashNotFound | App.tsx:48 | `/a//b` is not found. |
| Routing.RouteTableShape | App.tsx:26-48 | Only login, sign-up and not-found are unguarded. The four student pages are guarded by exactly `[Student]` and the four admin pages by exactly `[Admin]`. The index redirect goes to `/dashboard`. |
| Routing.KnownRoutes | App.tsx:26-45 | Each path of the table reaches its own route. `/` is the index redirect to `/dashboard`. `/login` and `/signup` are open. `/dashboard`, `/courses`, `/courses/<id>` (for any non-empty slash-free id) and `/profile` admit students. `/admin/dashboard`, `/admin/feedback`, `/admin/users` and `/admin/courses` admit administrators. |
| Routing.RouteOfCourseDetail | App.tsx:36 | `courses/:courseId` takes any single non-empty segment as the course id, unchanged. |
| Routing.Render | App.tsx:25-49 | A shown page always suits the visitor, and it is the page the route table names. The spinner appears only while loading, on a guarded path. Without a remembered location every redirect goes to one of the three targets. Only a signed-out visitor is sent to `/login` carrying the path. |
| Routing.Follow | App.tsx:25-49 | Whatever is shown after following redirects suits the visitor. After loading there is no spinner. With no hops left, following is one render. |
| Routing.RenderLogin | pages/auth/LoginPage.tsx:16-22 | The login page shows itself to a signed-out visitor. It sends a signed-in one to the remembered location, or else to their role's home. |
| Routing.RenderSignup | pages/auth/SignupPage.tsx:17-21 | The sign-up page shows itself to a signed-out visitor, and sends a signed-in one to `/dashboard`. |
| Routing.LoginReturnsToRequestedPage | pages/auth/LoginPage.tsx:16-22 | A signed-in visitor at the login page goes back to the page the guard had turned them away from. Without such a page they go to their role's home. |
| Routing.HomePage | components/layout/ProtectedRoute.tsx:47-51 | Each visitor's landing page suits that visitor. |
| Routing.RedirectTargets | components/layout/ProtectedRoute.tsx:25-51 | What the three redirect targets and the sign-up page show once loading is over, for a visitor who is signed out, a student, or an administrator. |
| Routing.RenderGuarded | components/layout/ProtectedRoute.tsx:25-51 | A guarded path with one allowed role sends a signed-out visitor to login, carrying the path. It shows the page to that role and sends any other role home. |
| Routing.EveryPathSettles | components/layout/ProtectedRoute.tsx:25-51 | Once loading is over, every path visited afresh reaches a page within two redirects. A path that redirects at all ends on the visitor's home page. A signed-out visitor sees only login, sign-up or not-found. A signed-in visitor never sees login or sign-up. A student never sees an admin page, and an administrator never sees a student page. |
| Routing.FollowTarget | components/layout/ProtectedRoute.tsx:47-51 | From a redirect target, one more redirect at most reaches the visitor's home page (the login page when signed out), provided a signed-in visitor carries no remembered location. |
| Routing.LoadingShowsSpinner | components/layout/ProtectedRoute.tsx:21-23 | While loading, every guarded path shows the spinner, whoever the visitor. |
| Routing.AdminAtRootBranchUnused | components/layout/ProtectedRoute.tsx:37-40 | No path that admits administrators is `/` or `/dashboard`, so the admin-at-root branch never fires. |
| SignupPage.ValidatePassword | pages/auth/SignupPage.tsx:23-26 | A password is accepted exactly when it has at least 8 characters, with at least one ASCII letter, one digit and one of `@$!%*#?&`, and no other character. |
| SignupPage.RejectsOtherCharacters | pages/auth/SignupPage.tsx:24 | Any character outside the letters, digits and `@$!%*#?&` means rejection. |
| SignupPage.RejectsShort | pages/auth/SignupPage.tsx:24 | A password shorter than 8 is rejected. |
| SignupPage.SignupForm.constructor | pages/auth/SignupPage.tsx:12-13 | The form starts with no error and not busy. |
| SignupPage.SignupForm.HandleSubmit | pages/auth/SignupPage.tsx:28-49 | A mismatch is reported first, then a weak password; in both cases the session and the store are untouched. When both checks pass, the store signs up. Success goes to `/dashboard` with that user signed in and both keys stored. Failure shows the store's message and leaves the user and storage as they were. The session's own loading flag is never touched. After a sign-up attempt the busy flag is off; a rejected form leaves it as it was. |
| AdminDashboard.OtherCourseIgnored | pages/admin/AdminDashboard.tsx:48-53 | A review of another course changes neither this course's total nor its count. |
| AdminDashboard.UnreviewedCourse | pages/admin/AdminDashboard.tsx:44-53 | A course nobody reviewed has total 0 and count 0. |
| AdminDashboard.TotalWithinBounds | pages/admin/AdminDashboard.tsx:48-53 | With ratings from 1 to 5, a course's total lies between its count and five times its count. |
| AdminDashboard.Truncate | pages/admin/AdminDashboard.tsx:56 | A name of at most 15 characters is kept. A longer one becomes its first 15 characters followed by `...`. |
| AdminDashboard.TruncateBounds | pages/admin/AdminDashboard.tsx:56 | A label has at most 18 characters and starts with the name's first characters. |
| AdminDashboard.Average | pages/admin/AdminDashboard.tsx:57 | The average is 0 without reviews. Otherwise it is the exact mean: average times count equals total. |
| AdminDashboard.ChartSpecEntries | pages/admin/AdminDashboard.tsx:55-58 | Each bar has the truncated course name. An unreviewed course's bar is 0, and any other bar is that course's mean rating. |
| AdminDashboard.CourseRatings | pages/admin/AdminDashboard.tsx:43-53 | The two loops give a tally for exactly the course ids. Each tally is the sum and the count of that course's ratings, and reviews of unknown courses are skipped. |
| AdminDashboard.ChartData | pages/admin/AdminDashboard.tsx:55-58 | One bar per course, in course order, each the truncated name and the average of its tally. |
| AdminDashboard.DashboardPage.constructor | pages/admin/AdminDashboard.tsx:22-24 | Zero counts, an empty chart, loading. |
| AdminDashboard.DashboardPage.FetchData | pages/admin/AdminDashboard.tsx:35-70 | The counts are the three array lengths, the chart is the specified chart, and loading ends. |
| Sorting.SortDesc | pages/admin/AdminFeedbackPage.tsx:26 | The sorted list is ordered newest first and is a permutation of the input. |
| Sorting.SortDescStable | pages/admin/AdminFeedbackPage.tsx:26 | Records with the same timestamp keep their input order. |
| Sorting.SortDescOfSorted | pages/admin/AdminFeedbackPage.tsx:26 | A list already in order is left exactly as it is. |
| Sorting.SortDescIdempotent | pages/admin/AdminFeedbackPage.tsx:26 | Sorting twice is sorting once. |
| AdminFeedback.LoadFeedback | pages/admin/AdminFeedbackPage.tsx:25-26 | The loaded list is ordered newest first and holds each stored review exactly as often as the store does. |
| AdminFeedback.LoadFeedbackStable | pages/admin/AdminFeedbackPage.tsx:26 | Reviews with equal timestamps keep store order. |
| AdminFeedback.Matches | pages/admin/AdminFeedbackPage.tsx:38-44 | With no filter set every review passes. A rating filter that does not parse passes nothing. A course filter passes only that course's reviews. |
| AdminFeedback.FilterFeedback | pages/admin/AdminFeedbackPage.tsx:38-44 | A review is kept exactly when every non-empty filter matches: the same course id, a rating equal to the parsed filter, and the case-insensitive student name containing the filter. Order is kept, and each matching review is kept as often as it occurs. |
| AdminFeedback.NoFiltersKeepAll | pages/admin/AdminFeedbackPage.tsx:38-44 | With all three filters empty the list is unchanged. |
| AdminFeedback.RatingFilterSelects | pages/admin/AdminFeedbackPage.tsx:41 | The filter for the rating `n` written in decimal keeps exactly the reviews rated `n`. |
| AdminFeedback.UnparsableRatingShowsNothing | pages/admin/AdminFeedbackPage.tsx:41 | A rating filter with no leading digits (`NaN`) shows nothing. |
| AdminFeedback.StudentFilterIgnoresCase | pages/admin/AdminFeedbackPage.tsx:42 | The student filter keeps the same reviews whatever the case of its letters. |
| AdminFeedback.FilteredStaysNewestFirst | pages/admin/AdminFeedbackPage.tsx:26-44 | The filtered list is still newest first. |
| Text.ParseIntOfIntToString | pages/admin/AdminFeedbackPage.tsx:41 | The decimal rendering of an integer parses back to that integer. |
| AdminFeedback.ClampIndex | pages/admin/AdminFeedbackPage.tsx:48 | A slice index is clamped as `Array.prototype.slice` clamps it: negative counts from the end, and anything past the end is the length. |
| AdminFeedback.Slice | pages/admin/AdminFeedbackPage.tsx:48 | For `0 <= start <= end`, the slice is the window between the two indices, cut at the length. |
| AdminFeedback.PageOf | pages/admin/AdminFeedbackPage.tsx:46-49 | A page holds at most 10 reviews. |
| AdminFeedback.PageIsWindow | pages/admin/AdminFeedbackPage.tsx:46-49 | Page `p` is the window from `(p-1)*10` to `p*10` of the filtered list. |
| AdminFeedback.TotalPages | pages/admin/AdminFeedbackPage.tsx:51 | The page count is the ceiling of `n/10`, and it is zero exactly for an empty list. |
| AdminFeedback.PagesUpToIsPrefix | pages/admin/AdminFeedbackPage.tsx:167-168 | The first `k` pages, joined, are the first `10k` reviews. |
| AdminFeedback.PagesCoverList | pages/admin/AdminFeedbackPage.tsx:46-51 | Pages `1` to `totalPages`, joined, are the whole filtered list. |
| AdminFeedback.PageBeyondLastIsEmpty | pages/admin/AdminFeedbackPage.tsx:46-51 | A page past the last one is empty. |
| AdminFeedback.DoubleQuotes | pages/admin/AdminFeedbackPage.tsx:55 | A message without a double quote is unchanged, and no message gets shorter. |
| AdminFeedback.UndoubleDoubleQuotes | pages/admin/AdminFeedbackPage.tsx:55 | Collapsing doubled quotes recovers the message, so the escaping loses nothing (section 2, rule 7 of RFC 4180). |
| AdminFeedback.QuoteField | pages/admin/AdminFeedbackPage.tsx:55 | The message field starts and ends with a quote, and its inside decodes back to the message. |
| AdminFeedback.RowFields | pages/admin/AdminFeedbackPage.tsx:55 | A row has the six columns in header order. Only the message is quoted; the rating is its decimal rendering, and the date column is the ISO rendering of the timestamp. |
| AdminFeedback.RatingFieldParses | pages/admin/AdminFeedbackPage.tsx:55 | The rating column parses back to the rating. |
| AdminFeedback.CsvRows | pages/admin/AdminFeedbackPage.tsx:55 | One row per filtered review, in list order. |
| AdminFeedback.CsvContent | pages/admin/AdminFeedbackPage.tsx:54-57 | The file starts with the header line. With no reviews it is the header alone; otherwise a line break follows the header. |
| AdminFeedback.CsvDataUri | pages/admin/AdminFeedbackPage.tsx:57 | The address starts with `data:text/csv;charset=utf-8,`, and what follows is exactly the file's text. |
| AdminFeedback.HeaderIsOneLine | pages/admin/AdminFeedbackPage.tsx:54 | The header line has no line break. |
| AdminFeedback.RowIsOneLine | pages/admin/AdminFeedbackPage.tsx:55-57 | A review with no line break in its fields gives a row with no line break. |
| AdminFeedback.RowsAreLineFree | pages/admin/AdminFeedbackPage.tsx:55-57 | No row of such reviews has a line break. |
| AdminFeedback.CsvLines | pages/admin/AdminFeedbackPage.tsx:54-57 | When no field holds a line break, the file splits at `\n` into the header followed by exactly one line per review: `n+1` lines. |
| AdminFeedback.WithoutId | pages/admin/AdminFeedbackPage.tsx:68 | The selection without the id keeps every other id. |
| AdminFeedback.Toggle | pages/admin/AdminFeedbackPage.tsx:66-70 | A selected id is removed, with every other id kept. An unselected id is appended. |
| AdminFeedback.ToggleTwice | pages/admin/AdminFeedbackPage.tsx:66-70 | Toggling an id twice gives back the same set of selected ids. |
| AdminFeedback.ToggleKeepsOthers | pages/admin/AdminFeedbackPage.tsx:66-70 | Toggling one id never changes whether another id is selected. |
| AdminFeedback.SelectedRecords | pages/admin/AdminFeedbackPage.tsx:73-74 | The records chosen are exactly the loaded reviews whose id is selected. They keep the loaded order, and each selected review appears as often as it is loaded. |
| AdminFeedback.MessagesToSummarize | pages/admin/AdminFeedbackPage.tsx:73-75 | The list is empty exactly when no loaded review is selected. It has one message per chosen record, position by position. |
| AdminFeedback.MessagesInListOrder | pages/admin/AdminFeedbackPage.tsx:73-75 | The messages follow the loaded order: a list's messages are its head's message, when the head is selected, followed by the messages of the rest. |
| AdminFeedback.TwoSelectedInOrder | pages/admin/AdminFeedbackPage.tsx:73-75 | Two selected reviews send their messages in the order the reviews are loaded. |
| AdminFeedback.SummarizeSendsSelected | pages/admin/AdminFeedbackPage.tsx:73-75 | Every selected review's message is sent, and only messages of selected reviews are sent. |
| AdminFeedback.FeedbackReview.constructor | pages/admin/AdminFeedbackPage.tsx:17-19 | Nothing is selected, the summary is empty, and no summary is running. |
| AdminFeedback.FeedbackReview.SelectFeedback | pages/admin/AdminFeedbackPage.tsx:66-70 | The selection becomes its toggle, and the summary state is kept. |
| AdminFeedback.FeedbackReview.SelectPage | pages/admin/AdminFeedbackPage.tsx:140 | Checking the header box selects exactly the ids of the current page, in page order. Unchecking it clears the selection. |
| AdminFeedback.FeedbackReview.HandleSummarize | pages/admin/AdminFeedbackPage.tsx:72-93 | The summary is requested exactly when a selected review is loaded; otherwise nothing changes. A request ends not running, with the reply or the failure text. |
| StudentDashboard.RatingSumBounds | pages/student/StudentDashboard.tsx:98 | With ratings from 1 to 5, the total lies between the count and five times the count. |
| StudentDashboard.StatsOf | pages/student/StudentDashboard.tsx:94-103 | Reviewed is the list length, total is the course count, and pending is their difference. The average is missing (`N/A`) exactly without reviews, and is otherwise the exact mean rating. |
| StudentDashboard.AverageWithinStars | pages/student/StudentDashboard.tsx:97-99 | With ratings from 1 to 5, the average lies between 1 and 5. |
| StudentDashboard.AvailableCourses | pages/student/StudentDashboard.tsx:105-108 | The courses offered are exactly those no review in the list names, in course order, each as often as it occurs in the catalogue. |
| StudentDashboard.NothingReviewedAllAvailable | pages/student/StudentDashboard.tsx:105-108 | A student with no reviews is offered every course. |
| StudentDashboard.ReviewedIdsCount | pages/student/StudentDashboard.tsx:106 | With one review per course, the set of reviewed ids is as large as the list. |
| StudentDashboard.AvailableCount | pages/student/StudentDashboard.tsx:107 | Leaving out a set of existing, distinct course ids removes exactly that many courses. |
| StudentDashboard.PendingIsAvailableCount | pages/student/StudentDashboard.tsx:100 | When every reviewed course exists, ids are distinct and each course is reviewed once, the pending count equals the number of courses offered. |
| StudentDashboard.StudentReviewsOnePerCourse | services/mockApiService.ts:166-169 | In a store with one review per pair, a student's own reviews name each course at most once. |
| StudentDashboard.ImageFor | pages/student/StudentDashboard.tsx:40-54 | The image address starts with the Unsplash base. |
| StudentDashboard.ImageForTags | pages/student/StudentDashboard.tsx:53 | The address's comma-separated tags are the chosen rule's keywords, followed by the stripped course name. |
| StudentDashboard.DashboardPage.constructor | pages/student/StudentDashboard.tsx:61-63 | No reviews, no courses, loading. |
| StudentDashboard.DashboardPage.FetchStudentData | pages/student/StudentDashboard.tsx:66-81 | Without a user nothing changes. Otherwise the list is the student's own reviews, newest first; the courses are the catalogue; and loading ends. |
| StudentDashboard.ReviewedCountAfterFetch | pages/student/StudentDashboard.tsx:74-95 | After fetching, the reviewed count is the number of the student's reviews in the store. |
| StudentDashboard.AvailableIgnoresOrder | pages/student/StudentDashboard.tsx:105-108 | Sorting the list does not change which courses are offered. |
| CourseImages.FirstMatch | pages/student/StudentDashboard.tsx:43-48 | The chosen rule's needle occurs in the name and no earlier rule's does. No rule is chosen exactly when no needle occurs. |
| CourseImages.Keywords | pages/student/StudentDashboard.tsx:42-48 | The keywords are those of the first rule whose needle occurs in the lowercased name, or the default `technology,learning,code`. |
| CourseImages.FirstMatchAppendHit | pages/student/CoursesPage.tsx:25-33 | Rules added after the existing ones never change a name an existing rule matches. |
| CourseImages.FirstMatchAppendMiss | pages/student/CoursesPage.tsx:25-33 | A name no existing rule matches is decided by the added rules. |
| CourseImages.SpecificKeywords | pages/student/StudentDashboard.tsx:51 | The name-derived tags have no space, no capital and no outer blank, and are no longer than the name. |
| CourseImages.SpecificOfPlainName | pages/student/StudentDashboard.tsx:51 | A name with none of the filler phrases becomes its trimmed lowercase self, with commas for spaces. |
| CourseImages.RemovePhrasesLowerCase | pages/student/StudentDashboard.tsx:51 | Deleting phrases from a lowercase name leaves it lowercase. |
| CourseImages.ImageUrl | pages/student/StudentDashboard.tsx:53 | Every address starts with `https://source.unsplash.com/400x300/?`. |
| CourseImages.ImageUrlTags | pages/student/StudentDashboard.tsx:53 | The query's comma-separated tags are the keyword tags followed by the name tags. |
| CoursesPage.FilterCourses | pages/student/CoursesPage.tsx:78-86 | An empty term returns the list as it is. Otherwise a course is kept exactly when its lowercased name or description contains the lowercased term. Order is kept, and each matching course is kept as often as it occurs. |
| CoursesPage.EmptyTermShortcut | pages/student/CoursesPage.tsx:79 | The empty-term shortcut returns what the full filter would. |
| CoursesPage.SearchIgnoresCase | pages/student/CoursesPage.tsx:81-85 | The search gives the same courses whatever the case of the term. |
| CoursesPage.ImageFor | pages/student/CoursesPage.tsx:21-38 | The image address starts with the Unsplash base. |
| CoursesPage.CatalogExtendsDashboard | pages/student/CoursesPage.tsx:23-35 | The catalogue's rules are the dashboard's six rules followed by three more. Its filler phrases begin with the dashboard's three. |
| CoursesPage.KeywordsAgreeOnSharedRules | pages/student/CoursesPage.tsx:23-33 | The two copies choose the same keywords for a name one of the six shared rules matches. For any other name the dashboard uses the default, and the catalogue decides by its three extra rules. |
| CoursesPage.ImageForTags | pages/student/CoursesPage.tsx:37 | The address's tags are the chosen keywords followed by the stripped course name. |
| CoursesPage.CopiesDiffer | pages/student/CoursesPage.tsx:31 | For the name "design", the dashboard picks the default keywords while the catalogue picks the design keywords. |
| AdminUsers.VisibleUsers | pages/admin/AdminUsersPage.tsx:57 | The list holds every user but the signed-in one, each as often as in the store, newest first. |
| AdminUsers.VisibleUsersStable | pages/admin/AdminUsersPage.tsx:57 | Users who joined at the same moment keep store order. |
| AdminUsers.FilterUsers | pages/admin/AdminUsersPage.tsx:95-100 | A user is kept exactly when the lowercased term occurs in the lowercased name or e-mail. Order is kept, and each matching user is kept as often as it occurs. |
| AdminUsers.EmptySearchKeepsAll | pages/admin/AdminUsersPage.tsx:95-100 | An empty search keeps everyone. |
| AdminUsers.BlockToggle | pages/admin/AdminUsersPage.tsx:83 | The update sends the negation of the flag as the dialog saw it. |
| AdminUsers.BlockToggleFlipsOnlyTheFlag | pages/admin/AdminUsersPage.tsx:83 | Applying the toggle flips the blocked flag and keeps every other field. |
| AdminUsers.BlockToggleTwice | pages/admin/AdminUsersPage.tsx:82-83 | Confirming the toggle twice restores the record: block and unblock are one action. |
| AdminUsers.BlockingLocksOut | pages/admin/AdminUsersPage.tsx:82-83 | With unique e-mails, blocking a user who was not blocked makes every later login with their e-mail fail. |
| AdminUsers.ContentOf | pages/admin/AdminUsersPage.tsx:102-128 | Without a user or an action the dialog is empty. The block dialog's button reads "Unblock" for a blocked user and "Block" otherwise, and its title names the same word. The delete dialog's button reads "Delete". |
| AdminUsers.ButtonSaysWhatToggleDoes | pages/admin/AdminUsersPage.tsx:107-115 | The button reads "Unblock" exactly when confirming unblocks, and "Block" exactly when confirming blocks. |
| AdminUsers.Initials | pages/admin/AdminUsersPage.tsx:173 | The initials are at most two characters, with no lowercase ASCII letter. |
| AdminUsers.FirstLetters | pages/admin/AdminUsersPage.tsx:173 | The word initials are never more than the words; an empty word adds nothing. |
| AdminUsers.InitialsOfOneWord | pages/admin/AdminUsersPage.tsx:173 | A one-word name gives its first letter, uppercased. |
| AdminUsers.InitialsOfLeadingWords | pages/admin/AdminUsersPage.tsx:173 | When the first two words are not empty, the initials are their first letters, uppercased. |
| AdminUsers.InitialsOfTwoWords | pages/admin/AdminUsersPage.tsx:173 | "First Last" gives the two first letters, uppercased. |
| AdminUsers.InitialsIgnoreLaterWords | pages/admin/AdminUsersPage.tsx:173 | Words after the second never change the initials. |
| AdminUsers.UsersPage.constructor | pages/admin/AdminUsersPage.tsx:42-50 | An empty list, loading, and a closed dialog. |
| AdminUsers.UsersPage.FetchUsers | pages/admin/AdminUsersPage.tsx:52-64 | With a signed-in user, the list becomes everyone else, newest first. Without one, the list is kept. Loading ends either way. |
| AdminUsers.UsersPage.OpenModal | pages/admin/AdminUsersPage.tsx:70-72 | The dialog opens for that user and action. Nothing else changes. |
| AdminUsers.UsersPage.CloseModal | pages/admin/AdminUsersPage.tsx:74-76 | The dialog closes. Nothing else changes. |
| AdminUsers.UsersPage.HandleConfirmAction | pages/admin/AdminUsersPage.tsx:78-93 | Without a user and an action nothing happens. Block sends the flipped flag of the user as the dialog saw it; delete removes that id. The list is refetched unless the store refused, and the refetch ends loading; a refused block leaves loading as it was. The dialog closes, and courses and reviews are untouched. |
| AdminUsers.DeletedUserLeavesList | pages/admin/AdminUsersPage.tsx:85-87 | After a delete, the refetched list is exactly the earlier users other than the signed-in and the deleted one. |

## Left out

- Latency (`simulateDelay`) and concurrency are not modelled. Each `await` of the store is one atomic step, and the `Promise.all` fetches read the store once, in one state.
- Clock and randomness are parameters, not modelled. `Date.now()` and `new Date()` are the `idStamp`, `now` and `loadTime` parameters, and the CSV date column's `toISOString` is an `isoDate` function parameter.
- Timestamps are integers (milliseconds) where the source stores ISO strings. The newest-first order is the same.
- The summary service (`geminiService.ts`) is not part of this model. Its reply is a parameter of `HandleSummarize`, and `None` stands for a thrown error.
- Number formatting is not modelled. Averages are exact reals, so `toFixed(1)` and `toFixed(2)` rounding and `parseFloat` are left out. Floating point is outside the model.
- The CSV download is not modelled: the DOM link, `encodeURI` and the file name. `CsvDataUri` is just the data-URI prefix plus the content.
- The CSV's unquoted fields are not escaped, and neither is the header. A student or course name with a comma or a quote shifts the columns. The model states the rows as the source builds them, and `CsvLines` assumes no field holds a line break.
- Text handling is ASCII-only. `toLowerCase` and `toUpperCase` map ASCII letters only, and `length` counts characters rather than UTF-16 code units.
- `Text.ParseInt` does not model `parseInt`'s hexadecimal `0x` prefix. Such a filter reads as 0.
- The search debounce in the courses page (`useDebounce`) is not modelled. The filter is applied to the term directly.
- Toasts, `alert`, `window.confirm`, the theme, and all JSX layout and styling are outside the model.
- React Router's percent-decoding of paths, the `replace` flag of `Navigate`, and the catch-all's nesting inside the layout route are not modelled.
- The login page's `navigate` after a successful form submission is not modelled. Its redirect effect for a visitor already signed in is.
- The NotFound, Profile, CourseDetail and AdminCourses pages, the login page apart from its redirect effect, the header, sidebar and layout, and `getYouTubeEmbedUrl` are not part of this model. The model only shows which page a path renders.
- The `catch` branch of `initializeAuth` is unreachable here: the store's `getUserById` never throws.
- The `catch` branches of the page fetches are unreachable for the same reason: the mock store never throws on reads.
- The "Failed to generate summary." branch of `handleSummarize` cannot fire through `summarizeFeedback` as written. That function returns its own messages for a missing key or an empty list, and catches the service's errors itself (`geminiService.ts:34-39`, `:59-62`). The model keeps the branch as the `None` reply.
- The `courseRatings` object is a map. `Object.prototype` keys such as `constructor` are not modelled.
- In-place aliasing is not modelled. `updateUserProfile` and `updateFeedback` return the stored object itself; the model returns a copy of the record, and returned arrays are values.
- AdminUsers.UsersPage.HandleConfirmAction: the refetch is not awaited in the source, and the dialog closes at once. The model performs the refetch before closing the dialog.
- StudentDashboard.StatsOf: `averageRating` is the exact mean, not the one-decimal string the page shows.
- AdminDashboard.Average: the exact mean, not the two-decimal rounding of `toFixed(2)` and `parseFloat`.
