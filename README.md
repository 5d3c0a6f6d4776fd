# Flight-school back end and route guards, modelled in Dafny

This project models the core of a multi-tenant flight-school system. The system is a Node/Express back end over a relational store, plus a Next.js front end. The model covers:

- **Scheduling** (`scheduling.dfy`, `scheduling_service.dfy`):
  - instructor availability slots;
  - booking creation, guarded by the instructor conflict check;
  - the role-keyed booking status table, with its ownership rules;
  - booking lookup scoped by tenant;
  - the paginated booking list;
  - the weekly schedule grouped by date.
- **Audit log** (`audit.dfy`): the fire-and-forget `log` with its defaulting of absent fields, and the filtered, newest-first, paginated `getAuditLogs`.
- **Quizzes** (`quizzes.dfy`):
  - creating a quiz, which replaces any earlier quiz of the lesson;
  - scoring an attempt and its 60 % pass rule;
  - listing a student's attempts.
- **Feature flags** (`features.dfy`): the per-tenant flag map, its cache, `isEnabled` and the upserting `setFlag`.
- **Accounts** (`auth.dfy`): registration with its role clamp, login with its order of refusals, refresh-token rotation, and logout.
- **Middleware** (`tenancy.dfy`, `rbac.dfy`, `errors.dfy`): tenant resolution, the cross-tenant guard, the role gates, and the error-to-HTTP-answer mapping.
- **Front-end route guards** (`proxy.dfy`, `edge_middleware.dfy`): the two request filters of the Next.js app.

`store.dfy` states the store queries the services rely on as functions over sequences, together with their laws:

- `findFirst` and `findMany` with a filter;
- `orderBy` on two keys;
- `skip`/`take`, `count`;
- the page count.

`common.dfy` holds the shared vocabulary: roles, `Result`, JavaScript truthiness and the `x || default` idiom. `text.dfy` holds `join`/`split` on a separator.

Objects that the source updates in place are classes whose fields are the tables they own: `Scheduling.Service`, `Audit.AuditLog`, `Quizzes.QuizStore`, `Features.FeatureStore`, `Auth.AuthStore` and `Tenancy.Request`. Their methods state the whole new state and keep a `Valid()` invariant: unique keys, ids below the id counter, and a coherent cache. Pure decisions are functions, and lemmas relate them.

Representation choices:

- Ids are natural numbers drawn from a per-store counter.
- Calendar dates are day numbers and times of day are minutes. The zero-padded `"HH:MM"` strings of the source compare in the same order.
- The clock is a `now` parameter.
- Password hashing, hash comparison, JWT signing and JWT verification are parameters: the hash, a comparison predicate, a verification predicate, and the signed strings.
- A failing audit write is a `storeFails` / `auditFails` flag.

The model follows the code, including where it departs from what a reader might expect:

- E-mail addresses are unique across all users, not per tenant: `register` and `login` look users up by e-mail alone.
- `register` sets no tenant on the new user. By `Tenancy.TenantlessUserRefused`, such a user is then refused on every tenant a header names.
- The following look only at the instructor, date and times, never at the tenant:
  - the conflict check `hasConflict`;
  - the duplicate-slot check of `setAvailability`;
  - the ownership check of `deleteAvailability`.
- The value of the `x-tenant-id` header is looked up as a tenant **slug**, exactly like `x-tenant-slug`.
- Nothing stops a status change on a COMPLETED or CANCELLED booking. An ADMIN may set a cancelled booking back to APPROVED or ASSIGNED, which can break the no-overlap invariant (`Scheduling.ReviveBreaksNoOverlap`).

## Model

| member | source | states |
|---|---|---|
| Common.DefaultTwice | apps/backend/src/modules/scheduling/scheduling.service.js:69 | a caller's own `correlationId \|\| 'system'` followed by the audit log's own default stores the same value as defaulting once |
| Common.NullIsCanonical | apps/backend/src/modules/audit/audit.service.js:27-36 | `x \|\| null` keeps the truthiness of `x`, never stores an empty string, is idempotent, and defaulting after it is defaulting the original |
| Store.FindFirst | apps/backend/src/modules/scheduling/scheduling.service.js:45-46 | the result is the index of the first matching row; it is absent exactly when no row matches |
| Store.Filter | apps/backend/src/modules/scheduling/scheduling.service.js:82-84 | a row is selected iff it is in the table and satisfies the where-condition; the selection is no longer than the table |
| Store.FilterAppend | apps/backend/src/modules/quizzes/quizzes.service.js:94-97 | a new row shows in a query exactly when it satisfies the condition, after the older rows |
| Store.FilterNone | apps/backend/src/modules/scheduling/scheduling.service.js:177-182 | a query that no row satisfies returns nothing |
| Store.FilterIdempotent | apps/backend/src/modules/auth/auth.service.js:150-154 | filtering a filtered table with the same condition changes nothing |
| Store.FilterCongruent | apps/backend/src/modules/scheduling/scheduling.service.js:160-166 | two where-conditions that agree on every row select the same rows |
| Store.FilterCount | apps/backend/src/modules/quizzes/quizzes.service.js:94-97 | a query keeps every copy of a matching row and no copy of another, so it is a sub-multiset of the table |
| Store.FilterNoDup | apps/backend/src/modules/scheduling/scheduling.service.js:168-182 | a query over a table without duplicates has no duplicates |
| Store.Insert | apps/backend/src/modules/scheduling/scheduling.service.js:89 | inserting into an ordered list keeps it ordered and adds exactly that row |
| Store.FilterSorted | apps/backend/src/modules/scheduling/scheduling.service.js:168-182 | a query over an ordered list stays ordered |
| Store.SortBy | apps/backend/src/modules/scheduling/scheduling.service.js:89 | `orderBy` on two keys returns a permutation of the rows, in ascending key order |
| Store.Window | apps/backend/src/modules/scheduling/scheduling.service.js:76-84 | `skip`/`take` returns `min(take, len - skip)` rows, the i-th being row `skip + i` |
| Store.WindowSorted | apps/backend/src/modules/scheduling/scheduling.service.js:83-89 | a window of an ordered list is ordered |
| Store.PageOfQuery | apps/backend/src/modules/scheduling/scheduling.service.js:82-92 | a page of a filtered, ordered query is ordered, holds at most `take` rows, and holds only table rows that satisfy the filter |
| Store.EveryRowOnItsPage | apps/backend/src/modules/audit/audit.service.js:45-54 | with `skip = (page - 1) * limit` and `take = limit`, row `i` of the ordered result appears at position `i % limit` of page `i / limit + 1`, and that page is within the page count |
| Store.PageCount | apps/backend/src/modules/audit/audit.service.js:61 | the page count is `ceil(total / limit)`: just enough pages of `limit` rows to hold `total` |
| Store.Paginate | apps/backend/src/modules/scheduling/scheduling.service.js:94 | the pagination block echoes total, page and limit, and its page count is the ceiling |
| Audit.SortedIsNewestFirst | apps/backend/src/modules/audit/audit.service.js:55 | ascending order on the negated creation time is `createdAt` descending |
| Audit.Normalise | apps/backend/src/modules/audit/audit.service.js:23-38 | a stored entry always has a correlation id and never an empty optional field |
| Audit.NormaliseKeeps | apps/backend/src/modules/audit/audit.service.js:26-37 | tenant, action and entity are stored as given; optional fields survive iff truthy; the correlation id defaults to `system`; normalising twice is normalising once |
| Audit.AuditLog.Log | apps/backend/src/modules/audit/audit.service.js:23-42 | a failing write is swallowed and leaves the log unchanged; otherwise exactly the normalised entry is appended |
| Audit.AuditLog.GetAuditLogs | apps/backend/src/modules/audit/audit.service.js:44-62 | defaults page 1, limit 20; the entries returned are exactly the window `skip = (page - 1) * limit`, `take = limit` of the tenant's entries matching user and action (when truthy), ordered newest first; the total counts every matching entry; the page count is its ceiling |
| Scheduling.HasConflict | apps/backend/src/modules/scheduling/scheduling.service.js:37-47 | true iff some other booking of the instructor on that date is REQUESTED, APPROVED or ASSIGNED and overlaps the half-open interval |
| Scheduling.BackToBackNeverConflicts | apps/backend/src/modules/scheduling/scheduling.service.js:42-43 | a booking that ends when the candidate starts, or starts when it ends, never conflicts |
| Scheduling.InactiveNeverConflicts | apps/backend/src/modules/scheduling/scheduling.service.js:41 | COMPLETED and CANCELLED bookings never cause a conflict |
| Scheduling.ExcludeSelf | apps/backend/src/modules/scheduling/scheduling.service.js:44 | with a booking's own id excluded, the booking does not conflict with itself |
| Scheduling.CreateKeepsNoOverlap | apps/backend/src/modules/scheduling/scheduling.service.js:50-64 | a booking created only after a clean conflict check keeps every instructor free of overlapping live bookings |
| Scheduling.Authorize | apps/backend/src/modules/scheduling/scheduling.service.js:114-124 | a status change is allowed iff the role's table lists the target and the actor owns the booking (ADMIN always owns); the role check answers first, with its own 403 message |
| Scheduling.PermissionIgnoresCurrentStatus | apps/backend/src/modules/scheduling/scheduling.service.js:114-124 | permission depends on role, target and ownership only, never on the current status |
| Scheduling.StudentOnlyCancelsOwn | apps/backend/src/modules/scheduling/scheduling.service.js:117-123 | a student may change a booking only to CANCELLED, and only their own |
| Scheduling.WhoMaySetWhat | apps/backend/src/modules/scheduling/scheduling.service.js:114-118 | APPROVED may be set by ADMIN alone; COMPLETED only by the booking's own instructor; REQUESTED by nobody |
| Scheduling.Apply | apps/backend/src/modules/scheduling/scheduling.service.js:126-135 | the new status is set; `assignedAt` is set iff the target is ASSIGNED; every other field is unchanged |
| Scheduling.UpdateKeepsNoOverlap | apps/backend/src/modules/scheduling/scheduling.service.js:110-135 | a permitted change of a live booking keeps the no-overlap invariant |
| Scheduling.ReviveBreaksNoOverlap | apps/backend/src/modules/scheduling/scheduling.service.js:114-135 | an ADMIN reviving a cancelled booking can create an overlap (concrete tables) |
| Scheduling.FindBooking | apps/backend/src/modules/scheduling/scheduling.service.js:97-107 | lookup by id within the tenant: the found booking has that id and tenant; absent iff none does |
| Scheduling.FindBookingIsolated | apps/backend/src/modules/scheduling/scheduling.service.js:97-105 | bookings of other tenants never affect the lookup |
| SchedulingService.DistinctIdsNoDup | apps/backend/src/modules/scheduling/scheduling.service.js:177-182 | a table with distinct booking ids has no duplicate rows |
| SchedulingService.GroupByDate | apps/backend/src/modules/scheduling/scheduling.service.js:177-182 | the grouped map has a key for exactly the dates present, and each day's list is the ordered bookings of that day, in order |
| SchedulingService.DayGroup | apps/backend/src/modules/scheduling/scheduling.service.js:168-182 | a day's group of the ordered query holds exactly the matching bookings of that day, is non-empty when there is one, is ordered by time, and has no duplicates when booking ids are distinct |
| SchedulingService.Service.SetAvailability | apps/backend/src/modules/scheduling/scheduling.service.js:6-15 | refused with 409 iff the same instructor/date/start/end slot already exists; otherwise exactly one slot is appended, with the next id |
| SchedulingService.Service.GetAvailability | apps/backend/src/modules/scheduling/scheduling.service.js:17-27 | returns exactly the tenant's slots, filtered by instructor and date when given, ordered by date and start time: as a multiset exactly the rows of the query, in key order |
| SchedulingService.Service.DeleteAvailability | apps/backend/src/modules/scheduling/scheduling.service.js:29-34 | 404 iff no slot has the id; 403 iff it belongs to another instructor; otherwise exactly that slot is removed, and the table is the old one filtered by "id differs", other rows in their order |
| SchedulingService.Service.CreateBooking | apps/backend/src/modules/scheduling/scheduling.service.js:50-73 | 409 iff `hasConflict`, changing nothing; otherwise one REQUESTED booking is appended and one BOOKING_CREATED audit entry is logged unless the audit write fails; the no-overlap invariant is kept |
| SchedulingService.Service.GetBookingById | apps/backend/src/modules/scheduling/scheduling.service.js:97-107 | returns the tenant's booking with that id, or 404 iff none exists |
| SchedulingService.Service.UpdateBookingStatus | apps/backend/src/modules/scheduling/scheduling.service.js:110-152 | 404 when not found in the tenant, then the 403s of the table and the ownership rule; otherwise the booking is updated as `Apply` says and one audit entry records before/after status, user and correlation id |
| SchedulingService.Service.GetBookings | apps/backend/src/modules/scheduling/scheduling.service.js:75-95 | defaults page 1, limit 10; the bookings returned are exactly the window `skip = (page - 1) * limit`, `take = limit` of the tenant's bookings scoped to the student or instructor by role and to the status when given, ordered by date and time; total counts all matches; the page count is its ceiling |
| SchedulingService.Service.GetWeeklySchedule | apps/backend/src/modules/scheduling/scheduling.service.js:155-185 | every listed booking is in the tenant's week `[start, start+7)`, visible to the caller and under its own date; every such booking is listed; each day is non-empty, ordered and duplicate-free |
| Quizzes.Mark | apps/backend/src/modules/quizzes/quizzes.service.js:59-69 | a result is correct iff the student's answer to that question equals its answer |
| Quizzes.CountCorrect | apps/backend/src/modules/quizzes/quizzes.service.js:58-62 | the score never exceeds the number of questions |
| Quizzes.CountCorrectIsFilter | apps/backend/src/modules/quizzes/quizzes.service.js:58-62 | the score is the number of correctly answered questions |
| Quizzes.FullMarks | apps/backend/src/modules/quizzes/quizzes.service.js:58-62 | full marks iff every question is answered correctly |
| Quizzes.Score | apps/backend/src/modules/quizzes/quizzes.service.js:57-70 | the loop's score is the number of correct answers, and its i-th result marks the i-th question |
| Quizzes.PassMark | apps/backend/src/modules/quizzes/quizzes.service.js:88 | the pass mark is the least score of at least 60 % of the questions |
| Quizzes.PassRule | apps/backend/src/modules/quizzes/quizzes.service.js:88 | passed iff `5 * score >= 3 * total` |
| Quizzes.PassMonotone | apps/backend/src/modules/quizzes/quizzes.service.js:88 | a higher score never turns a pass into a fail |
| Quizzes.MakeQuestions | apps/backend/src/modules/quizzes/quizzes.service.js:19-25 | the created questions carry the given texts, options and answers, in order, with fresh consecutive ids |
| Quizzes.QuizStore.CreateQuiz | apps/backend/src/modules/quizzes/quizzes.service.js:4-29 | 404 iff the lesson is unknown, changing nothing; otherwise the table is the other lessons' quizzes, in their old order, followed by the one new quiz, which is the lesson's only quiz |
| Quizzes.QuizStore.GetQuiz | apps/backend/src/modules/quizzes/quizzes.service.js:31-42 | returns the quiz with that id, or 404 iff none exists |
| Quizzes.QuizStore.AttemptQuiz | apps/backend/src/modules/quizzes/quizzes.service.js:45-91 | 404 iff no such quiz, storing nothing; otherwise exactly one attempt is stored, with score, total, results and pass flag as above |
| Quizzes.QuizStore.GetMyAttempts | apps/backend/src/modules/quizzes/quizzes.service.js:94-99 | exactly the user's attempts at that quiz, each once, newest first |
| Features.FoldFlags | apps/backend/src/modules/features/features.service.js:18-21 | the map's keys are exactly the flags' keys |
| Features.BuildFlagMap | apps/backend/src/modules/features/features.service.js:18-21 | the `reduce` loop builds the same map as the fold |
| Features.FoldFlagsUnique | apps/backend/src/modules/features/features.service.js:18-21 | with unique keys, each key maps to that flag's enabled flag and roles |
| Features.FlagMapOf | apps/backend/src/modules/features/features.service.js:17-21 | the tenant's map has exactly the keys of the tenant's flags |
| Features.FlagMapOfUnique | apps/backend/src/modules/features/features.service.js:17-21 | each key of the tenant's map shows that tenant's flag with that key |
| Features.Decide | apps/backend/src/modules/features/features.service.js:29-32 | off when the key is absent or disabled; on for everyone with an empty role list; otherwise on iff the role is listed |
| Features.DecideOnTable | apps/backend/src/modules/features/features.service.js:27-32 | the decision on the tenant's map is on iff some enabled flag of the tenant with that key has no roles or lists the role |
| Features.FeatureStore.GetFlags | apps/backend/src/modules/features/features.service.js:12-25 | a cached map is returned as is; otherwise the map is built from the tenant's flags and cached; either way it equals the tenant's map |
| Features.FeatureStore.IsEnabled | apps/backend/src/modules/features/features.service.js:27-33 | on iff the tenant has that key enabled with no role restriction or with the role listed |
| Features.FeatureStore.SetFlag | apps/backend/src/modules/features/features.service.js:35-43 | roles default to none; the tenant/key row is updated or created; the tenant's map now shows the write and nothing else changed; the cache is the old cache without the tenant's entry |
| Features.UpdateKeepsUnique | apps/backend/src/modules/features/features.service.js:36-40 | updating the row with that tenant/key keeps tenant/key pairs unique |
| Features.AppendKeepsUnique | apps/backend/src/modules/features/features.service.js:36-40 | creating a row for an absent tenant/key pair keeps the pairs unique |
| Features.OtherTenantUnchanged | apps/backend/src/modules/features/features.service.js:35-41 | a write for one tenant leaves every other tenant's map unchanged |
| Features.WriteShowsInTenantMap | apps/backend/src/modules/features/features.service.js:35-41 | after the upsert, the tenant's map is the old map with exactly that key set |
| Auth.ClampRole | apps/backend/src/modules/auth/auth.service.js:19-21 | self-registration never yields ADMIN; INSTRUCTOR iff asked for, otherwise STUDENT |
| Auth.LogoutIdempotent | apps/backend/src/modules/auth/auth.service.js:150-154 | logging out twice with a token leaves the same tokens as once |
| Auth.AuthStore.Register | apps/backend/src/modules/auth/auth.service.js:18-52 | 409 iff the e-mail is in use, changing nothing; otherwise one user is appended with the clamped role and no tenant, approved iff a student |
| Auth.AuthStore.Login | apps/backend/src/modules/auth/auth.service.js:54-101 | 401 for an unknown e-mail, then for a wrong password, then 403 when unapproved; otherwise one refresh token expiring 7 days later is stored and the session is returned |
| Auth.AuthStore.RefreshTokens | apps/backend/src/modules/auth/auth.service.js:103-148 | 401 when absent, unverifiable, unknown or expired, changing nothing; otherwise the presented token is replaced by a new one for the same user, expiring 7 days later |
| Auth.AuthStore.Logout | apps/backend/src/modules/auth/auth.service.js:150-154 | with a token, exactly the rows of that token are removed; without one nothing changes |
| Tenancy.HeaderPrecedence | apps/backend/src/middleware/tenant.middleware.js:16-17 | a tenant key is found iff either header is truthy, and a truthy `x-tenant-id` makes `x-tenant-slug` irrelevant |
| Tenancy.TenantMiddleware | apps/backend/src/middleware/tenant.middleware.js:4-25 | a user's tenant must exist and be active (403); otherwise a key header is required (400) and must name an active tenant by slug (404); on success that tenant is on the request, and isolation then passes for the user |
| Tenancy.EnforceTenantIsolation | apps/backend/src/middleware/tenant.middleware.js:28-34 | passes without a user or a tenant; otherwise refuses with 403 iff the user's tenant is not the request's tenant |
| Tenancy.TenantlessUserRefused | apps/backend/src/middleware/tenant.middleware.js:29-32 | a signed-in user without a tenant is refused on any tenant |
| Rbac.RequireRole | apps/backend/src/middleware/rbac.middleware.js:2-11 | 401 without a user; 403 naming the required roles and the user's role iff the role is not listed; passes otherwise |
| Rbac.AdmittedSets | apps/backend/src/middleware/rbac.middleware.js:13-15 | the admin gate admits ADMIN only; the instructor gate admits INSTRUCTOR and ADMIN; the student gate admits all three roles |
| Rbac.MoreRolesAdmitMore | apps/backend/src/middleware/rbac.middleware.js:4 | a gate on more roles admits everyone a gate on fewer roles admits |
| Rbac.GatesNested | apps/backend/src/middleware/rbac.middleware.js:13-15 | whoever passes the admin gate passes the instructor gate, and whoever passes that passes the student gate |
| Rbac.GateMessages | apps/backend/src/middleware/rbac.middleware.js:5-8 | the 403 messages of the admin and instructor gates, spelled out: the required roles joined by " or ", then the user's role |
| Text.SplitJoin | apps/backend/src/middleware/error.middleware.js:17 | splitting a joined path at the separator gives back the parts when none contains it |
| Errors.StatusOf | apps/backend/src/middleware/error.middleware.js:21 | the status is `status`, else `statusCode`, else 500, taking the first that is set |
| Errors.Details | apps/backend/src/middleware/error.middleware.js:17 | one detail per validation issue, in order: its field is the issue's path joined with dots, its message the issue's message |
| Errors.ErrorHandler | apps/backend/src/middleware/error.middleware.js:2-26 | P2002 gives 409 and P2025 gives 404; a ZodError gives 400 with details; otherwise the error's status and message, with the stack only in development |
| Errors.NotFoundNamesRoute | apps/backend/src/middleware/error.middleware.js:28-30 | the 404 answer's text, after its fixed prefix, splits back into the request's method and path |
| Errors.ServiceErrorsPassThrough | apps/backend/src/middleware/error.middleware.js:21-25 | an error a service raises with a status and a message reaches the client with that status and message |
| Errors.UniqueViolationAnswer | apps/backend/src/middleware/error.middleware.js:6-8 | a unique-constraint failure of the store is answered 409 "Record already exists" |
| Errors.DetailFieldsRecoverPaths | apps/backend/src/middleware/error.middleware.js:17 | each detail's field splits back into its issue's path |
| Proxy.Proxy | apps/frontend/proxy.ts:4-51 | public pages pass; `/` goes to the login or the dashboard; no token goes to login; `/dashboard` goes to the role's home; undecodable tokens go to login; every remaining page with a decodable token outside the admin and instructor areas passes |
| Proxy.AreaAccess | apps/frontend/proxy.ts:39-45 | with a decodable token, a path under `/admin` passes iff the role is ADMIN; a path under `/instructor` passes iff the role is INSTRUCTOR or ADMIN |
| Proxy.PrefixNotSegment | apps/frontend/proxy.ts:40 | the area check is a string prefix: `/administrator` also sends a student to login |
| Proxy.Guarded | apps/frontend/proxy.ts:53-55 | paths the matcher skips (`_next/static`, `_next/image`, `favicon.ico`, `api`) pass; every other path meets `Proxy` |
| Proxy.PagesMatched | apps/frontend/proxy.ts:53-55 | the login, register, root, dashboard and the three role homes are all matched paths |
| Proxy.MatcherScope | apps/frontend/proxy.ts:53-55 | every redirect target is a matched path, and a call under `/api` always passes |
| Proxy.RedirectsSettle | apps/frontend/proxy.ts:4-51 | no page redirects to itself, and following redirects settles within two steps |
| EdgeMiddleware.Middleware | apps/frontend/middleware.ts:12-30 | public pages pass without a token and redirect to the dashboard with one; any other page needs a token, else login; the rest passes |
| EdgeMiddleware.Guarded | apps/frontend/middleware.ts:32-34 | paths the matcher skips (`api`, `_next/static`, `_next/image`, `favicon.ico`) pass; every other path meets `Middleware` |
| EdgeMiddleware.MatcherScope | apps/frontend/middleware.ts:32-34 | a call under `/api` always passes, and every redirect target is a matched path |
| EdgeMiddleware.OneRedirectSettles | apps/frontend/middleware.ts:17-27 | the page a redirect leads to is not redirected again |
| EdgeMiddleware.AgreesWithProxyWithoutToken | apps/frontend/middleware.ts:12-30 | without a token, this filter and the proxy decide the same |
| EdgeMiddleware.DiffersFromProxyWithToken | apps/frontend/middleware.ts:17-22 | with a token, this filter sends `/login` to the dashboard, which the proxy lets through |

## Left out

- **Store layer.** The relational store is sequences of rows. These are not modelled:
  - relation includes and selects (the joined student/instructor summaries, the `user` of an audit entry);
  - timestamps such as `createdAt`, beyond an order standing in for them;
  - transactions.
- **Concurrent requests.** Each operation is one atomic step. The check-then-write races of `createBooking`, `setAvailability` and `register` between two concurrent requests are therefore not modelled.
- **Feature-flag cache.** The cache is a map inside the flag store. These are not modelled:
  - its 60-second expiry;
  - a cache read that fails and counts as a miss;
  - a delete that fails silently and leaves a stale map until it expires.
  The cache service itself is not part of this model.
- **Time and dates.** Date parsing, `toISOString` keys and `setDate(+7)` across daylight-saving changes are left out. Days are numbers, and a token lifetime is exactly 7 × 24 hours.
- **Cryptography.** bcrypt hashing and comparison, JWT signing and verification, and the front end's base64 decoding of the token payload are parameters.
- **Framework.** HTTP request and response objects, the `next(error)` hand-over of store exceptions inside the middleware, and console logging are left out.
- **Operations outside the core.** `getInstructors` and `getQuizAttempts` (quizzes.service.js:102-112) are read-only listings outside the modelled core. The controllers, routes, course and user modules, and the escalation worker are not part of this model.
- Quizzes.QuizStore.AttemptQuiz: the `percentage` field is a rounded floating-point value (NaN for a quiz without questions) and is not returned. `passed` is modelled exactly.
- Quizzes.QuizStore.CreateQuiz: the lesson's type is not checked. The code does not check it either, despite its comment.
- SchedulingService.Service.GetBookings: the status filter is a typed enumeration. The source passes any query string to the database, and a value outside the enumeration makes the query fail with a 500 instead of returning rows.
- SchedulingService.Service.UpdateBookingStatus: the status and role are typed enumerations. The source accepts any string, and any other string is refused with 403 because no role's table lists it.
- SchedulingService.Service.GetBookings: requires `page` and `limit` to be at least 1 when given. For `page` 0 the source passes a negative `skip` to the store, and for `limit` 0 it computes an infinite page count. Neither is modelled.
- Audit.AuditLog.GetAuditLogs: requires `page` and `limit` to be at least 1 when given, for the same reason.
- Errors.Details: a validation path holding numbers is taken as already rendered to text before joining.
- EdgeMiddleware.Middleware: the `roleRoutes` table (middleware.ts:6-10) is declared but never consulted by the code. It is declared here and unused as well.
