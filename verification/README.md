# Refresh-token sessions and query builders of a NestJS task-manager API

This project models, in Dafny, the core of a NestJS/Prisma back end for a
task manager (projects, sections, tasks, subtasks), and proves properties
of that model.

The main part is the **refresh-token session lifecycle**:

- `RefreshTokenIdsStorage` is a Redis-backed map from the key `user-<id>` to the id
  of the one refresh token the user may still exchange.
- `AuthenticationService` issues token pairs (`generateTokens`), signs users in
  with a password (`signIn`), signs them up (`signUp`), and rotates refresh tokens
  (`refreshTokens`: verify, load the user, validate the stored id, delete it, issue a new pair).
- `GoogleAuthenticationService.authenticate` finds or creates a user by Google id,
  bumps its login counter, and issues a pair.
- `AccountsController.delete` deletes the user row and then the user's refresh entry.

The store and the user table are classes whose methods update their fields.
The services hold references to them, so the store one service writes is the
store another reads. Signing is idealised as a perfect MAC: a token records
the key that signed it, and it verifies exactly when that key, its audience and
its issuer are the configured ones and the clock says it has not expired.
argon2 enters as the functions `hash` and `compare`, `randomUUID()` as a
`refreshTokenId` argument, Google's id-token verifier as a function
`verifyIdToken`, and the clock as `now` and `expired`.

Two smaller parts sit beside it:

- `SectionsService`, whose `update` moves a section to another project and
  re-points every task of the section with it. The section and task tables are
  fields of a class; each database write enters with a flag saying whether it fails.
- The **query builders** of `ChronoController.getTasks`, `TasksController`,
  `SubtasksController` and `ProjectsService.findAll`. They are modelled as the
  argument record each one hands to its (unmodelled) service, and the HTTP
  error each one raises.

The global validation pipe converts a query parameter to a number only when
it is bound on its own with a primitive type, as `ProjectsController.findAll`
binds `skip` and `take`. The fields of a query class, such as the chrono and
task queries, stay the numeric strings they arrived as. The model holds the
number such a string denotes. A test such as `query.skip ? … : …` is
JavaScript truthiness: the number 0 and the empty string are false, while
the string "0" is true. `SKIP_DEFAULT`, `TAKE_DEFAULT` and `MAX_TAKE` are used but not
defined in the query-params class, and the file of the `Priority` enum is
not part of this model. The model declares the three numbers and
`PRIORITY_VALUES` as constants whose values, and any relation between
them, are left open.

Two behaviours of the code are easy to get wrong, and the model states them as written:

- signUp returns the created user and issues no tokens.
- A Google sign-in whose new user collides with an existing email ends in
  Unauthorized, not Conflict. The catch block tests for Postgres' code
  `23505`, but the database client reports Prisma's `P2002`
  (`GoogleAuthentication.PrismaUniqueViolationIsUnauthorized`).

## Model

| member | source | states |
|---|---|---|
| RefreshTokenIds.DecimalString | src/iam/authentication/refresh-token-ids.storage.ts:46-48 | the `${id}` rendering of a numeric id is non-empty, single-digit exactly for ids below 10, and ends in the id's last decimal digit |
| RefreshTokenIds.DecimalStringInjective | src/iam/authentication/refresh-token-ids.storage.ts:46-48 | two ids with the same decimal rendering are equal (by induction on the digits) |
| RefreshTokenIds.Key | src/iam/authentication/refresh-token-ids.storage.ts:46-48 | a user's key is `user-` followed by at least one more character |
| RefreshTokenIds.KeyInjective | src/iam/authentication/refresh-token-ids.storage.ts:46-48 | getKey is injective: two users with the same key are the same user |
| RefreshTokenIds.InsertThenValidate | src/iam/authentication/refresh-token-ids.storage.ts:26-35 | after insert(u, t) the user's entry is t and validate(u, t) succeeds |
| RefreshTokenIds.InsertOverwrites | src/iam/authentication/refresh-token-ids.storage.ts:26-34 | after insert(u, t1) then insert(u, t2), with t1 ≠ t2, validate(u, t1) throws and validate(u, t2) succeeds |
| RefreshTokenIds.AbsentNeverValidates | src/iam/authentication/refresh-token-ids.storage.ts:30-34 | with no entry for u, validate throws whatever id (or no id) is presented |
| RefreshTokenIds.InvalidateThenValidateFails | src/iam/authentication/refresh-token-ids.storage.ts:42-44 | after invalidate(u) the entry is gone and validate(u, t) throws for every t |
| RefreshTokenIds.InvalidateIdempotent | src/iam/authentication/refresh-token-ids.storage.ts:42-44 | invalidating twice leaves the same keyspace as invalidating once |
| RefreshTokenIds.OtherUsersUnaffected | src/iam/authentication/refresh-token-ids.storage.ts:26-48 | insert or invalidate for user u leaves every other user's entry as it was |
| RefreshTokenIds.RefreshTokenIdsStorage.Insert | src/iam/authentication/refresh-token-ids.storage.ts:26-28 | the new keyspace is the old one with the user's key set to the token id |
| RefreshTokenIds.RefreshTokenIdsStorage.Validate | src/iam/authentication/refresh-token-ids.storage.ts:30-36 | returns true exactly when the stored id equals the presented one, throws InvalidatedRefreshTokenError otherwise, and changes nothing (no modifies clause) |
| RefreshTokenIds.RefreshTokenIdsStorage.Invalidate | src/iam/authentication/refresh-token-ids.storage.ts:42-44 | the new keyspace is the old one without the user's key |
| Users.UserTable.FindById | src/iam/authentication/authentication.service.ts:42-44 | the row with that id, or null when there is none |
| Users.UserTable.FindByEmail | src/iam/authentication/authentication.service.ts:82-84 | null exactly when no row has that email; otherwise the (unique) row with it |
| Users.UserTable.FindFirstByGoogleId | src/iam/authentication/social/google-authentication.service.ts:35-37 | null exactly when no row has that Google id; otherwise the (unique) row with it |
| Users.UserTable.Create | src/iam/authentication/social/google-authentication.service.ts:53-59 | fails with P2002, changing nothing, exactly when the email or the given Google id is taken; otherwise adds exactly one row under the next id; email and Google id stay unique |
| Users.UserTable.UpdateLogin | src/iam/authentication/social/google-authentication.service.ts:40-48 | fails with P2025 on a missing row; otherwise rewrites only that row's loginsCount and lastLogin |
| Users.UserTable.Delete | src/users/users.service.ts:20-22 | fails with P2025 on a missing row, changing nothing; otherwise removes exactly that row |
| Jwt.ClaimsOf | src/iam/authentication/authentication.service.ts:122-127 | the claims are `{sub: userId, ...payload}`: the payload's email exactly for an access payload, the payload's refresh id exactly for a refresh payload |
| Jwt.SignToken | src/iam/authentication/authentication.service.ts:122-135 | the signed token carries `{sub: userId, ...payload}`, the configured audience and issuer, the configured secret as its key, and the given expiresIn |
| Jwt.Verify | src/iam/authentication/authentication.service.ts:35-40 | verification with the configured secret, audience and issuer accepts exactly an unexpired token signed with that secret for that audience and issuer, and yields the claims it was signed with |
| Jwt.SignThenVerify | src/iam/authentication/authentication.service.ts:122-135 | a token signed with the configuration verifies under it, while unexpired, to the claims it was signed with, and is rejected once expired |
| Jwt.VerifyFailsClosed | src/iam/authentication/authentication.service.ts:35-40 | a wrong secret, audience or issuer, or expiry, makes verification reject |
| Authentication.SignUpOutcome | src/iam/authentication/authentication.service.ts:71-78 | a created user is returned; P2002 becomes Conflict and only P2002 does; another Prisma code is rethrown (Internal); any other error is swallowed and signUp returns undefined |
| Authentication.AuthenticationService.GenerateTokens | src/iam/authentication/authentication.service.ts:103-120 | the user's stored id becomes the fresh id, replacing any previous one, and no other user's entry changes; the access token verifies to `{sub, email}` and the refresh token to `{sub, refreshTokenId}`, with the configured TTLs |
| Authentication.AuthenticationService.RefreshTokens | src/iam/authentication/authentication.service.ts:33-61 | succeeds exactly when the token verifies, its user exists and its id is the stored one; every failure is Unauthorized and leaves the store unchanged; on success the user's stored id is the new one, the new refresh token is itself accepted, and the new access token verifies to `{sub, email}` of that user |
| Authentication.AuthenticationService.SignIn | src/iam/authentication/authentication.service.ts:81-101 | an unknown email and a wrong password both give Unauthorized('Invalid credentials') with the store unchanged; a user without a digest gives an internal error; the right password stores a fresh id for that user and returns an accepted refresh token and an access token verifying to `{sub, email}` |
| Authentication.AuthenticationService.SignUp | src/iam/authentication/authentication.service.ts:63-79 | succeeds exactly when the email is free, and is Conflict exactly when it is taken; on success one new user with the hashed password; the refresh store is not in its frame |
| Authentication.RotationRejectsReplay | src/iam/authentication/authentication.service.ts:46-54 | presenting an accepted refresh token succeeds and yields an accepted token; presenting the same token again (with a fresh rotation id) is Unauthorized |
| Authentication.SignedInPairRotates | src/iam/authentication/authentication.service.ts:33-61 | the refresh token of a successful sign-in is accepted by refreshTokens; a failed sign-in leaves the store unchanged |
| GoogleAuthentication.ErrorToHttp | src/iam/authentication/social/google-authentication.service.ts:62-68 | Conflict exactly for an error with code '23505'; Unauthorized for any other error, including a rejected id token |
| GoogleAuthentication.PrismaUniqueViolationIsUnauthorized | src/iam/authentication/social/google-authentication.service.ts:62-68 | the table's P2002 unique violation ends in Unauthorized, not Conflict |
| GoogleAuthentication.GoogleAuthenticationService.Authenticate | src/iam/authentication/social/google-authentication.service.ts:28-69 | a rejected id token is Unauthorized and nothing is read or written; a known Google id bumps that user's loginsCount by one, creates nobody and stores a fresh id for that user; an unknown one creates exactly one user from the ticket and stores a fresh id for it, or, when its email is taken, is Unauthorized with nothing changed; on both success paths the returned refresh token is accepted by refreshTokens and the access token verifies to the user's `{sub, email}` |
| GoogleAuthentication.RepeatedSignInReusesUser | src/iam/authentication/social/google-authentication.service.ts:35-61 | two sign-ins with the same Google id resolve to the same user, and at most one user is created |
| Accounts.AccountsController.Delete | src/iam/accounts.controller.ts:26-46 | fails with BadRequest, changing nothing, exactly when the user row is missing; otherwise removes the row, then the user's refresh entry, returns OK, and leaves every other user's entry as it was |
| Accounts.DeletedAccountCannotRefresh | src/iam/accounts.controller.ts:28-38 | after a successful delete, refreshTokens rejects every refresh token of that user |
| SectionsService.TasksMoved | src/sections/sections.service.ts:47-54 | the same task ids; every task of the section points at the new project, every other task is unchanged |
| SectionsService.TasksMovedToSameProject | src/sections/sections.service.ts:47-54 | an updateMany of a section's tasks to the project they already point at changes no task |
| SectionsService.TasksMovedIdempotent | src/sections/sections.service.ts:47-54 | moving twice to the same project is moving once |
| SectionsService.Overwritten | src/sections/sections.service.ts:57-62 | the section keeps its id; each field given in the body replaces the old value and each absent one is kept |
| SectionsService.SectionsService.Create | src/sections/sections.service.ts:11-19 | null, with nothing changed, exactly when the write fails; otherwise one new section under the next id |
| SectionsService.SectionsService.FindAll | src/sections/sections.service.ts:21-28 | exactly the sections matching the filter, whatever ordering is asked for |
| SectionsService.SectionsService.FindOne | src/sections/sections.service.ts:30-36 | the section with that id, or null exactly when there is none |
| SectionsService.SectionsService.Update | src/sections/sections.service.ts:38-66 | undefined, with nothing changed, for a missing section; when the body's projectId is not the section's, the section's tasks move to it first (a failed move is null with nothing changed); a failed section write is null and leaves the tasks moved; otherwise the section is overwritten with the body's fields and returned; no other task changes |
| SectionsService.SectionsService.Remove | src/sections/sections.service.ts:68-78 | null, with nothing changed, exactly when the section is missing or the write fails; otherwise removes exactly that section |
| SectionsService.MoveWithoutSectionWrite | src/sections/sections.service.ts:44-65 | update is not atomic: when the section write fails after the move, the caller gets null, the tasks point at the new project and the section still names the old one |
| ProjectsService.FindAll | src/projects/projects.service.ts:18-49 | a missing or zero skip becomes 0, a missing or zero take 30, a missing orderBy `{name: 'asc'}`; given values, the filter and the cursor are kept; the page holds the fetched data, the count over the filter alone, and the effective skip and take |
| QueryParams.DueDateRange | src/chrono/chrono.controller.ts:27-40 | both bounds give `{gte, lte}`, a start alone `{gte}`, an end alone `{lte}`, neither no dueDate constraint |
| QueryParams.Min | src/chrono/chrono.controller.ts:46-48 | Math.min: a lower bound of both arguments and one of them |
| ChronoController.GetTasks | src/chrono/chrono.controller.ts:14-50 | orders by the requested field (dueDate) and direction (asc); always the active user's tasks, within the due-date range; skip as given, including "0", SKIP_DEFAULT when absent; take as given but never above MAX_TAKE, TAKE_DEFAULT when absent |
| TasksController.FilterByDate | src/tasks/tasks.controller.ts:45-89 | always constrains the project and applies the due-date range; orders by the requested field (createdAt) and direction (asc); skip and take default to SKIP_DEFAULT and TAKE_DEFAULT only when absent, and are passed on as received |
| TasksController.GetSubtasks | src/tasks/tasks.controller.ts:130-147 | the task's subtasks, ordered by createdAt, newest first; skip defaults to 0 and take to 30 |
| TasksController.GetSubtasksIgnoresOrdering | src/tasks/tasks.controller.ts:133-145 | the requested orderBy and dir make no difference to the query |
| TasksController.Create | src/tasks/tasks.controller.ts:36-42 | a null task is BadRequest('Project does not exist.'), anything else is returned |
| TasksController.FindOne | src/tasks/tasks.controller.ts:121-127 | a null task is NotFound, anything else is returned |
| TasksController.Update | src/tasks/tasks.controller.ts:150-163 | completedOn is stamped with the current time exactly when completed is true; every other field is forwarded unchanged; a null result is NotFound |
| TasksController.Remove | src/tasks/tasks.controller.ts:167-174 | NO_CONTENT once the task is deleted, NotFound for a null result |
| SubtasksController.Create | src/subtasks/subtasks.controller.ts:38-60 | BadRequest when the user does not own the task, whatever the service would do; a service error is BadRequest; otherwise the created subtask |
| SubtasksController.GetSubtasks | src/subtasks/subtasks.controller.ts:63-108 | BadRequest exactly when the task is not the user's or a given priority is not a Priority value; otherwise filters by the task, the given priority and a title containing the given text; take never above MAX_TAKE; skip 0 and ordering createdAt/desc by default |
| SubtasksController.FindOne | src/subtasks/subtasks.controller.ts:111-125 | the service's subtask; any service error is NotFound |
| SubtasksController.Update | src/subtasks/subtasks.controller.ts:128-150 | BadRequest when the user does not own the task, whatever the service would do; a service error is NotFound; otherwise the updated subtask |
| SubtasksController.Remove | src/subtasks/subtasks.controller.ts:154-165 | NO_CONTENT once deleted; any service error is NotFound |

## Left out

- Signing, verification and hashing: the JWT library, argon2 and `randomUUID()` are not modelled. They enter as the idealised token, the `hash`/`compare` functions and a `refreshTokenId` argument. A fresh id differs from the one it replaces only where a lemma or method requires it (`RotationRejectsReplay`).
- Redis and Prisma clients: their connection, lifecycle and failures (a lost connection mid-operation) are not modelled, except for the section writes' failure flags. The store is a map and the user table a map from id to row.
- Concurrency: refreshTokens does validate, delete and set as three separate round trips, so two simultaneous refreshes can race. The model covers sequential executions only. The code has no compare-and-set, and it does not delete the entry on a mismatch; the model does neither.
- Authentication.AuthenticationService.SignUp: `UsersService.create` turns every database error into BadRequest (src/users/users.service.ts:11-18). signUp then sees a non-Prisma error, swallows it and returns undefined, so a duplicate email never reaches the Conflict branch. The model lets the create call raise P2002 as the database does, so the Conflict branch is the one it states. The catch block itself, over every kind of error, is `Authentication.SignUpOutcome`.
- Authentication.AuthenticationService.SignIn: a user without a password digest (a Google-only account) makes argon2 reject. That error is not caught, and the model states it as an internal error.
- Users.LOGINS_COUNT_DEFAULT: the schema's default for a new user's login counter is not part of this model; it is taken to be 0.
- HTTP plumbing: cookies, the authentication and Google controllers, guards, decorators, modules and DTO validation. Two breakages there are not modelled: the sign-up route destructures tokens from a signUp that returns only the user, and the logout route calls a service method that does not exist.
- Global validation pipe: its `whitelist` option strips the `startDate`, `endDate` and `orderBy` fields that the chrono query class does not declare. `ChronoController.GetTasks` is modelled over every query, as its code reads them.
- ChronoController.GetTasks, ProjectsService.FindAll, TasksController.FilterByDate, TasksController.GetSubtasks, SubtasksController.GetSubtasks: a skip or take with a fraction ("1.5") is accepted by the validator or the number conversion and stays a fraction; the model's skip and take are integers, so fractional paging values are not modelled.
- Clock: `getTodaysTasks` (src/tasks/tasks.controller.ts:91-118) computes the day's bounds from the current time and is not modelled. `lastLogin` and `completedOn` timestamps are an opaque `now` argument.
- SubtasksController.Create, SubtasksController.GetSubtasks, SubtasksController.Update: their ownership check calls `tasksService.exists`, which TasksService (src/tasks/tasks.service.ts) does not define. The model reads the call by its arguments, as "a task with this id and this userId exists", over an owner map; what the call does as written is not modelled.
- TasksController.Create, TasksController.FindOne, TasksController.Update, TasksController.Remove: TasksService returns what Prisma returns. `findOne` uses `findUniqueOrThrow`, and `update` and `delete` throw P2025 on a missing task (src/tasks/tasks.service.ts:37-60), so the null branches these members map to NotFound or BadRequest are not taken as the code stands; a missing task ends as an uncaught server error, which the model does not state.
- Prisma query semantics past the argument records: the task, chrono, project and subtask services are not modelled, and their results enter as function arguments or returned values. The subtasks service is a stub. ProjectsService's other methods are single delegations.
- In-place mutation of request objects: `TasksController.Update` modifies the body and `ProjectsService.FindAll` modifies its parameter object in place. The model returns the modified object as the value `sent`; the alias the caller holds is not modelled.
- Route parameters: filterByDate reads a `projectId` parameter that its route lacks, and the subtask list reads `id` under a `:taskId` route. The builders take these values as inputs.
- The tags, users and eisenhower-matrix controllers, the tasks and chrono services, and the seed script are not part of this model.
