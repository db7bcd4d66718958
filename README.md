# LearnHub backend and session rules, in Dafny

This project models the record-keeping and access-control core of the LearnHub e-learning
platform (an Express/Mongoose backend and a React frontend). It covers:
- the enrollment state machine over a (student, course) pair;
- the course table, whose writes are filtered by owner;
- the user registry with login and registration;
- the JWT gate: `auth`, `authorize` and the four guard chains;
- the usage cap, prompt assembly and paged history of the two AI assistant controllers;
- three pieces of frontend logic: the registration form validator, the `ProtectedRoute`
  decision, and the browser's token and user storage.

**Collections.** Mongo collections are maps from an id to a document. Ids come from a
per-collection counter, so "natural order" is id order (`Db.Find`, `Db.FindOne`).
- The unique indexes are invariants kept by every write: one enrollment per
  (student, course) pair, and one user per email.
- The stateful collections are classes whose methods update the map: `EnrollmentStore`,
  `CourseTable`, `UserStore` and `ChatLog`.
- Each handler that writes has two halves. A pure function on values states the reply and
  the new collection (`StudentController.Enroll`, `InstructorController.Update`,
  `GptController.Generate`, …). A method on the live store is proved equal to it.
  The properties are lemmas about the functions.

**Libraries.** The signing library and bcrypt are parameters:
- `Jwt.Library` holds an encoder, a decoder and a lifetime parser; `Faithful` says decoding
  inverts encoding.
- `AuthController.Crypt` holds a hasher and a comparer; `Agrees` says a password matches its
  own hash.

The AI providers are functions from what they are sent to what they answer. The caller's id
(`req.user.id`) is a plain parameter of the handlers. The clock (`now`) and the environment
(`Jwt.Env`, `development`) are parameters too. The assistant handlers take the course list
they read (`views`) as a parameter. It stands for `CourseController.Catalog` of the course
table and the users, and `GptController.DeletedInstructorBreaksAssistant` is stated over
exactly that.

Where the code departs from what its names and comments suggest, the model follows the code:
- **`auth`.** It trusts the token's claims and never looks the user up again
  (`Scenarios.DeletedUserKeepsToken`).
- **Enrolling after completion.** A completed enrollment makes re-enrolling answer 500,
  because the insert breaks the unique index (`StudentController.EnrollAfterComplete`).
- **Course records.** A course has no status field.
- **Refresh tokens.** The comment on the refresh token says "longer expiry", but its default
  lifetime (7d) is shorter than the access token's (30d) (`Jwt.DefaultExpiries`).
- **Update replies.** The user update handlers name the document `user`, not `data`.
- **Enrollment keys.** Enrollments are keyed by their own id, as Mongo stores them. They are
  not keyed by the pair. The unique pair index is the invariant
  `EnrollmentModel.PairsUnique` instead.

## Model

| member | source | states |
|---|---|---|
| Db.Find | backend/controllers/studentController.js:71 | `find(filter)`: exactly the ids of the documents that match, in increasing id order |
| Db.FindOne | backend/controllers/studentController.js:21-25 | `findOne(filter)`: some iff a document matches; it is the first match in natural order |
| Text.Trim | backend/controllers/gptController.js:49 | `trim()`: the piece of the text between a run of leading and a run of trailing `\s` characters; empty iff the text is all `\s`, and otherwise it neither begins nor ends with one |
| Text.TrimIdempotent | backend/controllers/gptController.js:102 | trimming the stored prompt again changes nothing |
| Text.JoinSeparators | backend/controllers/gptController.js:69-71 | joining newline-free parts with "\n" yields exactly one newline fewer than there are parts |
| Text.Utf16Length | backend/models/Course.js:7 | `.length` counts UTF-16 code units: between the number of code points and twice that |
| Jwt.GenerateToken | backend/utils/jwt.js:4-12 | fails iff `JWT_SECRET` is unset or empty; otherwise the token decodes to the payload's claims (an object as is, anything else as `{ id }`), signed with `JWT_SECRET` at the given time, with `JWT_EXPIRE` or "30d" (`AccessTokenRoundTrip`, `ExpiredTokenThrows`, `DefaultExpiries`) |
| Jwt.GenerateRefreshToken | backend/utils/jwt.js:29-37 | fails iff both `JWT_REFRESH_SECRET` and `JWT_SECRET` are unset or empty; otherwise the token decodes to the payload's claims, signed with `JWT_REFRESH_SECRET` or else `JWT_SECRET`, with `JWT_REFRESH_EXPIRE` or "7d" (`RefreshTokenIsNotAnAccessToken`, `RefreshKeyFallback`, `DefaultExpiries`) |
| Jwt.VerifyToken | backend/utils/jwt.js:15-21 | decodes iff the token was signed with `JWT_SECRET` and has not expired; the claims are the signed ones; every failure is the error "Invalid token" |
| Jwt.ExtractTokenFromHeader | backend/utils/jwt.js:40-45 | some iff the header is present and starts with "Bearer "; the header is then "Bearer " followed by the result |
| Jwt.ExtractBearer | backend/utils/jwt.js:44 | extracting from "Bearer " + t gives back t |
| Jwt.AccessTokenRoundTrip | backend/utils/jwt.js:4-21 | a freshly signed access token verifies, until it expires, to its payload's claims; a non-object payload becomes `{ id }` |
| Jwt.ExpiredTokenThrows | backend/utils/jwt.js:9-20 | once its lifetime has passed, an access token is refused with "Invalid token" |
| Jwt.RefreshTokenIsNotAnAccessToken | backend/utils/jwt.js:29-37 | with its own refresh secret, a refresh token does not pass `verifyToken` |
| Jwt.RefreshKeyFallback | backend/utils/jwt.js:32 | without a refresh secret, refresh tokens are signed with `JWT_SECRET` and pass `verifyToken` |
| Jwt.DefaultExpiries | backend/utils/jwt.js:9-34 | with the expiry variables unset, access tokens live "30d" and refresh tokens "7d" |
| AuthMiddleware.Auth | backend/middleware/authMiddleware.js:4-25 | a missing, non-Bearer or empty token gets 401 "No token provided"; a refused token raises "Invalid token"; otherwise the request goes on with the decoded claims and no user lookup |
| AuthMiddleware.InvalidTokenReplyUnreachable | backend/middleware/authMiddleware.js:15-21 | no request ever receives the 401 "Invalid token" reply |
| AuthMiddleware.Authenticate | backend/middleware/authMiddleware.js:5-24 | `req.user` is set to the decoded claims exactly when `auth` calls `next` |
| AuthMiddleware.Authorize | backend/middleware/authMiddleware.js:27-44 | no user gets 401 "Not authenticated"; otherwise the request passes iff the role claim is a listed role, and gets 403 "Access denied." if not |
| RoleBasedAuth.RoleChain | backend/utils/roleBasedAuth.js:4-6 | `[auth, authorize(roles)]`: 401 without a token, a raised error for a bad one, the handler for a listed role, 403 otherwise |
| RoleBasedAuth.AdminOnlyAdmitsAdmins | backend/utils/roleBasedAuth.js:4 | a request reaches the handler iff its token is valid and its role is "admin" |
| RoleBasedAuth.InstructorOrAdminRoles | backend/utils/roleBasedAuth.js:5 | instructors and admins are admitted; a student gets 403 |
| RoleBasedAuth.StudentOrAdminRoles | backend/utils/roleBasedAuth.js:6 | students and admins are admitted; an instructor gets 403 |
| RoleBasedAuth.AuthenticatedAdmitsAnyToken | backend/utils/roleBasedAuth.js:7 | any valid token is admitted, whatever its role |
| RoleBasedAuth.AuthorizeWithoutAuth | backend/middleware/authMiddleware.js:29-34 | `authorize` without `auth` before it answers 401 "Not authenticated" |
| RoleBasedAuth.AuthComesFirst | backend/utils/roleBasedAuth.js:4-7 | every chain starts with `auth`, so none ever answers "Not authenticated" |
| EnrollmentModel.ParseStatus | backend/models/Enrollment.js:14-18 | a status string is accepted iff it is one of "enrolled", "completed" and "dropped", and then it names that status |
| EnrollmentModel.Build | backend/models/Enrollment.js:3-21 | a new record needs a student and a course, and takes the status "enrolled" by default; any other status outside the enum is refused |
| EnrollmentModel.DefaultStatus | backend/models/Enrollment.js:17 | a record created with no status is "enrolled" |
| EnrollmentModel.FindOneOfPair | backend/models/Enrollment.js:24 | with unique pairs, `findOne({ student, course, status })` finds the pair's record iff that record has that status |
| EnrollmentModel.EnrollmentStore.FindFirst | backend/controllers/studentController.js:21-25 | the first record in natural order that matches, and no change |
| EnrollmentModel.EnrollmentStore.Insert | backend/models/Enrollment.js:24 | refused iff the pair already has a record; otherwise adds one "enrolled" record under a fresh id |
| EnrollmentModel.EnrollmentStore.SetStatus | backend/controllers/studentController.js:42-43 | saves the record with its new status and keeps the pairs unique |
| StudentController.Enroll | backend/controllers/studentController.js:6-65 | 404 iff the course does not exist; 201, 400 or 500 otherwise; nothing changes unless 201; a 201 replies an "enrolled" record of the pair and stores exactly it, either over the pair's "dropped" record with the counter unchanged or under the next id. Each branch by the pair's state: `EnrollUnknownCourse`, `EnrollWhileEnrolled`, `EnrollAfterDrop`, `EnrollFresh`, `EnrollAfterComplete` |
| StudentController.Move | backend/controllers/studentController.js:91-105 | 200 or 404; a 404 is the given refusal with no change; a 200 is the given message, with one "enrolled" record of the pair moved to the target and saved under its id (`MoveOnlyFromEnrolled`, `CompletedIsFinal`) |
| StudentController.Drop | backend/controllers/studentController.js:87-113 | 404 with "You are not enrolled in this course or have already dropped/completed it" and no change, or 200 "Course dropped successfully" with one "enrolled" record of the pair now "dropped" |
| StudentController.Complete | backend/controllers/studentController.js:116-142 | 404 with "You are not enrolled in this course" and no change, or 200 "Course completed successfully" with one "enrolled" record of the pair now "completed" |
| StudentController.EnrollInCourse | backend/controllers/studentController.js:6-65 | the reply and the new collection are `Enroll` of the old collection |
| StudentController.MoveCourse | backend/controllers/studentController.js:91-101 | the reply and the new collection are `Move` of the old collection |
| StudentController.DropCourse | backend/controllers/studentController.js:87-113 | the reply and the new collection are `Drop` of the old collection |
| StudentController.CompleteCourse | backend/controllers/studentController.js:116-142 | the reply and the new collection are `Complete` of the old collection |
| StudentController.EnrollKeepsConsistent | backend/models/Enrollment.js:24 | enrolling never creates a second record for a pair |
| StudentController.MoveKeepsConsistent | backend/models/Enrollment.js:24 | dropping and completing never create a second record for a pair |
| StudentController.EnrollUnknownCourse | backend/controllers/studentController.js:12-18 | an unknown course gets 404 "Course not found" and no change |
| StudentController.EnrollWhileEnrolled | backend/controllers/studentController.js:21-31 | while enrolled, enrolling gets 400 and no change |
| StudentController.EnrollAfterDrop | backend/controllers/studentController.js:35-43 | after a drop, the same record becomes "enrolled" again and the record count stays the same |
| StudentController.EnrollFresh | backend/controllers/studentController.js:44-57 | with no record for the pair, exactly one "enrolled" record is added, with 201 |
| StudentController.EnrollAfterComplete | backend/controllers/studentController.js:35-63 | after completion, enrolling gets 500 and the record stays "completed" |
| StudentController.MoveOnlyFromEnrolled | backend/controllers/studentController.js:91-105 | drop and complete change only an "enrolled" record, to the target status; otherwise 404 and no change |
| StudentController.CompletedIsFinal | backend/controllers/studentController.js:120-134 | a completed course can be neither dropped nor completed again (404), and enrolling leaves it as it is |
| StudentController.ListByStatus | backend/controllers/studentController.js:71 | exactly the caller's records with the status, courses populated, in natural order |
| StudentController.OneRowPerCourse | backend/models/Enrollment.js:24 | no course appears twice in one of those lists |
| StudentController.GetEnrolledCourses | backend/controllers/studentController.js:68-84 | 200 with exactly the caller's "enrolled" records |
| StudentController.GetCompletedCourses | backend/controllers/studentController.js:145-161 | 200 with exactly the caller's "completed" records |
| CourseModel.Violations | backend/models/Course.js:3-18 | a validator fails iff its rule is broken: a missing title, description or instructor, or a title over 200 or a description over 1000 code units |
| CourseModel.Build | backend/models/Course.js:3-21 | saving a new course succeeds iff no validator fails, and the course holds exactly the given fields; otherwise every failed validator is reported |
| CourseModel.Apply | backend/controllers/instructorController.js:64-68 | an update sets only the fields it names; the id and the instructor stay the same |
| CourseModel.Utf16LengthBmp | backend/models/Course.js:7 | for text without astral characters, `.length` is the character count |
| CourseModel.UpdateBypassesValidation | backend/controllers/instructorController.js:64-68 | an update runs no validators, so it can store a 201-character title |
| CourseModel.CourseTable.Insert | backend/controllers/instructorController.js:13-20 | the result is `Build` under the next id, and the course is stored only when it is Ok |
| CourseModel.CourseTable.FindOneAndUpdate | backend/controllers/instructorController.js:64-68 | when both the id and the instructor match, applies the patch and returns the updated course; otherwise null and no change |
| CourseModel.CourseTable.FindOneAndDelete | backend/controllers/instructorController.js:96 | when both the id and the instructor match, removes that course and returns it; otherwise null and no change |
| CourseController.View | backend/controllers/courseController.js:8 | `populate('instructor', 'name email')`: the instructor's id, name and email, or null when that user is gone |
| CourseController.Catalog | backend/controllers/gptController.js:66 | `Course.find().populate('instructor', 'name email')`: every course once, in natural order, each with its instructor's id, name and email, or null where that user is gone |
| CourseController.GetAllCourses | backend/controllers/courseController.js:6-21 | 200 with every course, populated, in natural order, with no owner or status filter |
| CourseController.GetCourseById | backend/controllers/courseController.js:24-45 | 404 "Course not found" iff the id is absent; otherwise that course, populated |
| CourseController.GetEnrollments | backend/controllers/courseController.js:48-64 | exactly the course's "enrolled" records, each once, in natural order, each with its full student document |
| InstructorController.BuildUpdate | backend/controllers/instructorController.js:59-62 | the update names a title or a description exactly when the body's value is truthy |
| InstructorController.CreateCourse | backend/controllers/instructorController.js:8-33 | a valid course is stored with the caller as instructor and answered 201; an invalid one gets 500 with the validation message, and nothing is stored |
| InstructorController.CreatedCourseConforms | backend/controllers/instructorController.js:13-25 | a created course meets the schema's limits and belongs to the caller |
| InstructorController.GetCourses | backend/controllers/instructorController.js:35-50 | 200 with exactly the caller's courses, each once, in natural order |
| InstructorController.Update | backend/controllers/instructorController.js:52-89 | without a match on both id and instructor, 404 and no change; with one, only that course changes, by the truthy fields |
| InstructorController.Delete | backend/controllers/instructorController.js:92-115 | without a match on both id and instructor, 404 with status "error" and no change; with one, exactly that course is removed |
| InstructorController.UpdateKeepsUnsetFields | backend/controllers/instructorController.js:59-62 | absent or empty fields keep their old values; the id and the instructor never change |
| InstructorController.UpdateCourse | backend/controllers/instructorController.js:52-89 | the reply and the new table are `Update` of the old table |
| InstructorController.DeleteCourse | backend/controllers/instructorController.js:92-115 | the reply and the new table are `Delete` of the old table |
| UserModel.Public | backend/controllers/authController.js:45-50 | a user as replies show it: id, name, email and role, with no password |
| UserModel.InsertKeepsConsistent | backend/controllers/authController.js:72-73 | adding a user with a fresh id and an unused email keeps emails unique |
| UserModel.FindByEmail | backend/controllers/authController.js:11 | some iff a user has the email, and then that user |
| UserModel.FindById | backend/controllers/userController.js:21 | some iff the id is present, and then that user |
| UserModel.Patched | backend/controllers/userController.js:86-90 | fields given in the update replace the old ones; the others, and the password, are kept |
| UserModel.UserStore.Insert | backend/controllers/authController.js:72-73 | refused iff the email is taken; otherwise the user is stored under a fresh id |
| UserModel.UserStore.UpdateById | backend/controllers/userController.js:86-90 | null for an unknown id; a duplicate-key error for another user's email; otherwise exactly that user is patched |
| UserModel.UserStore.DeleteById | backend/controllers/userController.js:133 | removes exactly that user and returns them, or null and no change |
| AuthController.AccessClaims | backend/controllers/authController.js:27-31 | the access payload has exactly the keys id, email and role |
| AuthController.RefreshClaims | backend/controllers/authController.js:33-35 | the refresh payload has exactly the key id |
| AuthController.Login | backend/controllers/authController.js:7-59 | 400 "Invalid email or password" iff no user has that email and password, the same reply for both failures; a success carries the public form of the user |
| AuthController.LoginTokens | backend/controllers/authController.js:27-52 | a successful login gives an access token that verifies to exactly `{ id, email, role }` and a refresh token carrying exactly `{ id }` |
| AuthController.Register | backend/controllers/authController.js:61-84 | a taken email gets 400 and no change; otherwise the user is stored with the hash of the password, never the password itself, and 201 |
| AuthController.HandleRegister | backend/controllers/authController.js:61-84 | the reply and the new users are `Register` of the old users |
| AuthController.RegisterThenLogin | backend/controllers/authController.js:19-71 | after registering, logging in with the same email and password succeeds |
| UserController.GetAllUsers | backend/controllers/userController.js:5-16 | every user, each once, without passwords, in natural order |
| UserController.GetUserById | backend/controllers/userController.js:19-36 | 404 "User not found" iff the id is absent; otherwise 200, status "success", "User retrieved successfully" and the user without password |
| UserController.GetLoggedInUser | backend/controllers/userController.js:39-54 | the caller's profile without password, or 404 when the caller's account is gone |
| UserController.CreateUser | backend/controllers/userController.js:57-80 | a taken email gets 400 and no change; otherwise the password is stored exactly as given |
| UserController.Edit | backend/controllers/userController.js:83-104 | 404 "User not found" iff the id is absent; 500 with the bare duplicate-key error iff another user has the new email; otherwise 200 "User updated successfully" with the patched user without password, and only that user changes |
| UserController.EditKeepsConsistent | backend/controllers/userController.js:86-90 | no edit leaves two users with one email |
| UserController.SelfEditKeepsRole | backend/controllers/userController.js:109-113 | the self-service update never changes the caller's role |
| UserController.UpdateUser | backend/controllers/userController.js:83-104 | the reply and the new users are `Edit` of the old users, with name, email and role from the body |
| UserController.UpdateLoggedInUser | backend/controllers/userController.js:107-128 | the reply and the new users are `Edit` of the old users at the caller's id, with name and email only |
| UserController.DeleteUser | backend/controllers/userController.js:131-147 | 404 for an unknown id; otherwise exactly that user is removed |
| UserController.DeleteLoggedInUser | backend/controllers/userController.js:150-165 | 404 for a missing account; otherwise exactly the caller is removed |
| ChatModel.CountFor | backend/controllers/gptController.js:15 | `countDocuments({ user })`: never more than all records |
| ChatModel.CountForConcat | backend/controllers/gptController.js:15 | the count of a log is the sum of the counts of its parts |
| ChatModel.HistoryOf | backend/controllers/gptController.js:157-158 | the user's records, newest first; exactly as many as `countDocuments({ user })` |
| ChatModel.HistoryAfterSave | backend/controllers/gptController.js:101-106 | a new record heads its user's history and adds one to the user's count; other users are unaffected |
| ChatModel.ChatLog.Save | backend/models/GPT.js:3-19 | stored at the end iff the prompt and the response are non-empty |
| GptController.Remaining | backend/controllers/gptController.js:22 | `max(0, 250 - total)`: between 0 and 250, zero iff the cap is reached, and it adds up to 250 with the total |
| GptController.GetApiUsage | backend/controllers/gptController.js:12-24 | the platform total, the caller's count (at most the total) and what remains |
| GptController.Refusal | backend/controllers/gptController.js:38-63 | the request goes on iff the body is an object with a non-blank prompt and fewer than 250 records exist; otherwise 400 "Request body is required", 400 "Prompt is required" or 429, in that order |
| GptController.CourseContext | backend/controllers/gptController.js:66-71 | the context builds iff every course has an instructor |
| GptController.OneLinePerCourse | backend/controllers/gptController.js:69-71 | with newline-free fields, the context has one line per course |
| GptController.SystemPrompt | backend/controllers/gptController.js:73-84 | the fixed head, then the context, then the fixed tail, each at its own position |
| GptController.SystemPromptInjective | backend/controllers/gptController.js:73-84 | the system prompt determines the context |
| GptController.Generate | backend/controllers/gptController.js:35-147 | a refusal is replied as is; a course without instructor gives the catch block's reply to the null-instructor error; a provider error gives the catch block's reply to that error, and an empty answer its reply to the validation error; a non-empty answer is stored as (trimmed prompt, the provider's text, caller) and replied with that text and the new totals (one more request, one fewer remaining); nothing is stored in any other case |
| GptController.Serve | backend/controllers/gptController.js:35-147 | the reply and the new log are `Generate` of the old log |
| GptController.RefusedBeforeProvider | backend/controllers/gptController.js:38-63 | a refused request does not depend on the provider and stores nothing |
| GptController.CapPreserved | backend/controllers/gptController.js:57-63 | starting from at most 250 records, a prompt never leaves more than 250 |
| GptController.AnsweredPromptHeadsHistory | backend/controllers/gptController.js:101-118 | an answered prompt heads the caller's history, trimmed, and one fewer request remains |
| GptController.QuotaFaultIs402 | backend/controllers/gptController.js:87-131 | an `insufficient_quota` error from OpenAI makes the handler answer 402 and store nothing |
| GptController.OpenAiError | backend/controllers/gptController.js:127-145 | `insufficient_quota` gives 402, `invalid_api_key` 401, anything else 500, with the message only in development |
| GptController.GenerateResponse | backend/controllers/gptController.js:35-147 | `Generate` with the OpenAI call (system prompt, then the untrimmed prompt) and its error mapping |
| GptController.OrphanCourseBreaksAssistant | backend/controllers/gptController.js:69-71 | a course without instructor makes every admitted prompt fail with 500, and nothing is stored |
| GptController.DeletedInstructorBreaksAssistant | backend/controllers/gptController.js:66-71 | over the populated course table, deleting the instructor of any one course makes every admitted prompt fail with 500, and nothing is stored |
| GptController.QueryNumber | backend/controllers/gptController.js:153-154 | `parseInt(q) \|\| d`: the parsed number, or the default for NaN and 0 |
| GptController.CeilDiv | backend/controllers/gptController.js:171 | `Math.ceil(a / b)` for either sign of b |
| GptController.Window | backend/controllers/gptController.js:159-160 | `skip(s).limit(l)`: at most l items, taken in order from position s, and fewer only at the end |
| GptController.GetChatHistory | backend/controllers/gptController.js:150-185 | a negative skip fails with 500; otherwise the page of the caller's history, newest first, with `totalPages = ceil(total/limit)`, `hasNext` iff `page < totalPages`, and `hasPrev` iff `page > 1` |
| GptController.HasNextMeansMore | backend/controllers/gptController.js:171-173 | for a positive page and limit, `hasNext` iff chats exist beyond this page; a page is full unless it is the last |
| GptController.EveryChatOnItsPage | backend/controllers/gptController.js:153-161 | chat k of the history appears on page k / limit + 1, at position k mod limit |
| GeminiController.FullPrompt | backend/controllers/geminiController.js:88 | the system prompt, then "\n\nStudent Question: " and the prompt |
| GeminiController.GeminiError | backend/controllers/geminiController.js:122-140 | a message containing "API key" gives 401, checked before "quota" (402); anything else 500 |
| GeminiController.GenerateResponse | backend/controllers/geminiController.js:33-142 | `Generate` with the Gemini call and its error mapping |
| GeminiController.SharedCap | backend/controllers/geminiController.js:55-61 | once 250 records exist, both providers answer 429 and store nothing |
| GeminiController.AlternatingProvidersKeepCap | backend/controllers/geminiController.js:55-61 | a prompt to each provider in turn never takes the shared count past 250 |
| GeminiController.KeyBeforeQuota | backend/controllers/geminiController.js:91-133 | at the handler, any Gemini error whose message names both an API key and a quota is answered 401, and nothing is stored |
| RegisterPage.WithValue | frontend/src/pages/Register.js:32-35 | the edited field takes the value; every other field keeps its own |
| RegisterPage.FieldError | frontend/src/pages/Register.js:61-87 | each field's rule: empty first, then the length, the pattern or the match, each with its own message |
| RegisterPage.ValidateForm | frontend/src/pages/Register.js:58-91 | a field has an error iff its rule fails, and the error is that rule's message |
| RegisterPage.FormValidIff | frontend/src/pages/Register.js:89-90 | the form is valid iff the name has at least 2 units, the email contains the pattern, the password has at least 6 units and matches its confirmation, and a role is set |
| RegisterPage.UnanchoredPattern | frontend/src/pages/Register.js:69 | the pattern is not anchored: for any text before and after, a matching address still matches |
| RegisterPage.NoDotNoMatch | frontend/src/pages/Register.js:69 | any text with no '.' at least two characters after an '@' fails the pattern (for example "a@b" and "a@.c") |
| RegisterPage.Page.constructor | frontend/src/pages/Register.js:11-20 | all fields start empty, the role starts as "student", and there are no errors |
| RegisterPage.Page.HandleInputChange | frontend/src/pages/Register.js:30-43 | the field takes the value, and only that field's error, if set, is cleared |
| RegisterPage.Page.HandleRoleSelect | frontend/src/pages/Register.js:45-56 | the role becomes one of the offered choices, and only the role error is cleared |
| RegisterPage.Page.HandleSubmit | frontend/src/pages/Register.js:95-108 | the errors become the validator's, and the registration is sent iff there are none |
| RegisterPage.Page.FinishSubmit | frontend/src/pages/Register.js:110-117 | success goes to /dashboard; a failure shows its message, or "Registration failed" |
| RegisterPage.RoleErrorUnreachable | frontend/src/pages/Register.js:25-28 | since only offered roles can be selected, the role error never shows |
| ProtectedRoute.Decide | frontend/src/components/ProtectedRoute.js:5-49 | while loading, the spinner; on a protected route when signed out, a redirect to `redirectTo`; on a public route when signed in, a redirect to the saved path or /dashboard; Access Denied iff a loaded user's role is outside a non-empty list; otherwise the children |
| ProtectedRoute.DefaultsAdmitAnySignedInUser | frontend/src/components/ProtectedRoute.js:5-10 | with the default props, any signed-in user sees the page, and others go to /login |
| ProtectedRoute.NoUserSkipsRoleCheck | frontend/src/components/ProtectedRoute.js:34 | with no loaded user, the role check is skipped |
| ProtectedRoute.PublicPagesForSignedOut | frontend/src/components/ProtectedRoute.js:28-31 | a public page shows its children iff the visitor is signed out |
| AuthService.Session.GetToken | frontend/src/services/authService.js:109-111 | the localStorage token when it is non-empty, else the cookie |
| AuthService.Session.IsAuthenticated | frontend/src/services/authService.js:113-115 | true iff either place holds a non-empty token |
| AuthService.Session.GetCurrentUser | frontend/src/services/authService.js:100-107 | the stored user, or null when none is stored or it does not parse |
| AuthService.Session.HasRole | frontend/src/services/authService.js:117-120 | true iff a stored user has that role |
| AuthService.Session.AuthorizationHeader | frontend/src/services/authService.js:14-23 | requests carry "Bearer " + the cookie, and only the cookie |
| AuthService.Session.OnRejected | frontend/src/services/authService.js:26-35 | a 401 removes only the cookie and goes to /login, so a localStorage token keeps the session "authenticated" |
| AuthService.Session.Login | frontend/src/services/authService.js:38-71 | success writes the same access token to the cookie and to localStorage, and stores the user; any failure leaves storage unchanged, except for the interceptor's handling of a 401 |
| AuthService.Session.Logout | frontend/src/services/authService.js:88-98 | the cookie, the token and the user are removed even when the request fails |
| Scenarios.AdminCannotEditOthersCourses | backend/controllers/instructorController.js:65-96 | an admin passes `instructorOrAdmin` but gets 404 and changes nothing on another instructor's course |
| Scenarios.DeletedUserKeepsToken | backend/middleware/authMiddleware.js:23-24 | a deleted user's unexpired token still passes `auth`, while their profile is 404 |
| Scenarios.SignInThenCall | frontend/src/services/authService.js:44-53 | after a successful sign-in, requests pass `auth` with the user's claims |
| Scenarios.StaleSession | frontend/src/services/authService.js:29-31 | after a 401, the browser still counts itself signed in, yet `auth` refuses its requests for lack of a token |

## Left out

- Errors of the database itself: failed queries, failed connections and the catch-all 500s that only they reach. The 500s a reachable input causes are modelled: a pair that is already stored, a failed validation, a course without instructor, and a negative skip.
- The Gemini handler's `getApiUsage` and `getChatHistory` (backend/controllers/geminiController.js:10-30, 145-180) repeat the OpenAI handler's code on the same collection. They are modelled once, as `GptController.GetApiUsage` and `GptController.GetChatHistory`. Gemini's history handler is not routed.
- `decodeToken` (backend/utils/jwt.js:24-26): no handler calls it.
- The `iat` and `exp` claims the library adds, and how `expiresIn` strings are parsed. The library is a parameter.
- The salt and cost of bcrypt: the hasher is a parameter.
- What the AI providers answer, and the model, token and temperature options sent to them. The providers are parameters.
- The User schema (backend/models/User.js) is not part of this model. The user collection is taken to have a unique index on the email and no validators. The Mongoose version is not in the source either. `UserModel.Patched` and `UserStore.UpdateById` treat a body field that is absent (`undefined` in `{ name, email, role }`) as leaving the old value, which is how Mongoose 6 and later strip undefined keys from updates; older versions would set the field to null. Payloads without an `id` claim, and ids that are not valid ObjectIds, are not modelled (Mongoose's CastError).
- Timestamps (`createdAt`, `updatedAt`). History is ordered by insertion, which ties in `createdAt` could break.
- Request bodies with fields that are not strings, such as numbers or arrays.
- The course image upload: the schema has no image field, so Mongoose drops it.
- The exact wording of Mongoose's, MongoDB's and the runtime's error messages. They are shortened constants.
- Cookie expiry (7 days), axios' request timing, React rendering, loading flags and the Access Denied panel's markup.
- `authService.register` and `isAdmin`, `isInstructor` and `isStudent`: thin wrappers over the request and over `hasRole`.
- frontend/src/contexts/AuthContext.js: it forwards to the session store.
- Concurrency: each handler runs alone, from one state to the next.
- Numbers beyond 2^53 in query strings, and non-integer pages or limits.
- GptController.GetChatHistory: a negative limit is taken by its size, which is the MongoDB driver's reading of it. Only that much of a negative limit is modelled.
- The server's routing, its start-up, and the seeding scripts.
