# Quiz app core: user table, quiz list, scoring and access decisions

This project is a Dafny model of the server core of a small Express quiz application. Users register, log in and take quizzes. Administrators manage accounts.

Under the file I/O and the Express plumbing, that core has four parts:

- **The user table** (`users.json`). Its records are normalised on every load and save: the id becomes a string and missing points become 0. The table offers lookups by id and by email (without regard to case), append, patch, password replacement, removal, and point credit. Every operation reads the whole list, changes one record or filters it, and writes the list back.
- **The quiz list** (`quizz.json`). It supports the listing with its fallback author field, creation with duplicate-id rejection and author stamping, the answer-free view of one quiz, and deletion by a linear search and a splice.
- **The scoring rule.** A question scores when the answer's ids, sorted and joined with `"|"`, equal the sorted, joined correction, or when a string answer equals that joined string. The score is then credited to the user's points.
- **The access decisions made on each request:**
  - the middleware that rebuilds the user from the session's `userId`;
  - the authenticated guards and the admin guard;
  - the admin handlers' own re-checks, role filtering, self-demotion redirect and password messages;
  - the login / register / logout handlers that set and clear the session.

There is one Dafny module per source file, plus two modules for the runtime they stand on:

- `JsRuntime` models the JavaScript behaviour the handlers depend on:
  - `undefined` as `Option`, and string truthiness;
  - `findIndex`;
  - `toLowerCase`;
  - `String()` and `Number()` on ids;
  - the default `sort()` and `join()` on arrays of strings.
- `Express` models the session and request objects and how a middleware ends: `next()`, a status, or a redirect.

State the application changes in place is modelled with classes:

- `UserModel.UserStore` holds the user list.
- `QuizModel.QuizStore` holds the quiz list.
- `Express.Session` and `Express.Request` hold the session and the request.

The store methods and the handlers that call them are methods with `modifies` clauses. Each of them states its whole new state in terms of pure functions: `IndexOfId`, `Patched`, `WithoutId`, `QuizIndex`, `CountCorrect`, `ResolveSessionUser` and others. The properties are then proved about those functions.

Hashing, validation and clocks become parameters:

- `bcrypt.hash` is a `hashed` string argument, and `bcrypt.compare` is a `compare` function argument.
- The outcome of the `express-validator` chain is a `valid` boolean.
- `Date.now()` is an integer `now`, and `new Date().toISOString()` is a string `now`.
- A failed `getUsers` inside `attachUser` is `loaded == None`.

`SessionFlow` relates the handlers to each other across requests. It covers:

- the id login stores and the user the next request resolves to;
- a fresh registration;
- logout;
- an admin who demotes their own account.

## Model

| member | source | states |
|---|---|---|
| UserModel.Normalize | src/models/userModel.ts:26 | A loaded record gets `String(id)` as its id and its points, or 0 when absent; every other field is kept. |
| UserModel.IdString | src/models/userModel.ts:26 | `String(u.id)`: a string id is kept, and a numeric id becomes a string that `Number()` reads back as the same number. |
| UserModel.Load | src/models/userModel.ts:22-27 | `getUsers` yields one normalised record per file record, in file order. |
| UserModel.Save | src/models/userModel.ts:29-33 | `saveUsers` writes one record per user, normalised again. |
| UserModel.NormalizeStored | src/models/userModel.ts:31 | Normalising a record that is already normal changes nothing. |
| UserModel.LoadSaveRoundTrip | src/models/userModel.ts:22-33 | Loading what was saved gives back the same list, which justifies keeping the list in memory. |
| UserModel.SavedRecordsAreNormal | src/models/userModel.ts:26-31 | Every record written has a string id, and its points default to 0. |
| UserModel.EffectiveRole | src/middleware/authAdmin.ts:9 | The role read with a "user" default is never empty. It is "admin" exactly when the role is "admin", and "user" exactly when the role is missing, empty or "user". |
| UserModel.IndexOfId | src/models/userModel.ts:57 | `findIndex` by id: the first index whose id matches, or -1 exactly when none does. |
| UserModel.FindUserById | src/models/userModel.ts:35-38 | The first record whose id equals the argument, or nothing exactly when no record has it. |
| UserModel.FindUserByEmail | src/models/userModel.ts:40-43 | The first record whose lower-cased email equals the lower-cased argument, or nothing exactly when there is none. |
| UserModel.Patched | src/models/userModel.ts:59-61 | `nom` and `email` are replaced only when supplied. `role` is replaced only by exactly "user" or "admin". The id, password and points are untouched. |
| UserModel.PatchedIdempotent | src/models/userModel.ts:59-61 | Applying the same patch twice equals applying it once. |
| UserModel.WithoutId | src/models/userModel.ts:77-78 | The filter leaves no record with the id, keeps every other record, adds nothing that was not in the input, and keeps the length exactly when no record had the id. |
| UserModel.WithoutIdAppend | src/models/userModel.ts:77 | The filter works piece by piece, so the kept records keep their order. |
| UserModel.WithoutAbsentId | src/models/userModel.ts:77-78 | Filtering out an id nobody has returns the list unchanged. |
| UserModel.UserStore.constructor | src/models/userModel.ts:22-27 | The store starts as the normalised file. |
| UserModel.UserStore.AddUser | src/models/userModel.ts:45-50 | Exactly the normalised record is appended at the end, and the argument is returned. |
| UserModel.UserStore.UpdateUserById | src/models/userModel.ts:52-64 | An unknown id gives null and no change. Otherwise only the first record with the id becomes its patched version, and that record is returned. |
| UserModel.UserStore.SetPasswordById | src/models/userModel.ts:66-73 | The result is false exactly for an unknown id, with no change. Otherwise only that record's password hash changes. |
| UserModel.UserStore.RemoveUserById | src/models/userModel.ts:75-81 | The result is false exactly when no record has the id, with no change. Otherwise the list becomes the filtered list. |
| UserModel.UserStore.AddPoints | src/models/userModel.ts:84-92 | An unknown id gives null and no change. Otherwise only that record's points become old points + delta, and the record is returned. |
| QuizModel.QuizIndex | src/controllers/quizController.ts:53 | The index of the first quiz with the id, or -1 exactly when none has it. |
| QuizModel.QuizStore.constructor | src/models/quizModel.ts:41-44 | The store starts as the quiz file. |
| QuizController.Title | src/controllers/quizController.ts:28-32 | One listing entry: the quiz's id and title, and as author `auteurId`, else `auteurid`, else null. |
| QuizController.WellFormed | src/controllers/quizController.ts:46 | A body passes only with a non-empty id, a non-empty title and an array of questions. |
| QuizController.ListQuizzes | src/controllers/quizController.ts:28-32 | One entry per quiz, in order, with the same id and title. The author is `auteurId`, else the older `auteurid`, else null. |
| QuizController.NewQuiz | src/controllers/quizController.ts:56-62 | The new quiz takes the body's id, title and questions and the creation time. Its author is the creator's id, stored under `auteurId` only. |
| QuizController.CreateQuiz | src/controllers/quizController.ts:42-70 | 400 for a malformed body, checked before 401 for no user; then 409 for an id already taken. Each of these leaves the list unchanged. Otherwise exactly the new quiz is appended at the end. |
| QuizController.ListAfterCreate | src/controllers/quizController.ts:28-32 | After a creation, the listing is the old listing plus one entry naming the creator as author. |
| QuizController.Uncorrected | src/controllers/quizController.ts:88-93 | A stripped question loses only its correction: putting the correction back gives the question again. |
| QuizController.PublicView | src/controllers/quizController.ts:85-94 | The view keeps the quiz's id and title and the same questions in the same order, each without its correction. |
| QuizController.GetQuizById | src/controllers/quizController.ts:73-100 | The result is not-found exactly when no quiz has the id. Otherwise it is the answer-free view of the first quiz with the id. |
| QuizController.ViewHidesCorrections | src/controllers/quizController.ts:85-94 | The answer never depends on a correction: stores that differ only in corrections give identical views. |
| QuizController.DeleteQuiz | src/controllers/quizController.ts:102-140 | The linear search either finds no quiz, giving 404 and no change, or splices out the first quiz with the id. The others keep their order and the length drops by one. |
| QuizController.DeleteUndoesCreate | src/controllers/quizController.ts:53-64 | Deleting the id a creation just appended gives back the list as it was. |
| JsRuntime.FindIndex | src/models/userModel.ts:57 | `findIndex` gives the first index satisfying the predicate, or -1 exactly when none does. |
| JsRuntime.Truthy | src/controllers/scoreController.ts:16 | A string field is truthy only when present and non-empty; "" is falsy. |
| JsRuntime.Utf16Length | src/controllers/adminController.ts:80 | `.length` counts UTF-16 code units: a single character counts one below U+10000 and two above it, so a string counts between one and two per character, and exactly one per character when all lie in the Basic Multilingual Plane. |
| JsRuntime.Utf16LengthAppend | src/controllers/adminController.ts:80 | The code-unit count of a concatenation is the sum of the counts of its parts, so with the one-character case every string counts one per BMP character and two per character above U+FFFF. |
| JsRuntime.Lower | src/models/userModel.ts:42 | `toLowerCase` keeps the length, folds each character, and leaves no upper-case ASCII letter. |
| JsRuntime.IntToString | src/models/userModel.ts:26 | `String(n)` is a non-empty run of decimal digits, preceded by a minus sign for a negative number. |
| JsRuntime.ParseNumber | src/middleware/auth.ts:6-11 | `Number(s)`: "" is 0, a run of decimal digits is its value, a negative result comes from a leading minus sign, and anything else is NaN. |
| JsRuntime.ParseNumberOfIntToString | src/middleware/auth.ts:6-11 | `Number(String(n))` is `n`, so an id written as a number and read back as a string compares equal to it. |
| JsRuntime.LessEq | src/controllers/scoreController.ts:27-29 | The order the default `sort()` uses; a prefix comes before any extension of it. |
| JsRuntime.Sort | src/controllers/scoreController.ts:27-29 | `slice().sort()` keeps the number of elements; SortSorted and SortedUnique state the rest. |
| JsRuntime.Join | src/controllers/scoreController.ts:27-29 | `join(sep)`: no element gives "", one element gives itself, and otherwise the first element followed by the separator starts the result. |
| JsRuntime.JoinAppend | src/controllers/scoreController.ts:27-29 | Joining one more element gives the earlier join, the separator and that element, so every element appears in order between separators. |
| JsRuntime.LessEqTotal | src/controllers/scoreController.ts:27-29 | The default string order is total. |
| JsRuntime.LessEqAntisymmetric | src/controllers/scoreController.ts:27-29 | The default string order is antisymmetric. |
| JsRuntime.LessEqTransitive | src/controllers/scoreController.ts:27-29 | The default string order is transitive. |
| JsRuntime.SortSorted | src/controllers/scoreController.ts:27-29 | `sort()` returns a sorted permutation of its input. |
| JsRuntime.SortedUnique | src/controllers/scoreController.ts:27-29 | Two sorted permutations of the same strings are equal, so any correct sort gives the same result. |
| JsRuntime.SortIgnoresOrder | src/controllers/scoreController.ts:27-29 | Permutations of each other sort to the same array. |
| ScoreController.AnswerFor | src/controllers/scoreController.ts:26 | `answers[q.id]`: the answer under the question's id, and "anything else" when there is none. |
| ScoreController.Expected | src/controllers/scoreController.ts:27 | The sorted, joined correction: "" for no correction and the id itself for a single one. |
| ScoreController.QuestionPoints | src/controllers/scoreController.ts:26-33 | A question earns 1 exactly when an array answer, sorted and joined with a bar, or a string answer equals the sorted, joined correction; any other answer earns 0. |
| ScoreController.CountCorrect | src/controllers/scoreController.ts:24-34 | The score of a submission is between 0 and the number of questions. |
| ScoreController.Score | src/controllers/scoreController.ts:24-34 | The `for` loop's count equals the sum of the per-question points. |
| ScoreController.PermutedCorrectionScores | src/controllers/scoreController.ts:27-30 | An array answer that holds exactly the correct ids, in any order, scores. |
| ScoreController.ScoreIgnoresAnswerOrder | src/controllers/scoreController.ts:24-34 | Reordering the ids inside array answers never changes the score. |
| ScoreController.AwardScore | src/controllers/scoreController.ts:10-45 | 401 with no user comes first. Then 400 for a missing quiz id or non-object answers, then 404 for an unknown quiz; none of these credits anything. Otherwise the user's points grow by exactly the score, and a user no longer stored gives 404. |
| Auth.SessionNumber | src/middleware/auth.ts:5-6 | `Number(req.session.userId)`: no id gives NaN, "" gives 0, and a run of digits gives its value. |
| Auth.NumericIndex | src/middleware/auth.ts:11 | The first record whose `Number(id)` equals the number, or -1 exactly when none matches. |
| Auth.ResolveSessionUser | src/middleware/auth.ts:4-16 | A user is attached exactly when the session id reads as a non-zero number, the load succeeded and some record has that numeric id. It is then the first such record. |
| Auth.AttachUser | src/middleware/auth.ts:4-16 | `req.user` is set to the resolved user, or left as it was. Every path ends in a single `next()`. |
| Auth.EnsureAuthenticated | src/middleware/auth.ts:18-25 | Continues exactly when a user is attached; 401 exactly when none is. |
| Auth.EnsureAuthenticatedPage | src/middleware/auth.ts:27-34 | Continues exactly when a user is attached; otherwise redirects to `/login`. |
| AuthAdmin.RequireAdmin | src/middleware/authAdmin.ts:3-13 | Exactly one of three outcomes. Redirect to `/login` exactly when anonymous. 403 exactly when the role is not "admin", a missing role included. `next()` exactly when the role is "admin". |
| AuthAdmin.AdminIsAuthenticated | src/middleware/authAdmin.ts:3-13 | Whoever passes the admin guard also passes both authenticated guards. |
| AdminController.HandlerCheckMatchesGuard | src/controllers/adminController.ts:14 | The check repeated in each admin handler admits exactly whom the admin guard admits. |
| AdminController.IsAdmin | src/controllers/adminController.ts:14 | The check each admin handler repeats holds exactly for a present user whose role is "admin" (also lines 23, 38 and 73). |
| AdminController.RenderAdminPage | src/controllers/adminController.ts:12-19 | 403 exactly for a non-admin; otherwise the admin page with every user and no message. |
| AdminController.DeleteUser | src/controllers/adminController.ts:21-34 | 403 with no change for a non-admin. Otherwise it reports success exactly when a record was removed, and the store becomes the filtered list. |
| AdminController.RoleField | src/controllers/adminController.ts:53 | Only "admin" or "user" is forwarded as a role. |
| AdminController.UpdateUser | src/controllers/adminController.ts:36-69 | 403 with no change for a non-admin. Otherwise only the target record is patched, and any role other than "admin" or "user" leaves its role as it was. The answer is a redirect home exactly when the admin made their own record a "user". |
| AdminController.UpdateUserPassword | src/controllers/adminController.ts:71-95 | 403 with no change for a non-admin. A missing password or one under 6 characters gives "too short"; an unknown id gives "not found"; neither changes anything. Otherwise only the target's password hash is replaced. |
| AdminController.PasswordLengthCountsCodeUnits | src/controllers/adminController.ts:80 | Derived from the concatenation rule: three emoji are three characters but six UTF-16 code units, so they pass the length rule; three letters count three and do not. |
| Express.Session.constructor | src/controllers/userController.ts:28 | A regenerated session holds no user id, no snapshot, and is not destroyed. |
| Express.Request.constructor | src/middleware/auth.ts:4 | A request arrives with its session and no user attached. |
| UserController.Snapshot | src/controllers/userController.ts:33-43 | The session snapshot copies id, name and email, carries no password, and has the role, falling back to "user". |
| UserController.Login | src/controllers/userController.ts:7-65 | 400 for failed validation. 401 for an unknown email (compared in lower case) or a wrong password, leaving the session untouched. On success the session gets the user's id and snapshot, and the reply carries the same role as the snapshot. |
| UserController.NewAccount | src/controllers/userController.ts:85-91 | The new record, once stored, has the `Date.now()` id as a string that reads back as that number, the hash, role "user" and 0 points. |
| UserController.Register | src/controllers/userController.ts:68-104 | 400 for failed validation; 409 for an email already used, in any case, with nothing added. Otherwise exactly one record is appended. |
| UserController.RegisteredEmailIsFound | src/controllers/userController.ts:77-93 | A later login lookup with the registered email finds the new account. |
| UserController.RegisterKeepsEmailsUnique | src/controllers/userController.ts:77-80 | Registration keeps emails unique without regard to case. |
| UserController.Logout | src/controllers/userController.ts:107-119 | The session's `userId` and `user` are cleared, the session is destroyed, and the answer redirects to `/login`. |
| SessionFlow.LoginSessionResolves | src/controllers/userController.ts:30 | The id login stores brings back, on the next request, a record with the same numeric id. When numeric ids are distinct, it brings back the same record. |
| SessionFlow.NonNumericIdStaysAnonymous | src/middleware/auth.ts:6-7 | A record whose id is not a number can log in, but its later requests stay anonymous. |
| SessionFlow.RegisteredAccountResolves | src/controllers/userController.ts:86 | A freshly registered account, with a non-zero `Date.now()` id that no one else shares, is the user its session resolves to. |
| SessionFlow.LoggedOutSessionIsAnonymous | src/controllers/userController.ts:112-113 | After logout the next request is anonymous, and the API guard answers 401. |
| SessionFlow.NumericIndexFollowsIds | src/middleware/auth.ts:11 | Lists with the same ids at the same places resolve a session id at the same place. |
| SessionFlow.SessionSurvivesRecordEdit | src/models/userModel.ts:59-61 | Replacing a record by one with the same id, as the patch, password and point updates do, keeps every session resolving to the same position, now holding the new version. |
| SessionFlow.SelfDemotionRevokesAdmin | src/controllers/adminController.ts:58-62 | The session is not destroyed, yet an admin who made their own record a "user" is refused with 403 by the admin guard from the next request on. |

## Left out

- File I/O and JSON are not modelled. This covers `fs` reads and writes, the creation of a missing data file, `JSON.parse`/`JSON.stringify`, and `readQuizzes`/`writeQuizzes`. The stores are in-memory sequences, and load/save is the identity on normalised records (`LoadSaveRoundTrip`).
- The `500` answers of the `catch` blocks are not modelled. They arise from I/O errors, from JSON that does not parse, and from stored data that lacks what the handlers read: a quiz file that holds no array (`quizzes.map`, src/controllers/quizController.ts:28), or a stored quiz without `questions` (`quiz.questions.map` at src/controllers/quizController.ts:88, `for (const q of quiz.questions)` at src/controllers/scoreController.ts:25). The model takes every stored quiz to be well formed.
- Password hashing is not modelled: `bcrypt.hash` and `bcrypt.compare` are parameters.
- express-session's `regenerate`, `save` and `destroy` callbacks and their error paths (`next(err)`) are not modelled. Regeneration is a reset of the session object, and destruction is a flag. The SQLite session store and the cookie clearing are left out too.
- UserController.Login: the snapshot stored in the session is never read by the guards, which re-read the store, so it is kept only as state.
- The JWT/Mongoose files (`src/controllers/authController.ts`, `Connexion/src/middleware/authMiddleware.ts`) wrap libraries whose code is not part of this model.
- The `express-validator` chains are not modelled: their outcome is the `valid` parameter of `Login` and `Register`.
- The browser script `public/js/login.js`, the routes, `src/app.ts`, `src/server.ts` and `src/config/database.ts` are not part of this model. The last one duplicates the email lookup.
- The handlers the routes name but no file defines are not part of this model.
- Concurrency is not modelled. Two requests interleaving their read-modify-write of the same file can lose an update; each handler is modelled as atomic. For the same reason the `!ok` branch of `updateUserPassword` is unreachable in the model.
- The admin handlers also call `getUsers` to render the page. The model passes the current store contents instead, since nothing changes between the two reads.
- The `req.body || {}` default and `req.params.id || ""` are not modelled: the body fields arrive already as options and the id as a string.
- JsRuntime.ParseNumber: `Number()` is modelled for "", an optional minus sign, and ASCII decimal digits only. Whitespace trimming, `+`, fractions, exponents, hexadecimal and `Infinity` are read as NaN. Ids are `Date.now()` integers, so these never arise from the application's own writes. Numbers are exact integers in the model, while JavaScript numbers are doubles: `Number()` rounds a digit string beyond 2^53 (so `"9007199254740993"` reads as 9007199254740992, and two distinct long string ids could then compare equal at `Number(x.id) === id` in src/middleware/auth.ts:11), and a string of more than about 309 digits reads as `Infinity`. `NumericIndex`, `ResolveSessionUser` and the distinct-numeric-ids conclusion of `SessionFlow.LoginSessionResolves` therefore hold only for ids below 2^53. The ids the application writes are `Date.now()` values of 13 digits, well inside that range.
- JsRuntime.IntToString: `String(n)` is modelled as exact decimal digits for every integer. JavaScript uses exponent notation from 1e21 on (`"1e+21"`) and cannot hold integers beyond 2^53 exactly; the model does not capture either. The only numbers it renders are `Date.now()` ids of 13 digits, where the two agree.
- JsRuntime.Lower: `toLowerCase` folds the ASCII letters only, not the rest of Unicode.
- JsRuntime.LessEq: the default `sort()` compares UTF-16 code units; the model compares characters (code points). The two orders agree on strings of Basic Multilingual Plane characters. They differ between a character in U+E000–U+FFFF and one above U+FFFF: JavaScript puts "😀" (first code unit 0xD83D) before "\uE000", the model puts it after.
- UserModel.Normalize: points are unbounded integers rather than doubles, and a points value that is not a number (a string in the file, say) is not modelled. `Number(u.points || 0)` is read as "the number, or 0 when absent".
- ScoreController.AwardScore: the answers object is a map from question id to an array of strings, a string, or anything else. An array answers value (`typeof [] === "object"`), array elements that are not strings, and a `quizId` that is not a string are not modelled.
- QuizController.CreateQuiz: the questions an array holds are taken as well-formed `Question` values, since the handler casts them without checking.
- QuizController.CreateQuiz: `!id || !titre` (src/controllers/quizController.ts:46) accepts any truthy JSON value, but the model types both fields as strings. A numeric body `id` would be stored as a number, and `getQuizById` and `deleteQuiz` (src/controllers/quizController.ts:78, 118) compare it with `===` against the string route parameter, so they never find such a quiz; the model does not capture that.
- UserController.Register: two registrations in the same millisecond get the same id. `RegisteredAccountResolves` assumes the new id is not shared.
- AdminController.UpdateUser: an email change can duplicate another account's email, since no uniqueness check is made there. `RegisterKeepsEmailsUnique` covers registration only.
