# Personal Productivity Dashboard backend — owner-scoped records and user registry

This Dafny project models the two parts of the dashboard backend that make decisions:

- **The owner-scoped record store.** It sits behind the task, habit and note routes.
- **The user registry.** It sits behind `register` and `login`.

**Owner-scoped store.** The three route modules share one shape, so the model has one
generic table (`OwnedStore`). Each table is a map from id to row. A row holds:
- the id the database assigned;
- the owning user's id;
- the mutable columns:
  - a task has title, description and completion;
  - a habit has title, description and an active flag;
  - a note has title and content.

`OwnedStore` gives each operation a specification function over the table value:
`Create`, `Owned` (the listing), `Update` and `Delete`. The class `Store` is the same
table changed in place, the way the routes change it through the database session. Each
of its methods is tied to its function by its postcondition.

The modules `Tasks`, `Habits` and `Notes` use `Store` with their own columns. They add
the schema defaults and the 404 detail text of each route. Ids come from a counter, so a
new id is one no row has.

**User registry.** The users table is a sequence in id order. The queries behind
`.first()` have no `order_by`, so the database promises no particular match; but emails
and usernames are unique under the table invariant (`Consistent`), so at most one user
matches, and the model takes the earliest. `register` is a method of the class `UserTable`,
specified by the function `Registration`. `login` only reads, so it is a function over
the table value.

Some things come from outside this model:
- The controller calls `set_password`, `verify_password` and `generate_token` on the user
  model (models/user.py), which is not part of this model. They are the parameters
  `hash`, `verify` and `sign`; one `sign` stands for one token issue at one moment.
- An unexpected exception is the parameter `fault`. It names the step that raises.

The caller's id (`current_user.id`) is given.

`register` answers an unexpected failure with `rollback` and a 500
(controllers/users.py:72-78), but the insert is committed before the token is issued
(controllers/users.py:55-59), and a rollback cannot undo a commit. So when the refresh
or the token issue raises:
- the client gets 500 "An error occurred during registration";
- the new user stays in the table.

`Registration` and `UserTable.Register` model this as the code has it, and
`RegisterFaultRollsBack` states it. Every earlier failure leaves the table unchanged.

The methods `Tasks.TwoUsers`, `Habits.TwoUsers` and `Notes.NewNoteIsListed` are worked
examples rather than parts of the backend: each is a client that uses the route members on
one table, with the expected answers written as assertions the verifier checks.

## Model

| member | source | states |
|---|---|---|
| `OwnedStore.Owned` | app/routes/tasks.py:52 | The listing holds exactly the table's rows whose owner is the caller. |
| `OwnedStore.Create` | app/routes/tasks.py:30-41 | Create adds exactly one row, under an id no row had. The row is stamped with the caller's id and carries the input columns. The table stays consistent. |
| `OwnedStore.Update` | app/routes/tasks.py:66-83 | A miss changes nothing and reports no row. A hit replaces every mutable column with the input, keeps id and owner, and changes no other row. |
| `OwnedStore.Delete` | app/routes/tasks.py:95-109 | A miss changes nothing. A hit removes exactly the matched row and reports it. |
| `OwnedStore.Apply` | app/routes/habits.py:21-109 | One create, update or delete request keeps the table consistent (ids fresh and filed under themselves). |
| `OwnedStore.Run` | app/routes/habits.py:30-109 | Any sequence of requests by one user keeps the table consistent. |
| `OwnedStore.CreateThenList` | app/routes/notes.py:30-52 | After create, the creator's listing is the old listing plus the new row. Every other user's listing is unchanged. |
| `OwnedStore.UpdateThenList` | app/routes/tasks.py:76-83 | After a successful update, the owner's listing shows the row with the new columns in place of the old one (a full replace, not a merge). Other users' listings are unchanged. |
| `OwnedStore.DeleteThenList` | app/routes/tasks.py:95-109 | After a successful delete, the id is gone and the owner's listing lost exactly that row. Other users' listings are unchanged. |
| `OwnedStore.ForeignRowLooksMissing` | app/routes/tasks.py:66-103 | Update and delete of a row owned by someone else give the same answer as for a missing id (no row, table unchanged), so existence does not leak. |
| `OwnedStore.UpdateIdempotent` | app/routes/tasks.py:76-83 | Sending the same update twice has the same outcome as sending it once. |
| `OwnedStore.ApplyKeepsOthers` | app/routes/habits.py:66-68 | One request by a user leaves every other user's rows exactly as they were. |
| `OwnedStore.OtherOwnersUntouched` | app/routes/habits.py:95-97 | No sequence of requests by one user creates, changes or removes a row of another user. |
| `OwnedStore.Store.Add` | app/routes/tasks.py:37-39 | The in-place insert leaves the table and the returned row equal to `Create` of the old table. |
| `OwnedStore.Store.Replace` | app/routes/tasks.py:66-80 | The in-place lookup and column assignments leave the table and the result equal to `Update` of the old table. |
| `OwnedStore.Store.Remove` | app/routes/tasks.py:95-106 | The in-place lookup and delete leave the table and the result equal to `Delete` of the old table. |
| `Tasks.CreateTask` | app/routes/tasks.py:21-41 | The new task has a fresh id, the caller as owner and the request's title, description and completion. Exactly that row is added. |
| `Tasks.GetMyTasks` | app/routes/tasks.py:44-53 | Returns exactly the caller's tasks. |
| `Tasks.UpdateTask` | app/routes/tasks.py:56-83 | A missing or foreign id gives 404 "Task not found" and no change. Otherwise title, description and completion are replaced, id and owner are kept, and no other row changes. |
| `Tasks.DeleteTask` | app/routes/tasks.py:86-109 | A missing or foreign id gives 404 "Task not found" and no change. Otherwise exactly that task is removed. |
| `Habits.CreateHabit` | app/routes/habits.py:21-41 | The new habit has a fresh id, the caller as owner and the request's title, description and active flag. Exactly that row is added. |
| `Habits.GetMyHabits` | app/routes/habits.py:44-53 | Returns exactly the caller's habits. |
| `Habits.UpdateHabit` | app/routes/habits.py:56-83 | A missing or foreign id gives 404 "Habit not found" and no change. Otherwise title, description and the active flag are replaced, id and owner are kept, and no other row changes. |
| `Habits.DeleteHabit` | app/routes/habits.py:86-109 | A missing or foreign id gives 404 "Habit not found" and no change. Otherwise exactly that habit is removed. |
| `Notes.CreateNote` | app/routes/notes.py:21-40 | The new note has a fresh id, the caller as owner and the request's title and content. Exactly that row is added. |
| `Notes.GetMyNotes` | app/routes/notes.py:43-52 | Returns exactly the caller's notes. |
| `Notes.UpdateNote` | app/routes/notes.py:55-81 | A missing or foreign id gives 404 "Note not found" and no change. Otherwise title and content are replaced, id and owner are kept, and no other row changes. |
| `Notes.DeleteNote` | app/routes/notes.py:84-107 | A missing or foreign id gives 404 "Note not found" and no change. Otherwise exactly that note is removed. |
| `Users.First` | controllers/users.py:24-26 | The `.first()` lookup finds a user holding the value (the earliest; under the uniqueness invariant the only one), and finds none exactly when no user holds it. |
| `Users.Registration` | controllers/users.py:13-78 | `register` keeps emails and usernames unique. The table either stays as it was or gains exactly one user at the end. The answer is a success exactly when no step raises and both the email and the username are free. |
| `Users.Login` | controllers/users.py:80-128 | A failure is 401 "Invalid credentials" or 500. A success answers with the token and details of a user whose email matches and whose hash the password verifies against. |
| `Users.RegisterRejectsTakenEmail` | controllers/users.py:24-33 | A taken email gives 400 "Email already registered", whatever the username (so this check comes first), and the table is unchanged. |
| `Users.RegisterRejectsTakenUsername` | controllers/users.py:36-45 | A free email with a taken username gives 400 "Username already taken", and the table is unchanged. |
| `Users.RegisterAddsOneUser` | controllers/users.py:48-69 | A successful register appends exactly one user: the given username and email, the hash of the password, and an id no user had. The response carries that user's id, username, email and token. |
| `Users.RegisterFaultRollsBack` | controllers/users.py:70-78 | The exact cases that answer 500 "An error occurred during registration". Each of them leaves the table unchanged, except a failure after the commit, after which the table is the old one plus exactly the user being registered. |
| `Users.SecondRegistrationRejected` | controllers/users.py:24-33 | After a registration that added a user, a second registration with that email is refused with "Email already registered", whatever its other fields. |
| `Users.RegisterThenLogin` | controllers/users.py:48-120 | Logging in with the email and password just registered succeeds and answers with the registered user's own id, username and email, provided the password verifies against its own hash; the token is the one issued at login. |
| `Users.LoginFailuresAlike` | controllers/users.py:95-107 | An unknown email and a wrong password both answer the identical 401 "Invalid credentials". |
| `Users.LoginFaultAnswers500` | controllers/users.py:87-128 | The exact cases that answer 500 "An error occurred during login": the email query raises; or a user has the email and the password check raises; or the password verifies and the token issue raises. A failure answers 401 "Invalid credentials" exactly when neither a raising step is reached nor the password verifies for a user with the email. |
| `Users.LoginMatchesOwnUser` | controllers/users.py:91-120 | Login succeeds exactly when some user has the email and a hash the password verifies against, and no step raises. It then answers with that user's own id, username, email and token. |
| `Users.UserTable.Register` | controllers/users.py:13-78 | The in-place registration leaves the table and the answer equal to `Registration` of the old table. |

## Left out

- `set_password`, `verify_password` and `generate_token` live in models/user.py, which is not part of this model; they are the uninterpreted parameters `hash`, `verify` and `sign`. That they use bcrypt, HS256-signed JWTs and a wall-clock expiry is assumed, not shown. Since the clock is not modelled, nothing is claimed about tokens from two different requests being equal. The dependency that finds the current user from the bearer token is not part of this model either; the caller's id is a parameter.
- The order of listings is not modelled: `Owned` and the `GetMy...` functions return sets.
- Ids come from a counter, as a database sequence hands them out. Only freshness is claimed: SQLite's rowid may reuse the largest deleted id, so "an id is never reused" is not stated.
- `created_at` and `updated_at` come from the shared base model and the clock, and are not modelled.
- The route handlers catch no database errors. A failing commit in a task, habit or note route answers 500 with nothing stored; this is not modelled.
- Request validation (`EmailStr`, required fields) and response serialisation are library behaviour. Only the schema defaults are modelled, as default constructor values: no description, a task not completed, a habit active, no note content.
- Unique constraints in the database itself are not modelled. Uniqueness comes from the two checks in `register`, and the requests are taken one at a time, with no concurrent registrations.
- Logging in controllers/users.py, the engine and session setup, the email-only `User` model and schema in app/models/user.py and app/schemas/user.py, the server checks and the trivial root route are not modelled.
