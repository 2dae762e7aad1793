# Task management: a verified model

A model, in Dafny, of the task-management application: a Symfony backend (task and
user entities, their services, the `/tasks` and `/auth` controllers, the task
repository) and a React frontend (the API client, the filter, task, login and
registration forms, the task list partitions, the toast hook and the authentication
context). The model keeps the program's own vocabulary and messages, all of them in
Portuguese as the program has them.

What is modelled, and how:

- The Task entity is a `class Task` with one method per setter and the two lifecycle
  callbacks. Its field values are also available as the value `TaskData`, which is
  what the `tasks` table stores and the repository queries.
- The database tables are classes holding a sequence of rows and the next generated
  id (`TaskTable`, `UserTable`). `persist` followed by `flush` appends a row, a `flush`
  after changes replaces a row, and `remove` followed by `flush` deletes one.
- Repository queries are functions over the rows.
- Service and controller operations that write are methods. Each method is tied to a
  pure decision function (what it answers, and which rows it leaves). The
  properties (owner guard, refusals change nothing, other users' tasks untouched)
  are lemmas about those decision functions.
- Foreign code is passed in as a parameter. This covers the password hasher and its
  verifier, the JWT issuer, the entity validator for users, date parsing,
  `FILTER_VALIDATE_BOOLEAN`, `toISOString`, the local-time `Date` getters and the
  current instant.
- JSON request bodies are maps from keys to scalar values. The model spells out
  PHP's `isset`, truthiness and weak string coercion.
- Lengths are counted in the unit of each platform. JavaScript `.length` counts UTF-16
  code units, the Symfony `Length` constraint counts code points, and PHP `strlen`
  counts UTF-8 bytes.
- The frontend forms follow the rule order of the form library: `required`, then
  `maxLength`, `minLength`, `pattern` and finally `validate`. The bounds and the
  pattern are skipped for an empty value.

Where the code and the program's own description disagree, the model follows the
code, with one exception:

- The repository and the controller treat every task as belonging to a user, but as
  written the code cannot run those paths. `Task.php` declares no `user` field and no
  `setUser` or `getUser`, and the migration creates no user column. So the call at
  `TaskService.php:33` and the owner checks at `TaskController.php:115`, `:131`,
  `:166` and `:184` call methods that do not exist and throw. The DQL condition
  `t.user` (`TaskRepository.php:34`, `:70`, `:78`, `:102`, `:118`) names an unmapped
  field. Every owner-scoped path therefore fails as written. The model does not follow
  the code here: it supplies the association the code assumes, an explicit `owner` in
  `TaskData` and a `SetUser` on `Task`.
- `register` in `AuthController.php` does not apply `validatePasswordStrength`. The
  registration form only asks for 6 characters. The model follows both as written.
- The unit test file for the service calls `createTask` and `getTaskStatistics`
  without the user argument, and expects `findByFilters` with 4 arguments. The model
  follows the service.
- The `category` column is `VARCHAR(100)`, but no constraint limits the category. A
  valid task with a longer category passes validation, and then `flush` throws and
  the request ends in a 500 with nothing stored. The model includes this failure
  (`ColumnsFit`, the `Failed` outcome, `ServerError`).

## Model

| member | source | states |
|---|---|---|
| TaskEntity.Violations | backend/src/Entity/Task.php:22-51 | no violations exactly when the title is non-blank with 3 to 255 code points, the description is at most 1000, and the priority is baixa, media or alta; every violation names one of those three fields |
| TaskEntity.NewTaskViolations | backend/src/Entity/Task.php:20-67 | a new task has no id, no title, is not completed and has priority media; its only violation is the missing title |
| TaskEntity.TitleBoundary | backend/src/Entity/Task.php:24-29 | a two-character title is too short, a three-character one passes |
| TaskEntity.CategoryUnchecked | backend/src/Entity/Task.php:53-55 | no category, however long, changes the violations |
| TaskEntity.Task.constructor | backend/src/Entity/Task.php:20-67 | a new Task holds the declared defaults |
| TaskEntity.Task.Load | backend/src/Entity/Task.php:14-67 | a Task hydrated from a stored row holds exactly that row |
| TaskEntity.Task.SetUser | backend/src/Service/TaskService.php:33 | only the owner changes |
| TaskEntity.Task.SetTitle | backend/src/Entity/Task.php:79-83 | only the title changes, to the given value |
| TaskEntity.Task.SetDescription | backend/src/Entity/Task.php:90-94 | only the description changes, to the given value |
| TaskEntity.Task.SetCompleted | backend/src/Entity/Task.php:101-105 | only the completion flag changes, to the given value |
| TaskEntity.Task.SetPriority | backend/src/Entity/Task.php:112-116 | only the priority changes, to the given value |
| TaskEntity.Task.SetCategory | backend/src/Entity/Task.php:123-127 | only the category changes, to the given value |
| TaskEntity.Task.SetCreatedAt | backend/src/Entity/Task.php:134-138 | only the creation instant changes |
| TaskEntity.Task.SetUpdatedAt | backend/src/Entity/Task.php:145-149 | only the update instant changes |
| TaskEntity.Task.SetDueDate | backend/src/Entity/Task.php:156-160 | only the due date changes, to the given value |
| TaskEntity.Task.SetCreatedAtValue | backend/src/Entity/Task.php:162-167 | PrePersist sets both the creation and the update instant to now; nothing else changes |
| TaskEntity.Task.SetUpdatedAtValue | backend/src/Entity/Task.php:169-173 | PreUpdate sets the update instant to now; nothing else changes |
| TaskEntity.IsValid | backend/src/Entity/Task.php:22-51 | defines what the declared constraints accept: a non-blank title of 3 to 255 code points, a description of at most 1000 when present, one of the three priorities; `Violations` is proved empty exactly when it holds |
| TaskEntity.ColumnsFit | backend/src/Entity/Task.php:22-55 | defines which rows the `tasks` columns can hold: a non-null title of at most 255 characters, a priority of at most 50, a category of at most 100 when present |
| TaskEntity.ValidOverflowsOnlyCategory | backend/src/Entity/Task.php:22-55 | a valid task fails to fit the columns exactly when its category is over 100 characters, since the category column has no validator |
| TaskEntity.CategoryOverflow | backend/src/Entity/Task.php:53-55 | a valid task with a 101-character category has no violations and still does not fit its column |
| TaskTable.ReplaceById | backend/src/Service/TaskService.php:70 | the length is kept and every row with another id is unchanged |
| TaskTable.RemoveById | backend/src/Service/TaskService.php:83-84 | no row with the id is left, and every remaining row was stored before |
| TaskTable.FindById | backend/src/Controller/TaskController.php:113 | the row found has the requested id and is stored; `None` exactly when no row has it |
| TaskTable.FindByIdAt | backend/src/Controller/TaskController.php:113 | with unique ids, looking up the id of row k finds row k |
| TaskTable.RemoveByIdExact | backend/src/Service/TaskService.php:81-85 | deleting the task stored at position k leaves exactly the rows before and after it |
| TaskTable.KeepsAllOthers | backend/src/Service/TaskService.php:81-85 | every row with a different id survives a delete |
| TaskTable.ReplaceByIdExact | backend/src/Service/TaskService.php:70 | writing back the task stored at k replaces position k and nothing else |
| TaskTable.RemoveKeepsWellFormed | backend/src/Service/TaskService.php:81-85 | a delete keeps every row within the columns, ids generated, below the next id and unique |
| TaskTable.TaskTable.constructor | backend/src/Service/TaskService.php:45-46 | the table starts empty and well formed |
| TaskTable.TaskTable.Insert | backend/src/Service/TaskService.php:45-46 | a row that fits the columns is appended with the next generated id; one that does not is refused and no row is added; the table stays well formed |
| TaskTable.TaskTable.Write | backend/src/Service/TaskService.php:70 | a stored task's row is replaced exactly when the new values fit the columns, else the rows stay; the table stays well formed |
| TaskTable.TaskTable.Delete | backend/src/Service/TaskService.php:83-84 | the row with the id is removed, and the table stays well formed |
| TaskRepository.CreatedOrderIsPreorder | backend/src/Repository/TaskRepository.php:58 | ordering by creation instant, newest first and nulls first, is a total preorder |
| TaskRepository.DueOrderIsPreorder | backend/src/Repository/TaskRepository.php:105 | ordering by due date, earliest first and nulls last, is a total preorder |
| TaskRepository.FindByFiltersCorrect | backend/src/Repository/TaskRepository.php:23-61 | the result is sorted newest first and holds each stored row exactly as often as it is stored when it passes every active filter, and never otherwise |
| TaskRepository.FindByFiltersSound | backend/src/Repository/TaskRepository.php:33-56 | a returned task is the user's, has the requested completion, priority and category, and contains the search text in its title or description |
| TaskRepository.FindByFiltersComplete | backend/src/Repository/TaskRepository.php:33-56 | every stored task passing all active filters is returned |
| TaskRepository.FindByFiltersUnscoped | backend/src/Repository/TaskRepository.php:33-36 | with no user and no filter, every row is returned |
| TaskRepository.EmptySearchMatchesTitled | backend/src/Repository/TaskRepository.php:53-56 | an empty search text matches any task with a title |
| TaskRepository.GetTaskStatsCorrect | backend/src/Repository/TaskRepository.php:66-90 | total counts the user's tasks, completed the completed ones, and pending is exactly the count of uncompleted ones; completed and pending never exceed total |
| TaskRepository.FindOverdueTasksCorrect | backend/src/Repository/TaskRepository.php:95-108 | exactly the user's uncompleted tasks due strictly before now, each as often as stored, earliest due first |
| TaskRepository.OverdueExample | backend/src/Repository/TaskRepository.php:100-102 | a pending task of the user due a day before now is overdue, and the same task completed is not |
| TaskRepository.InsertCategory | backend/src/Repository/TaskRepository.php:116-120 | inserting into an ascending distinct list keeps it ascending and distinct, and adds exactly that category |
| TaskRepository.InsertBefore | backend/src/Repository/TaskRepository.php:120 | a category smaller than the head goes first |
| TaskRepository.InsertAfter | backend/src/Repository/TaskRepository.php:120 | a category larger than the head is inserted into the tail |
| TaskRepository.DistinctCategories | backend/src/Repository/TaskRepository.php:116-119 | the collected categories are strictly ascending and are exactly the non-null categories of the user's tasks |
| TaskRepository.GetAvailableCategories | backend/src/Repository/TaskRepository.php:113-125 | the result is strictly ascending (distinct and sorted) and holds exactly the non-null categories of the user's tasks |
| TaskRepository.Matches | backend/src/Repository/TaskRepository.php:33-56 | defines the WHERE clause: the user condition only when a user is given, then each given filter, with the search as a substring of the title or the description |
| TaskRepository.FindByFilters | backend/src/Repository/TaskRepository.php:23-61 | defines the query as the matching rows sorted newest first; what it returns is stated by FindByFiltersCorrect, FindByFiltersSound and FindByFiltersComplete |
| TaskRepository.GetTaskStats | backend/src/Repository/TaskRepository.php:66-90 | defines the two COUNT queries over the user's tasks and pending as their difference; its bounds and the pending count are stated by GetTaskStatsCorrect |
| TaskRepository.IsOverdue | backend/src/Repository/TaskRepository.php:98-103 | defines the overdue condition: the user's, not completed, with a due date strictly before now |
| TaskRepository.FindOverdueTasks | backend/src/Repository/TaskRepository.php:95-108 | defines the overdue query sorted by due date ascending; its contents and order are stated by FindOverdueTasksCorrect |
| TaskService.ValidateDueDateCases | backend/src/Service/TaskService.php:144-152 | no due date passes; a date a day ahead and one exactly now pass; one a day ago fails |
| TaskService.DueDateNormalization | backend/src/Service/TaskService.php:179-196 | the stored due date is the parsed one exactly when the input is truthy, parses, and is not on an earlier day than today; a falsy, unparsable or past-day input clears it; a stored due date is never on a past day |
| TaskService.DueDateExamples | backend/src/Service/TaskService.php:179-196 | an empty string clears the due date, and so does a date from yesterday |
| TaskService.PopulateKeepsUnsetFields | backend/src/Service/TaskService.php:157-197 | a key that is absent or null leaves its field as it was; id, owner and timestamps never change |
| TaskService.PopulateNullKeeps | backend/src/Service/TaskService.php:163-177 | a null description cannot clear it, an empty string does set it to "" |
| TaskService.PopulateIdempotent | backend/src/Service/TaskService.php:157-197 | populating twice with the same input is populating once |
| TaskService.PopulateTaskFromArray | backend/src/Service/TaskService.php:157-197 | the task afterwards holds the populated values |
| TaskService.ReadDueDate | backend/src/Service/TaskService.php:179-196 | the due date the truthy, parse and past-day steps leave is NormalizeDueDate's: null for a falsy or unparsable value or a date on an earlier day, else the parsed date (DueDateNormalization) |
| TaskService.CreateTask | backend/src/Service/TaskService.php:30-52 | a valid draft that fits the columns is appended as one new row owned by the user with a fresh id and both timestamps now; a valid draft whose category is over 100 characters fails in `flush` and stores nothing; an invalid one returns the violations and stores nothing |
| TaskService.UpdateTask | backend/src/Service/TaskService.php:57-76 | a valid populated task replaces its own row, with the update instant moved exactly when the flush sees a change; a changed task that no longer fits the columns fails in `flush` and leaves the row; an invalid one returns the violations and leaves the table |
| TaskService.DeleteTask | backend/src/Service/TaskService.php:81-85 | the task's row is removed, it can no longer be found, and every other row stays |
| TaskService.ToggleTwice | backend/src/Service/TaskService.php:90-96 | toggling twice restores the flag and every field but the update instant |
| TaskService.ToggleTaskComplete | backend/src/Service/TaskService.php:90-96 | the flag is flipped, the update instant is now, the row is written back (a stored row always fits the columns, so this flush succeeds), and the toggled task is returned |
| TaskService.GetTaskStatisticsCorrect | backend/src/Service/TaskService.php:117-123 | the statistics are the repository counts plus the overdue count, and overdue never exceeds pending |
| TaskService.ValidateDueDate | backend/src/Service/TaskService.php:144-152 | defines the check: no due date passes, otherwise it must not lie before now; stated by ValidDueDateNotPastDay and ValidateDueDateCases |
| TaskService.ValidDueDateNotPastDay | backend/src/Service/TaskService.php:144-152 | for all inputs: the check holds exactly for no due date or one not before now; a passing date never falls on a day before today, and a date passing now passed at every earlier instant |
| TaskService.NormalizeDueDate | backend/src/Service/TaskService.php:179-196 | defines the due date a populate stores: null for a falsy or unparsable value and for a date on an earlier day, else the parsed date; stated by DueDateNormalization |
| TaskService.Populate | backend/src/Service/TaskService.php:157-197 | defines the fields after `populateTaskFromArray`: each set key overwrites its field after PHP's conversion; stated by PopulateKeepsUnsetFields, PopulateNullKeeps and PopulateIdempotent |
| TaskService.Drafted | backend/src/Service/TaskService.php:32-34 | defines the task `createTask` validates: a new task owned by the user, then populated |
| TaskService.Dirty | backend/src/Service/TaskService.php:70 | defines when `flush` finds a change: a field differs, or a due date was set, since the ORM compares the new DateTime object by identity |
| TaskService.Flushed | backend/src/Entity/Task.php:169-173 | defines the task after `flush`: PreUpdate moves the update instant to now exactly when there is a change |
| TaskService.Toggled | backend/src/Service/TaskService.php:90-96 | defines the toggled task: the flag flipped and the update instant now; stated by ToggleTwice |
| TaskService.GetTaskStatistics | backend/src/Service/TaskService.php:117-123 | defines the statistics as the repository counts plus the overdue count; stated by GetTaskStatisticsCorrect |
| TaskController.IndexScopedAndCounted | backend/src/Controller/TaskController.php:24-44 | `index` answers 200 with a count equal to the number of tasks returned; every task returned belongs to the caller, every task of the caller matching the query is returned, and `completed` filters only when the query has it |
| TaskController.OverdueCounted | backend/src/Controller/TaskController.php:100-110 | `overdue` answers 200 with exactly the caller's overdue tasks and their count |
| TaskController.ShowOnlyOwn | backend/src/Controller/TaskController.php:113-126 | `show` returns a task only to its owner, and only the stored task with that id; another user's task is 403, an unknown id is 404 |
| TaskController.OwnerGuardFirst | backend/src/Controller/TaskController.php:113-198 | on another user's task, show, update (whatever the body), delete and toggle all answer 403 "Acesso negado" and leave the rows |
| TaskController.RefusalsChangeNothing | backend/src/Controller/TaskController.php:52-154 | every refused write leaves the rows as they were; an empty body is 400 "Dados inválidos" for create and for the owner's update; a non-empty create succeeds exactly when the drafted task is valid and fits the columns, and answers 500 exactly when it is valid and does not fit; the owner's non-empty update answers 500 exactly when the populated task is valid, changed and does not fit |
| TaskController.ReplaceOwnKeepsOthers | backend/src/Controller/TaskController.php:147 | replacing one's own task leaves other users' tasks as they were |
| TaskController.RemoveOwnKeepsOthers | backend/src/Controller/TaskController.php:173 | removing one's own task leaves other users' tasks as they were |
| TaskController.OnlyOwnTasksChange | backend/src/Controller/TaskController.php:47-198 | whatever a user sends to create, update, delete or toggle, other users' tasks stay exactly as they were; an update keeps the task's id, owner and creation instant |
| TaskController.Create | backend/src/Controller/TaskController.php:47-73 | the answer and the table are those of the create decision, including the 500 and the unchanged rows when the database refuses the row |
| TaskController.Update | backend/src/Controller/TaskController.php:129-161 | the answer and the table are those of the update decision, including the 500 and the unchanged rows when the database refuses the row |
| TaskController.Delete | backend/src/Controller/TaskController.php:164-179 | the answer and the table are those of the delete decision |
| TaskController.Toggle | backend/src/Controller/TaskController.php:182-198 | the answer and the table are those of the toggle decision |
| TaskController.IndexFilters | backend/src/Controller/TaskController.php:26-37 | defines the filters `index` builds: `completed` converted only when present, the other parameters as given, the current user always |
| TaskController.Index | backend/src/Controller/TaskController.php:24-44 | defines the `index` answer: 200 with the filtered tasks and their count; stated by IndexScopedAndCounted |
| TaskController.Stats | backend/src/Controller/TaskController.php:76-85 | defines the `stats` answer: 200 with the user's statistics, whose counts GetTaskStatisticsCorrect states |
| TaskController.Categories | backend/src/Controller/TaskController.php:88-97 | defines the `categories` answer: 200 with the user's categories, stated by GetAvailableCategories |
| TaskController.Overdue | backend/src/Controller/TaskController.php:100-110 | defines the `overdue` answer: 200 with the overdue tasks and their count; stated by OverdueCounted |
| TaskController.Show | backend/src/Controller/TaskController.php:113-126 | defines the `show` answer: 404 for an unknown id, 403 for another user's task, else 200 with the task; stated by ShowOnlyOwn |
| TaskController.ServerError | backend/src/Service/TaskService.php:46 | defines the answer to the exception `flush` throws when the database refuses a row: 500, with no data |
| TaskController.CreateDecision | backend/src/Controller/TaskController.php:47-73 | defines what `create` answers and stores: 400 for an empty body, 422 with the violations, 500 for a valid task that does not fit the columns, else 201 with one appended row; stated by RefusalsChangeNothing and OnlyOwnTasksChange |
| TaskController.UpdateDecision | backend/src/Controller/TaskController.php:129-161 | defines what `update` answers and stores: 404, 403, 400 for an empty body, 422, 500 for a changed task that does not fit the columns, else 200 with the row replaced when changed; stated by OwnerGuardFirst, RefusalsChangeNothing and OnlyOwnTasksChange |
| TaskController.DeleteDecision | backend/src/Controller/TaskController.php:164-179 | defines what `delete` answers and stores: 404, 403, else 200 with the row removed; stated by OwnerGuardFirst and OnlyOwnTasksChange |
| TaskController.ToggleDecision | backend/src/Controller/TaskController.php:182-198 | defines what `toggle` answers and stores: 404, 403, else 200 with the toggled row written back; stated by OwnerGuardFirst and OnlyOwnTasksChange |
| TaskController.CreateKeepsOthers | backend/src/Controller/TaskController.php:47-73 | a create only ever appends a task owned by the caller, so other users' tasks stay as they were |
| TaskController.UpdateKeepsOthers | backend/src/Controller/TaskController.php:129-161 | an update leaves other users' tasks as they were, and a successful one keeps the task's id, owner and creation instant |
| Users.FindByEmail | backend/src/Service/UserService.php:144-147 | the user found holds exactly that email and is stored; `None` exactly when nobody holds it |
| Users.FindById | backend/src/Service/UserService.php:152-155 | the user found has that id and is stored; `None` exactly when no user has it |
| Users.SameIdSameRow | backend/src/Service/UserService.php:81 | with unique ids, two stored users with the same id are the same user |
| Users.ReplaceById | backend/src/Service/UserService.php:106 | the length is kept and every row with another id is unchanged |
| Users.RemoveById | backend/src/Service/UserService.php:160-164 | no row with the id is left, every remaining one was stored |
| Users.RemoveKeepsWellFormed | backend/src/Service/UserService.php:160-164 | a delete keeps ids generated, below the next id and unique, and set emails unique |
| Users.UserTable.constructor | backend/src/Service/UserService.php:64-65 | the table starts empty and well formed |
| Users.UserTable.Insert | backend/src/Service/UserService.php:64-65 | a user with a free email is appended with the next id, the next id advances by one, and emails stay unique |
| Users.UserTable.Write | backend/src/Service/UserService.php:106 | a stored user whose email nobody else holds is written back, and emails stay unique |
| Users.UserTable.Delete | backend/src/Service/UserService.php:162-163 | the row with the id is removed, and ids and emails stay unique |
| UserService.CreateUser | backend/src/Service/UserService.php:33-71 | a taken email is refused with "Este email já está sendo usado" before anything else; else validation errors store nothing; else exactly one user is appended with the hashed password and the next id advances by one; a refusal leaves the next id as it was |
| UserService.UpdatedPassword | backend/src/Service/UserService.php:89-95 | the hash is replaced exactly when a password is set and non-empty in PHP's sense (neither "" nor "0"), else kept; the id never changes |
| UserService.UpdateKeepsEmailsUnique | backend/src/Service/UserService.php:79-87 | once the guard lets an update through, no other user holds the new email |
| UserService.UpdateUser | backend/src/Service/UserService.php:76-112 | an email held by another user is refused and nothing changes; validation errors change nothing; otherwise the updated user replaces its row; on every path the next id is unchanged |
| UserService.OwnEmailPassesGuard | backend/src/Service/UserService.php:79 | resubmitting one's own email never triggers the duplicate check |
| UserService.DeleteUser | backend/src/Service/UserService.php:160-164 | the user's row is removed, no user with that id can be found afterwards, the next id is unchanged, and the table stays well formed |
| UserService.ValidateLoginCorrect | backend/src/Service/UserService.php:117-139 | login succeeds exactly for the stored user with that email whose password verifies; both failures give the same "Credenciais inválidas" |
| UserService.SameEmailSameRow | backend/src/Service/UserService.php:178 | in a well-formed table two stored users with the same set email are the same row |
| UserService.IsEmailAvailableIff | backend/src/Service/UserService.php:169-183 | an email is available exactly when nobody holds it or its holder is the excluded user |
| UserService.GetUserStatisticsCorrect | backend/src/Service/UserService.php:188-201 | the user's totals agree with the repository counts, and pending is the number of uncompleted tasks |
| UserService.OwnedCompletedSplit | backend/src/Service/UserService.php:190-192 | the user's tasks split into completed and uncompleted ones |
| UserService.ValidatePasswordStrength | backend/src/Service/UserService.php:206-230 | the errors are the failed checks in order (fewer than 8 UTF-8 bytes, no ASCII upper, no lower, no digit), and valid holds exactly when all four pass |
| UserService.MessagesDistinct | backend/src/Service/UserService.php:210-224 | the four messages are pairwise different |
| UserService.PasswordErrorsExact | backend/src/Service/UserService.php:210-224 | each message is reported exactly when its check fails, never twice |
| UserService.PasswordExamples | backend/src/Service/UserService.php:210 | seven characters including "é" are eight bytes and pass the length check; "abc" reports length, uppercase and digit |
| UserService.PopulateUser | backend/src/Service/UserService.php:235-244 | defines `populateUserFromArray` on email and name: a set key overwrites its field |
| UserService.DraftedUser | backend/src/Service/UserService.php:46-53 | defines the user `createUser` validates: populated, with the hash of a given password |
| UserService.EmailChangeChecked | backend/src/Service/UserService.php:79 | defines when `updateUser` looks the email up: it is set and not identical to the current one |
| UserService.UpdatedUser | backend/src/Service/UserService.php:89-95 | defines the user after `updateUser` has populated it, re-hashing a non-empty password; stated by UpdatedPassword |
| UserService.ValidateLogin | backend/src/Service/UserService.php:117-139 | defines `validateLogin`: the user with that email if the password verifies, else "Credenciais inválidas"; stated by ValidateLoginCorrect |
| UserService.IsEmailAvailable | backend/src/Service/UserService.php:169-183 | defines `isEmailAvailable`: nobody holds the email or its holder is the excluded user; stated by IsEmailAvailableIff |
| UserService.GetUserStatistics | backend/src/Service/UserService.php:188-201 | defines the counts over the user's task collection; stated by GetUserStatisticsCorrect |
| UserService.PasswordErrors | backend/src/Service/UserService.php:206-230 | defines the strength errors in their fixed order; stated by PasswordErrorsExact and ValidatePasswordStrength |
| AuthController.RegisterOutcomes | backend/src/Controller/AuthController.php:41-111 | an empty body gets 400 "Dados inválidos" and a missing field 400; 409 exactly for a complete body whose email is taken; for a complete body with a free email, 422 carrying the validation errors exactly when there are some and 201 exactly when there are none; a user is added only on 201, and then exactly one, with the given email, a fresh id and the token issued for it; each refusal leaves the users, and emails stay unique |
| AuthController.Register | backend/src/Controller/AuthController.php:41-111 | the answer and the users are those of the register decision; the next id advances by one exactly on a 201 and is otherwise unchanged |
| AuthController.LoginIndistinguishable | backend/src/Controller/AuthController.php:113-153 | unknown email and wrong password get the same 401; login succeeds exactly when the service's login check does, with the issued token |
| AuthController.LoginNeedsBothFields | backend/src/Controller/AuthController.php:118-123 | a missing email or password is 400 whatever the table holds |
| AuthController.SessionEndpoints | backend/src/Controller/AuthController.php:155-194 | without an authenticated user `me` and `refresh` answer 401 with no data; with one, `me` returns that user and `refresh` a token issued for it |
| AuthController.RegisterDecision | backend/src/Controller/AuthController.php:41-111 | defines what `register` answers and stores: 400, 400, 409, 422, else 201 with one new user and its token; when each outcome happens and what it stores are stated by RegisterOutcomes |
| AuthController.Login | backend/src/Controller/AuthController.php:113-153 | defines the `login` answer: 400 for a missing field, the same 401 for an unknown email and a wrong password, else 200 with a token; stated by LoginIndistinguishable and LoginNeedsBothFields |
| AuthController.Me | backend/src/Controller/AuthController.php:155-171 | defines the `me` answer: 401 without a user, else the user; stated by SessionEndpoints |
| AuthController.Refresh | backend/src/Controller/AuthController.php:173-194 | defines the `refresh` answer: 401 without a user, else a token issued for it; stated by SessionEndpoints |
| ClientTypes.KeyCount | frontend/src/components/TaskList.tsx:157 | the number of filter keys is at most four, and zero exactly for `{}` |
| ClientTypes.PayloadJson | frontend/src/services/taskService.ts:41-48 | title and priority are always sent; each optional key is sent exactly when it is defined |
| TaskFiltersForm.OnSubmit | frontend/src/components/TaskFilters.tsx:20-37 | the emitted filters are those the form values determine |
| TaskFiltersForm.FiltersOfCorrect | frontend/src/components/TaskFilters.tsx:20-37 | completed is present exactly for a filled selection and true exactly for "true"; priority and category are present exactly when filled, verbatim; search is present exactly when not all white space, trimmed |
| TaskFiltersForm.BlankFormNoFilters | frontend/src/components/TaskFilters.tsx:20-37 | a form with nothing filled emits `{}` |
| TaskFiltersForm.HandleClear | frontend/src/components/TaskFilters.tsx:39-42 | the form is reset to empty values, and `{}` is emitted |
| TaskFiltersForm.ActiveVersusEmitted | frontend/src/components/TaskFilters.tsx:32-44 | a form that emits a filter counts as active, but a white-space-only search is active while emitting `{}` |
| TaskFiltersForm.FiltersOf | frontend/src/components/TaskFilters.tsx:20-34 | defines the filters a submit emits: each filled field, `completed` as a boolean, the search trimmed and dropped when blank; stated by FiltersOfCorrect |
| TaskFiltersForm.HasActiveFilters | frontend/src/components/TaskFilters.tsx:44 | defines the active indicator: some watched value is non-empty; compared with the emitted filters by ActiveVersusEmitted |
| TaskApi.BuildQueryParams | frontend/src/services/taskService.ts:13-26 | the appended parameters are those the filters determine |
| TaskApi.QueryParamsCorrect | frontend/src/services/taskService.ts:15-26 | completed is sent whenever defined, false included, as "true" or "false"; priority, category and search exactly when non-empty, each with the filter's value verbatim; keys come in the order completed, priority, category, search, at most once each |
| TaskApi.KeysDistinct | frontend/src/services/taskService.ts:15-26 | the four keys are distinct |
| TaskApi.Serialize | frontend/src/services/taskService.ts:28 | the query string is empty exactly when no parameter is appended |
| TaskApi.TasksEndpointBare | frontend/src/services/taskService.ts:28-29 | the endpoint is exactly `/tasks` exactly when no parameter is sent; `completed: false` alone still gives `/tasks?completed=false`, while an empty priority and search give `/tasks` |
| TaskApi.TaskCallsAddressTheTask | frontend/src/services/taskService.ts:34-62 | toggle, delete and update use PATCH, DELETE and PUT; delete and update address `/tasks/{id}`, toggle a longer path starting with it, and the id segment reads back as the id |
| TaskApi.QueryParams | frontend/src/services/taskService.ts:13-26 | defines the appended parameters; stated by QueryParamsCorrect |
| TaskApi.TasksEndpoint | frontend/src/services/taskService.ts:28-29 | defines the endpoint `/tasks` with `?` and the query only when it is non-empty; stated by TasksEndpointBare |
| TaskApi.GetTasks | frontend/src/services/taskService.ts:12-32 | defines the GET request for the list with the built endpoint |
| TaskApi.GetTask | frontend/src/services/taskService.ts:34-36 | defines the GET of `/tasks/{id}` |
| TaskApi.CreateTask | frontend/src/services/taskService.ts:38-43 | defines the POST to `/tasks` with the serialized payload |
| TaskApi.UpdateTask | frontend/src/services/taskService.ts:45-50 | defines the PUT to `/tasks/{id}` with the serialized payload; stated by TaskCallsAddressTheTask |
| TaskApi.DeleteTask | frontend/src/services/taskService.ts:52-56 | defines the DELETE of `/tasks/{id}`; stated by TaskCallsAddressTheTask |
| TaskApi.ToggleTask | frontend/src/services/taskService.ts:58-62 | defines the PATCH of `/tasks/{id}/toggle`; stated by TaskCallsAddressTheTask |
| TaskApi.GetStats | frontend/src/services/taskService.ts:64-66 | defines the GET of `/tasks/stats` |
| TaskApi.GetCategories | frontend/src/services/taskService.ts:68-70 | defines the GET of `/tasks/categories` |
| TaskApi.GetOverdueTasks | frontend/src/services/taskService.ts:72-74 | defines the GET of `/tasks/overdue` |
| Toasts.WithoutIdCorrect | frontend/src/hooks/useToast.ts:17-19 | no toast with the id is left, the others keep their order, and a list without that id is unchanged |
| Toasts.RemoveAfterShow | frontend/src/hooks/useToast.ts:12-19 | removing a just-shown toast's id takes it away and leaves the earlier toasts without that id |
| Toasts.ToastState.constructor | frontend/src/hooks/useToast.ts:10 | the list starts empty |
| Toasts.ToastState.ShowToast | frontend/src/hooks/useToast.ts:12-15 | one toast with id now, the message and the type (info by default) is appended |
| Toasts.ToastState.ShowSuccess | frontend/src/hooks/useToast.ts:25 | appends a success toast |
| Toasts.ToastState.ShowError | frontend/src/hooks/useToast.ts:26 | appends an error toast |
| Toasts.ToastState.ShowInfo | frontend/src/hooks/useToast.ts:27 | appends an info toast |
| Toasts.ToastState.RemoveToast | frontend/src/hooks/useToast.ts:17-19 | the list becomes the list without that id |
| TaskList.CompletedPendingPartition | frontend/src/components/TaskList.tsx:79-80 | completed and pending tasks together hold every task exactly as often as loaded |
| TaskList.OverdueWithinPending | frontend/src/components/TaskList.tsx:80-83 | the overdue tasks are the pending ones due before now, a subsequence of the pending tasks |
| TaskList.NoDueDateNeverOverdue | frontend/src/components/TaskList.tsx:81-83 | a task with no or an empty due date is never overdue, nor is a completed one |
| TaskList.EmptyStateMessageCorrect | frontend/src/components/TaskList.tsx:157-160 | the empty list suggests adjusting the filters exactly when some filter key is set, and creating a first task otherwise |
| TaskList.CompletedTasks | frontend/src/components/TaskList.tsx:79 | defines the completed tasks in list order; stated by CompletedPendingPartition |
| TaskList.PendingTasks | frontend/src/components/TaskList.tsx:80 | defines the pending tasks in list order; stated by CompletedPendingPartition |
| TaskList.OverdueTasks | frontend/src/components/TaskList.tsx:81-83 | defines the pending tasks with a due date before now; stated by OverdueWithinPending and NoDueDateNeverOverdue |
| TaskList.EmptyStateMessage | frontend/src/components/TaskList.tsx:157-160 | defines the empty-list message chosen by the number of filter keys; stated by EmptyStateMessageCorrect |
| FormRules.FieldErrorNoneIff | frontend/src/components/TaskForm.tsx:117-121 | a value passes exactly when required and non-empty, within the bounds and matching the pattern when non-empty, and accepted by `validate` |
| FormRules.EmailShape | frontend/src/components/auth/RegisterForm.tsx:80-86 | an accepted email has one `@`, no white space, and ends with a dot and at least two letters |
| FormRules.EmailAccepted | frontend/src/components/auth/RegisterForm.tsx:82 | "ana@mail.com" is accepted in lower and upper case |
| FormRules.WhitespaceRefused | frontend/src/components/auth/RegisterForm.tsx:82 | no string with white space is accepted |
| FormRules.TwoAtSignsRefused | frontend/src/components/auth/RegisterForm.tsx:82 | no string with two `@` is accepted |
| FormRules.EmailRefusedExamples | frontend/src/components/auth/RegisterForm.tsx:82 | an email with a space, and one with `@@`, are refused |
| FormRules.EmailRulesCorrect | frontend/src/components/auth/RegisterForm.tsx:79-86 | an email passes exactly when it matches the pattern, and an empty one is reported as required |
| FormRules.PasswordRulesCorrect | frontend/src/components/auth/RegisterForm.tsx:101-107 | a password passes exactly when it has at least 6 UTF-16 code units, and an empty one is reported as required |
| FormRules.FieldError | frontend/src/components/TaskForm.tsx:117-121 | defines the rule order of the form library: required, maxLength, minLength, pattern (the last three skipped for an empty value), then validate; stated by FieldErrorNoneIff |
| FormRules.MatchesEmail | frontend/src/components/auth/RegisterForm.tsx:82 | defines the email pattern: a local part, `@`, a domain, a dot and at least two letters, case-insensitive; stated by EmailShape, EmailAccepted, WhitespaceRefused and TwoAtSignsRefused |
| TaskForm.FormatDateTimeLocalShape | frontend/src/components/TaskForm.tsx:21-29 | a date with a four-digit year renders as 16 characters `YYYY-MM-DDTHH:MM`, each field zero-padded and reading back as its value |
| TaskForm.OnFormSubmitCorrect | frontend/src/components/TaskForm.tsx:71-85 | nothing is submitted exactly without a priority; title and priority are copied verbatim; each optional field is sent exactly when non-empty, the due date through the ISO conversion |
| TaskForm.PrefillThenSubmit | frontend/src/components/TaskForm.tsx:58-85 | submitting an unchanged edit form sends the task's title and priority, missing optional fields as undefined and present ones unchanged |
| TaskForm.ClearedFieldsKeptOnServer | frontend/src/components/TaskForm.tsx:79-81 | clearing the description, category or due date in an edit leaves the stored field as it was, because the emptied key is not sent |
| TaskForm.TaskFormState.Reset | frontend/src/components/TaskForm.tsx:58-69 | with a task, the form holds its prefill; without one, nothing changes |
| TaskForm.TitleRulesAgreeInBmp | frontend/src/components/TaskForm.tsx:117-121 | without characters beyond U+FFFF, the form accepts exactly the titles the entity accepts |
| TaskForm.TitleRulesDisagreeBeyondBmp | frontend/src/components/TaskForm.tsx:117-121 | a title of two emoji passes the form (4 code units) and is refused by the entity (2 code points) |
| TaskForm.DescriptionRulesAgreeInBmp | frontend/src/components/TaskForm.tsx:139-141 | without characters beyond U+FFFF, the form accepts exactly the descriptions the entity accepts |
| TaskForm.PriorityChoicesMatchEntity | frontend/src/components/TaskForm.tsx:160-163 | the choices are exactly the entity's priorities, each passes, and choosing none is "Selecione uma prioridade" |
| TaskForm.FormatDateTimeLocal | frontend/src/components/TaskForm.tsx:21-29 | defines the `datetime-local` text from the local date parts, each zero-padded to two digits; stated by FormatDateTimeLocalShape |
| TaskForm.Prefill | frontend/src/components/TaskForm.tsx:58-69 | defines the form values for an edited task; stated by PrefillThenSubmit |
| TaskForm.OnFormSubmit | frontend/src/components/TaskForm.tsx:71-85 | defines the payload a submit sends; stated by OnFormSubmitCorrect and ClearedFieldsKeptOnServer |
| TaskForm.TitleRules | frontend/src/components/TaskForm.tsx:117-121 | defines the title rules: required, at least 3 and at most 255 UTF-16 code units; compared with the entity by TitleRulesAgreeInBmp and TitleRulesDisagreeBeyondBmp |
| LoginForm.CanSubmitIff | frontend/src/components/auth/LoginForm.tsx:54-83 | a login passes the form's rules exactly when the email matches the pattern and the password has at least 6 code units |
| LoginForm.EmptyFieldsReported | frontend/src/components/auth/LoginForm.tsx:56-78 | a missing email and a missing password get their own required messages |
| LoginForm.SubmitError | frontend/src/components/auth/LoginForm.tsx:20-27 | no error is shown after success; after a failure the error is the thrown message, or "Erro ao fazer login" when it is empty |
| LoginForm.LoginErrorLine | frontend/src/components/auth/LoginForm.tsx:20-27 | the login form shows no error exactly when the answer was accepted; a refused answer shows the server's message, else the default |
| RegisterForm.CanSubmitIff | frontend/src/components/auth/RegisterForm.tsx:59-126 | a registration passes the form's rules exactly when the name has at least 2 code units, the email matches, the password has at least 6, and the confirmation repeats it |
| RegisterForm.ConfirmMessages | frontend/src/components/auth/RegisterForm.tsx:122-126 | an empty confirmation is required, a different one "As senhas não coincidem", the same one passes |
| RegisterForm.RegisterBody | frontend/src/services/authService.ts:17-23 | the body holds exactly name, email and password, without the confirmation |
| RegisterForm.SubmittedBodyHasRequiredFields | backend/src/Controller/AuthController.php:46-73 | the body sent by the form always passes the server's required-fields check, and the server reads back the typed email, name and the hash of the password |
| RegisterForm.SubmitError | frontend/src/components/auth/RegisterForm.tsx:23-30 | no error after success; after a failure, the thrown message or "Erro ao registrar" |
| RegisterForm.RegisterErrorLine | frontend/src/components/auth/RegisterForm.tsx:23-30 | the form shows no error exactly when registration was accepted; a refused answer shows the server's message, else the default |
| AuthContext.MessageOr | frontend/src/contexts/AuthContext.tsx:62 | a non-empty message wins, otherwise the fallback |
| AuthContext.Thrown | frontend/src/contexts/AuthContext.tsx:53-83 | nothing is thrown exactly when the answer is a success with data; a failed request passes its error on; any other answer throws its message or the default |
| AuthContext.ThrownAnswerNotEmpty | frontend/src/contexts/AuthContext.tsx:62-78 | an error thrown for an unsuccessful answer is never empty |
| AuthContext.UseAuth | frontend/src/contexts/AuthContext.tsx:7-13 | the context is returned exactly inside a provider, otherwise the error "useAuth deve ser usado dentro de um AuthProvider" |
| AuthContext.AuthProvider.IsAuthenticated | frontend/src/contexts/AuthContext.tsx:108 | authenticated only with a user and a token, and never without a token or with an empty one |
| AuthContext.AuthProvider.constructor | frontend/src/contexts/AuthContext.tsx:20-34 | a non-empty saved token becomes the token with validation pending; otherwise loading ends at once |
| AuthContext.AuthProvider.Logout | frontend/src/contexts/AuthContext.tsx:85-89 | user, token and saved token are cleared, and the provider is no longer authenticated |
| AuthContext.AuthProvider.ValidateToken | frontend/src/contexts/AuthContext.tsx:36-51 | an accepted answer sets the user, anything else logs out; loading ends |
| AuthContext.AuthProvider.SignIn | frontend/src/contexts/AuthContext.tsx:53-83 | an accepted answer sets user, token and saved token; anything else changes them not and throws; loading ends |
| AuthContext.AuthProvider.Login | frontend/src/contexts/AuthContext.tsx:53-67 | as SignIn with the default "Erro ao fazer login" |
| AuthContext.AuthProvider.Register | frontend/src/contexts/AuthContext.tsx:69-83 | as SignIn with the default "Erro ao registrar" |
| AuthContext.AuthProvider.RefreshToken | frontend/src/contexts/AuthContext.tsx:91-103 | without a token nothing changes; a failed request logs out; an accepted answer replaces the token and the saved token; any other answer changes nothing |

## Left out

- Persistence plumbing: Doctrine's unit of work, the query builder, serialization groups and the JSON envelope rendering are left out. The table classes stand in for them.
- The firewall and the security configuration are not part of this model. The task handlers take the authenticated user as a parameter; the `/auth` session endpoints take an optional one.
- The 404 answer for a `{id}` that names no task is produced by the framework's entity converter, which is not part of this model. `UnknownTask` stands in for it.
- User.php and UserRepository.php are not part of this model. The user is reduced to id, email, name and password hash. Roles (`setRoles`) and the user timestamps are not modelled, and the user validator is a parameter.
- UserService.GetUserStatistics: does not produce `member_since` and `last_update`, because they are date formatting of timestamps the model does not hold.
- Request bodies hold scalar JSON values only. A JSON array or object as a field value is not modelled. Such a value as `title` makes the setter throw a TypeError (`TaskService.php:160`), and the request ends in a 500. As `dueDate` it makes `new \DateTime` throw a TypeError, which the `catch (\Exception)` at `TaskService.php:191` does not catch. A body is modelled as undecodable or as an object. So a truthy scalar body such as `5`, which reaches `createTask(array $data)` and throws a TypeError, is not represented. Floating-point numbers cannot be represented at all.
- TaskTable.TaskTable.Insert: a refused INSERT may or may not draw a value from the id sequence; the model only promises that the next id does not go down.
- ServerError: the body of the framework's 500 answer is its error page, not the JSON envelope; the model gives it status 500, `success` false and nothing else.
- Password hashing, its verification and JWT creation are parameters, because they are foreign security code.
- The clock and dates: the current time is an integer `now` parameter and days are whole multiples of 86400 seconds in one fixed time zone. Parsing, `toISOString` and the local `Date` getters are parameters, because time zones and date libraries are outside the model.
- `FILTER_VALIDATE_BOOLEAN` is a parameter, because it is a PHP built-in parser.
- TaskRepository.FindByFilters: `%` and `_` in the search text are not treated as wildcards, and neither is PostgreSQL's default `\` escape character, because `LIKE` pattern matching is database behaviour; search is plain, case-sensitive substring matching.
- TaskRepository.FindByFilters: the order of tasks with equal creation instants is not fixed, because the query leaves it to the database; the model fixes one order, and FindByFiltersCorrect states only the order by creation instant.
- TaskRepository.GetAvailableCategories: categories are ordered by code point, not by the database collation.
- TaskRepository.FindOverdueTasks: the order of tasks with equal due dates is not fixed, because the query leaves it to the database.
- TaskApi.Serialize: values are not percent-encoded, because that is the URL Standard's form serializer and not the application's logic.
- The `fetch` plumbing (`apiRequest`), asynchrony, loading spinners and the concurrent requests of the dashboard are left out; each reply is a parameter.
- UI rendering, styling, the toast timers, the modal and the dashboard percentages (floating point) are left out.
- TaskList's loaders and handlers, which set React state after requests, are left out; the list's pure partitions are modelled.
- The `min` attribute of the due-date input is not modelled, because the browser, not the program, enforces it.
- LoginForm.CanSubmitIff, RegisterForm.CanSubmitIff: state when the form's own rules let a submission through, not when the browser sends it. The browser's `type="email"` check (LoginForm.tsx:63, RegisterForm.tsx:87, no `noValidate`) also refuses values the pattern accepts, such as "ana@mail..com", and trims white space from the value; both are browser behaviour and are not modelled.
- TaskService.getAvailableCategories, TaskService.getFilteredTasks and TaskService.getOverdueTasks forward to the repository unchanged and share its lemmas.
