# Todo list: a verified model

This project models the core of a small todo-list application: an Express/MySQL back end and a React front end.

- **Back end.** The `todos` table is a map from id to row, held in the class `Server.Store`. An AUTO_INCREMENT counter and a logical clock for `created_at` sit beside it. The model covers the REST handlers: list with filters and sort order, get, create, update, delete, the dashboard counts and the category list.
- **Front end.** The model covers:
  - the App component's state and handlers (`App.TodoApp`);
  - the query-string builder of `getAllTodos`;
  - the rewards page's achievements, points and completion rate;
  - the add and edit forms, with their state, change handlers, validation and submit.
- **Set-up script.** The model covers the pipeline that splits the schema file into SQL commands.

JavaScript semantics that the code relies on are written out:

- truthiness of optional strings;
- `String.prototype.trim`, over the full ECMAScript white-space and line-terminator set;
- `startsWith` and `split`;
- objects as ordered property lists with spread assignment.

The week window follows `YEARWEEK(date, 1)`: weeks start on Monday, and the index is computed from a proleptic Gregorian day number.

Files: `wrappers.dfy`, `js_string.dfy`, `js_object.dfy`, `calendar.dfy`, `todos.dfy`, `server.dfy`, `api.dfy`, `app.dfy`, `rewards.dfy`, `form_fields.dfy`, `add_todo_form.dfy`, `edit_todo_form.dfy`, `setup_db.dfy`.

## Notes on the code

- **Status `''` passes update validation.** The 400 message at backend/server.js:135 names only `pending` and `completed`. The test at backend/server.js:134, however, is truthiness, so a status of `''` passes and is sent in the UPDATE (backend/server.js:162-165). Whether the database then stores it depends on the status column's type, which the schema file sets; the model stores it, as a VARCHAR column would (see "## Left out").
  - `Todos.EmptyStatusAccepted` proves that `''` passes validation and that the SET list assigns it.
  - `Server.EmptyStatusUncounted` proves that such a row, once stored, is counted as neither completed nor pending.
- **Dashboard counts.** In any table holding such a row, `completed + pending < total`. The model therefore proves `completed + pending <= total` (`Server.StatusCountsBounded`), not equality.

## Model

| member | source | states |
|---|---|---|
| JsString.Trim | backend/server.js:98 | The trim is empty exactly when every character is white space. It never starts or ends with white space, is no longer than its input, and keeps only characters of the input. |
| JsString.TrimIsSlice | backend/server.js:98 | The trim is one contiguous slice of the input, and every character cut off before or after it is white space. |
| JsString.TrimIdempotent | backend/server.js:103 | Trimming twice is trimming once, so a stored title is already in trimmed form. |
| JsObject.Get | frontend/src/App.js:122-125 | Reading a missing key gives `undefined`. With distinct keys, reading gives the value of that key's property. |
| JsObject.Set | frontend/src/App.js:122-125 | Spread assignment keeps the key order when the key exists and appends the key when it is new. Every other property keeps its position and value. |
| JsObject.SetGet | frontend/src/App.js:122-125 | After the assignment the key reads the new value, and every other key reads as before. |
| JsObject.SetKeepsKeysDistinct | frontend/src/App.js:122-125 | Spread assignment never duplicates a key. |
| Calendar.WeekIndex | backend/server.js:58 | The index that `YEARWEEK(d, 1)` compares is the Monday of `d`'s week, divided by seven. |
| Calendar.MarchYearLength | backend/server.js:58 | A year counted from 1 March has 366 days exactly when the following February has a leap day, under the Gregorian 4/100/400 rule. |
| Calendar.DayNumberNextDay | backend/server.js:58 | The day after a valid date has the next day number, across month, year and leap-day boundaries. |
| Calendar.WeekStartsOnMonday | backend/server.js:58 | The week index that `YEARWEEK(d, 1)` compares goes up by one exactly when the next day is a Monday, and otherwise stays the same. |
| Todos.OrDefault | backend/server.js:103 | A JavaScript "or default" gives the value when it is truthy and the fallback otherwise. |
| Todos.NewTodo | backend/server.js:98-103 | Create is rejected with `Title is required` exactly when the title is absent or trims to empty. Otherwise the row gets the trimmed title, the given id and time, status `pending` whatever the body says, and the defaults `''`, null, `general` and `medium` for falsy fields. |
| Todos.UpdateRejection | backend/server.js:130-169 | Update's 400 answers come in the handler's order: a present title that trims to empty, then a truthy status other than `pending`/`completed`, then a body that names no column. `TitleRequired` is never the answer. |
| Todos.ApplyAllAppend | backend/server.js:172 | Applying two SET lists one after the other is applying their concatenation. |
| Todos.FieldListPatches | backend/server.js:142-165 | The SET list changes exactly the columns the body names. The title is trimmed, a falsy description becomes `''` and a falsy due date null. Category, priority and status are copied verbatim. Id and creation time never change. |
| Todos.FieldListEmpty | backend/server.js:167-169 | The SET list is empty exactly when the body names none of the six columns. |
| Todos.EmptyStatusAccepted | backend/server.js:134-165 | An update whose body holds only status `''` passes all three 400 checks, and its SET list assigns `''` to the status. |
| Todos.UpdateFields | backend/server.js:139-165 | The pushes into `updateFields`/`values` build exactly the SET list of the body, in the handler's column order. |
| Server.WindowOf | backend/server.js:55-61 | `today`, `thisweek` and `thismonth` select their windows. Any other value selects none. |
| Server.InWindow | backend/server.js:55-61 | A NULL due date lies in no window, and a due date of today also lies in this week and this month. |
| Server.WhereClauseMatches | backend/server.js:39-61 | A row satisfies every appended condition exactly when it satisfies each truthy equality filter and lies in the selected window. A null due date is in no window. |
| Server.WhereConditions | backend/server.js:35-61 | The query grown condition by condition has at most four conditions. For every date and row, it holds exactly when the row matches the request's filters. |
| Server.InsertInOrder | backend/server.js:63 | Inserting into a listing sorted by priority rank, then creation time descending, keeps it sorted. It adds exactly the new row and keeps ids distinct. |
| Server.PatchKeepsRow | backend/server.js:142-165 | A patched row keeps its id and creation time, and its title stays non-empty and trimmed. |
| Server.Store.Get | backend/server.js:75-91 | Gives the row with that id, or not-found when there is none. The table is not changed. |
| Server.Store.Create | backend/server.js:94-122 | Gives the result of `NewTodo` with the next id and the current time. A rejection leaves table, counter and clock unchanged. Success inserts exactly that row under a fresh id. |
| Server.Store.Update | backend/server.js:125-202 | Runs the three 400 checks before the table is read, then not-found for a missing id; both leave the table unchanged. Otherwise exactly that row is replaced by its patched form, and the new full row is returned. |
| Server.Store.Delete | backend/server.js:205-221 | Succeeds exactly when the id exists. The table loses exactly that id, and a missing id leaves it unchanged. |
| Server.Store.List | backend/server.js:33-72 | Returns exactly the table rows that match the filters, each once, in ORDER BY order. |
| Server.Store.GroupCounts | backend/server.js:232-233 | Each value used in the column appears once, with the number of rows holding it. |
| Server.Store.Dashboard | backend/server.js:224-262 | The counts are the table size, the completed/pending tallies and the three window tallies. Both groupings are exact, and recent holds the at most five newest rows. |
| Server.Store.Categories | backend/server.js:265-275 | Returns each category in use exactly once, in strictly ascending order. |
| Server.InsertAscending | backend/server.js:266 | Inserting a new category into an ascending list keeps it ascending and adds exactly that category. |
| Server.StrLessTrichotomy | backend/server.js:266 | Of two different strings, exactly one sorts first. |
| Server.StrLessTransitive | backend/server.js:266 | The category order is transitive. |
| Server.ListingCoversTable | backend/server.js:234 | An unfiltered listing holds one entry per row. |
| Server.RecentPrefix | backend/server.js:234 | The first five entries of the listing by creation time, newest first, are the five most recent rows. |
| Server.StatusCountsBounded | backend/server.js:226-228 | completed + pending is at most total. |
| Server.EmptyStatusUncounted | backend/server.js:227-228 | In any table, a row with status `''` is in neither the completed nor the pending tally, so completed + pending is strictly below total. |
| Server.WindowCountsNested | backend/server.js:229-231 | today is at most thisWeek and at most thisMonth, and each is at most total. |
| Server.SumCountsCover | backend/server.js:232-233 | The counts of distinct groups add up to the number of rows whose value is one of the group keys. |
| Server.GroupingSumsToTotal | backend/server.js:232-233 | The byCategory and byPriority counts each sum to total. |
| Server.GroupCountsPositive | backend/server.js:232-233 | Every group has at least one row. |
| Api.GetAllTodosParams | frontend/src/services/api.js:36-45 | The `forEach` loop appends exactly the truthy properties, as key/value pairs in property order. |
| Api.ParamsInPropertyOrder | frontend/src/services/api.js:38 | The parameters of two objects laid end to end are laid end to end. |
| Api.ParamMembership | frontend/src/services/api.js:39-40 | A pair is sent exactly when the object holds that key with that value and the value is non-empty. |
| Api.NoParamsWhenAllFalsy | frontend/src/services/api.js:36-43 | The query string is empty exactly when every property is falsy, `{}` included. |
| Api.QueryValue | backend/server.js:34 | The server's read of a key finds a pair with that key, or reports absence when there is none. |
| Api.ServerSeesTruthyValue | frontend/src/services/api.js:38-42 | With distinct keys, the server reads an object's value when it is truthy and nothing otherwise. |
| Api.SentQueryMatchesObject | backend/server.js:34-61 | The list handler's query is the truthy part of the client's filter object, key by key. |
| App.ReplaceById | frontend/src/App.js:78 | Same length, with every entry of that id replaced and every other entry kept in place. |
| App.ReplaceAbsentId | frontend/src/App.js:78 | An id the list does not hold leaves it unchanged. |
| App.ReplaceIdempotent | frontend/src/App.js:104 | Applying the same answer twice is applying it once. |
| App.RemoveById | frontend/src/App.js:91 | The list never grows, and no remaining entry has the removed id. |
| App.RemoveMembership | frontend/src/App.js:91 | Exactly the entries with another id remain. |
| App.RemoveKeepsOrder | frontend/src/App.js:91 | Removal distributes over concatenation, so the remaining entries keep their order. |
| App.RemoveAbsentId | frontend/src/App.js:91 | Removing an id the list does not hold changes nothing. |
| App.ToggledStatus | frontend/src/App.js:101 | The toggle asks for `completed` exactly when the status is `pending`, and for `pending` otherwise. |
| App.ToggleRequestAccepted | frontend/src/App.js:100-104 | The server accepts every toggle request and changes only the row's status. |
| App.ViewFilters | frontend/src/App.js:42-51 | A time view sets `filter` to its own name. Every other key is unchanged, and keys stay distinct. |
| App.ViewSelectsWindow | frontend/src/App.js:42-53 | The today, thisweek and thismonth views make the server apply their window. Other views send the filters unchanged. |
| App.FiltersAfter | frontend/src/App.js:118-127 | `clear` empties the filters. Any other key takes the value, a falsy one as `undefined`, and every other key reads as before. |
| App.FalsyFilterNotSent | frontend/src/App.js:118-127 | A filter set to a falsy value is no longer sent to the server. |
| App.TodoApp.constructor | frontend/src/App.js:24-30 | The initial state: no todos, loading, no error, both forms closed, the list view and no filters. |
| App.TodoApp.FetchTodos | frontend/src/App.js:37-61 | Sends the truthy part of the view-adjusted copy and leaves `filters` untouched. It takes the data or sets the fetch error, and ends not loading. |
| App.TodoApp.HandleAddTodo | frontend/src/App.js:63-73 | Success puts the new todo in front, closes the form and clears the error. Failure keeps the list and sets the error. |
| App.TodoApp.HandleUpdateTodo | frontend/src/App.js:75-85 | Success replaces the entries with that id, closes the edit form and clears the error. Failure keeps the list and sets the error. |
| App.TodoApp.HandleDeleteTodo | frontend/src/App.js:87-98 | Without confirmation nothing is sent or changed. A confirmed success removes the entries with that id, and a failure only sets the error. |
| App.TodoApp.HandleToggleStatus | frontend/src/App.js:100-110 | Sends only the toggled status. Success replaces the entries with that id, and a failure keeps the list and sets the error. |
| App.TodoApp.HandleViewChange | frontend/src/App.js:112-116 | Sets the view and closes both forms. |
| App.TodoApp.HandleFilterChange | frontend/src/App.js:118-127 | The filters become `FiltersAfter` of the old filters, and keys stay distinct. |
| Rewards.Achievements | frontend/src/components/Rewards.js:40-95 | Six entries with distinct badges and distinct ids, worth 460 points together. |
| Rewards.Unlocked | frontend/src/components/Rewards.js:46-91 | Every condition except the two time-window ones needs at least one todo, when completed is at most total. |
| Rewards.UnlockedMonotone | frontend/src/components/Rewards.js:46-91 | Larger counts keep every badge except Perfectionist unlocked. Perfectionist is locked whenever a todo is not completed. |
| Rewards.Satisfied | frontend/src/components/Rewards.js:109 | Filtering never lengthens the table. |
| Rewards.SatisfiedAppend | frontend/src/components/Rewards.js:109 | Filtering keeps order: it distributes over concatenation. |
| Rewards.CompletedInTableOrder | frontend/src/components/Rewards.js:107-110 | The completed achievements come in declaration order: for every cut of the table, those unlocked before it come first. |
| Rewards.SatisfiedMembership | frontend/src/components/Rewards.js:109 | The filtered list holds exactly the table entries whose condition holds. |
| Rewards.CompletedAchievements | frontend/src/components/Rewards.js:107-110 | At most six entries, and none without data. |
| Rewards.CompletedAreUnlocked | frontend/src/components/Rewards.js:39-110 | The completed achievements are exactly the six table entries whose condition holds. |
| Rewards.TotalPoints | frontend/src/components/Rewards.js:100-105 | 0 without data. |
| Rewards.CompletionRate | frontend/src/components/Rewards.js:112-115 | 0 without data or without todos. |
| Rewards.FilterThenSum | frontend/src/components/Rewards.js:102-104 | Filtering and then adding up the rewards is adding up the rewards of the entries whose condition holds. |
| Rewards.RewardSumAppend | frontend/src/components/Rewards.js:104 | The reward sum of a concatenation is the sum of the parts. |
| Rewards.PointsByBadge | frontend/src/components/Rewards.js:39-105 | The points are the reward sum of the completed achievements. Written out, that is 10, 50, 100, 25, 75 and 200, each counted when its condition holds. |
| Rewards.PointsBounded | frontend/src/components/Rewards.js:100-105 | Points lie in 0..460, and a perfect record earns at least 210. |
| Rewards.RateRounds | frontend/src/components/Rewards.js:114 | The rate is `100 * completed / total` rounded half up. |
| Rewards.RateIsPercentage | frontend/src/components/Rewards.js:112-115 | With completed at most total, the rate lies in 0..100, and all completed gives 100. |
| Rewards.UnlockImplications | frontend/src/components/Rewards.js:46-91 | Productivity Guru implies Completion Master, and Perfectionist implies Getting Started. |
| Rewards.ServedRateIsPercentage | frontend/src/components/Rewards.js:112-115 | For the counts the dashboard handler computes, the rate is a percentage. |
| FormFields.AddDefaults | frontend/src/components/AddTodoForm.js:7-13 | The five add fields: title, description and due date empty, category `general` and priority `medium`, the server's create defaults. |
| FormFields.EditDefaults | frontend/src/components/EditTodoForm.js:5-12 | The add defaults plus status `pending`. |
| FormFields.FromTodo | frontend/src/components/EditTodoForm.js:15-26 | Every edit field is filled: the todo's value when truthy, the field's default otherwise. |
| FormFields.FromStoredRow | frontend/src/components/EditTodoForm.js:18-23 | A row with status `''` is shown as pending, and a stored title is shown unchanged. |
| FormFields.ClearedError | frontend/src/components/AddTodoForm.js:24-29 | The changed field's message is blanked if it was present. No key is added or removed, and every other message stays. |
| FormFields.ValidationErrors | frontend/src/components/AddTodoForm.js:32-45 | There is a title error exactly when the trimmed title is empty. There is a due-date error exactly when a due date is given and lies in the past. Nothing else is reported. |
| FormFields.CollectErrors | frontend/src/components/AddTodoForm.js:33-44 | `newErrors` filled key by key equals the validation errors. The form is valid exactly when the title is non-blank and the due date is not in the past. |
| FormFields.TitleCheckAgreesWithServer | frontend/src/components/AddTodoForm.js:35-37 | The form reports a title error exactly when the server would reject that title, on create and on update. |
| AddTodoForm.Form.constructor | frontend/src/components/AddTodoForm.js:7-14 | The empty form with default category and priority, and no errors. |
| AddTodoForm.Form.HandleChange | frontend/src/components/AddTodoForm.js:16-30 | Only the named field changes, and only its error is blanked. |
| AddTodoForm.Form.ValidateForm | frontend/src/components/AddTodoForm.js:32-45 | Errors become the validation errors, and the answer is true exactly when there are none. |
| AddTodoForm.Form.HandleSubmit | frontend/src/components/AddTodoForm.js:47-55 | A valid form is handed on and then reset with errors cleared. An invalid form is not handed on and keeps its data. |
| EditTodoForm.Form.constructor | frontend/src/components/EditTodoForm.js:5-13 | The edit defaults and no errors. |
| EditTodoForm.Form.SyncWithTodo | frontend/src/components/EditTodoForm.js:15-26 | A present todo replaces the whole form with `FromTodo`, and its absence changes nothing. |
| EditTodoForm.Form.HandleChange | frontend/src/components/EditTodoForm.js:28-42 | Only the named field changes, and only its error is blanked. |
| EditTodoForm.Form.ValidateForm | frontend/src/components/EditTodoForm.js:44-57 | The same checks as the add form, true exactly when there are no errors. |
| EditTodoForm.Form.HandleSubmit | frontend/src/components/EditTodoForm.js:59-65 | The full form, status included, is handed on only when valid. The form is never reset. |
| SetupDb.Split | backend/setup-db.js:17 | There is always at least one piece, and no piece contains the separator. |
| SetupDb.JoinSplit | backend/setup-db.js:17 | Joining the pieces gives back the text. |
| SetupDb.SplitJoin | backend/setup-db.js:17 | Splitting a join of separator-free pieces gives back the pieces. |
| SetupDb.SplitAround | backend/setup-db.js:17 | Splitting `a;b` gives the pieces of `a` followed by those of `b`. |
| SetupDb.TrimAll | backend/setup-db.js:18 | Each piece is replaced by its trim, in place. |
| SetupDb.TrimAllAppend | backend/setup-db.js:18 | Trimming distributes over concatenation. |
| SetupDb.KeepCommands | backend/setup-db.js:19 | Exactly the non-empty pieces that do not start with `--` are kept. |
| SetupDb.KeepCommandsAppend | backend/setup-db.js:19 | The filter keeps order: it distributes over concatenation. |
| SetupDb.SqlCommands | backend/setup-db.js:16-19 | Every command is non-empty, trimmed, free of `;` and not led by `--`. |
| SetupDb.CommandsInFileOrder | backend/setup-db.js:16-19 | Commands come out in file order. |
| SetupDb.CommentLedChunkDropped | backend/setup-db.js:19 | A piece whose trimmed text starts with `--` is dropped whole, even when SQL follows it. |
| SetupDb.StatementChunkKept | backend/setup-db.js:18-19 | A non-comment piece becomes exactly its trimmed text. |

## Left out

- Express routing, CORS, JSON parsing, HTTP status codes and the MySQL connection. Answers are the `Result` datatype: `Invalid(reason)` is a 400, `NotFound` a 404.
- Database errors and every 500 path, including the "not found after update" re-read. The table is an in-memory map that cannot fail.
- Request bodies are modelled as optional strings, where absent means `undefined`. JSON `null` and non-string values are not modelled.
- The due date in a body is already a parsed date, or absent/falsy. Date-string parsing and invalid dates are not modelled.
- The create response has no `created_at` and carries a `message` field, and the update response also carries `message`. The model returns the row.
- `Server.Store.Update`: status, category and priority are stored verbatim, as a VARCHAR column would store them. Column-type checks in the schema file (not part of this model) are not modelled. For example, an ENUM status column under strict SQL mode would reject `''` with a database error.
- `Server.Store.Update`: a missing id is reported as not found. The model does not distinguish MySQL's matched-row and changed-row counts behind `affectedRows`.
- The dashboard's nine queries run concurrently, with a counter deciding when to respond. The model computes the dashboard sequentially from one table state, so double responses on error and non-snapshot reads are not modelled.
- `Server.Store.List`: `ORDER BY priority DESC` depends on the column type, which the schema file (not part of this model) defines. The priority rank is therefore the parameter `rank`. Ties on priority and creation time may come out in any order.
- `Server.Store.Categories`: MySQL collation is not modelled. Categories are ordered by code point.
- `Server.Store.List`, `Server.Store.Dashboard` and `Server.Store.GroupCounts`: the equality filters, the completed/pending counts, `GROUP BY` and `DISTINCT` assume a binary collation, so strings compare by code point. The table's collation is set in the schema file, which is not part of this model. A case-insensitive collation would also match `work` for `category=Work`.
- `CURDATE()` is the parameter `today`, and `NOW()` is the store's logical clock. Time zones are not modelled.
- The browser clock and `new Date(...)` parsing in the due-date check are the oracle parameter `isPast`. Formatting a stored due date for the edit form is the parameter `dueText`.
- `Rewards.CompletionRate`: computed in exact integer arithmetic as round half up. It does not model floating-point rounding of `completed / total * 100` in `Math.round`.
- The rewards page's own fetch state (`loading`, `error`) and its rendering. `achievements` is taken as the fixed six-entry table.
- `window.confirm` is the parameter `confirmed`. The result of each axios call is the parameter `response`. `console` logging is not modelled, and neither is every API function other than the `getAllTodos` parameter loop.
- React's stale-closure effects: each handler works on the current state, not on the state captured when the component rendered.
- The effect that re-fetches when `filters` or `activeView` changes. `FetchTodos` is a separate operation.
- Integer-like object keys, which JavaScript orders before other keys. Filter keys are names.
- URL encoding of query parameters.
- The rendering components (Dashboard, TodoListView, TodoList, Navigation) and the theme context.
- The set-up script's file reads, connection attempts and `.env` writing. Only its command-splitting pipeline is modelled.
