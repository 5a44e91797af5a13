# Task engine model

A Dafny model of the backend of a small to-do application: an in-memory
table of task records keyed by id, the checks that guard requests to it, and
the five service operations (list, create, get, update, delete) that combine
the two. The frontend's form checks are modelled too, and related to the
backend's.

The modules, each with the source file it models. `Wrappers`, `Json` and
`JsText` have no source file of their own; they give the values and the
JavaScript string semantics the others are stated in.

- `Wrappers`: the `Option` and `Result` datatypes.
- `TaskDefaults` (`backend/src/constants/task/taskDefaults.ts`): the `Status`
  datatype (`Pending`, `Completed`, labelled `pendente` and `concluída`) and the
  description length bounds 1 and 500.
- `JsText`: the JavaScript string semantics the checks rely on.
  `String.prototype.trim` uses the ECMAScript whitespace and line-terminator set.
  A string's `length` is counted in UTF-16 code units, and hex digits are
  covered too.
- `Json`: the request body or parameter object as a JSON value.
- `TaskValidation` (`backend/src/services/task/taskValidation.ts`): the create,
  update and id checks as functions. Each returns the parsed input, holding
  only the declared fields, or the list of issues found.
- `FrontendTaskValidation` (`frontend/src/domain/task/validations/task.ts`):
  the frontend's create and update checks as predicates. It proves that
  everything the backend accepts the frontend accepts, and gives the inputs
  that show the converse fails.
- `TaskInstance` (`backend/src/instances/task/taskStore.ts`): the `TaskStore`
  class. A `records` map holds the records, and a `keys` sequence holds the
  order of first insertion, as a JavaScript `Map` keeps it.
- `TaskOrdering` (`backend/src/services/task/taskService.ts`, line 29): the
  order `taskList` returns. It is a stable sort by
  `createdAt`, newest first. The module proves the result is sorted, is a
  permutation of the input and is stable, and that these three properties
  determine it.
- `TaskService` (`backend/src/services/task/taskService.ts`): the service
  operations as methods over an explicit `TaskStore`. Errors are `Err` values
  carrying code, message, HTTP status and issue list, where the source throws.
  It also holds client methods that combine operations.

Inputs the source draws from the environment are parameters. `randomUUID()`
becomes `freshId`, required to be absent from the table. `new Date()` becomes
`now`, an integer count of milliseconds. Timestamps are therefore integers, and
the newest-first comparator is integer subtraction.

## Model

| member | source | states |
|---|---|---|
| `TaskDefaults.ParseStatus` | backend/src/constants/task/taskDefaults.ts:17-20 | a string that reads as a status is exactly that status's label |
| `TaskDefaults.LabelRoundTrip` | backend/src/constants/task/taskDefaults.ts:18-19 | each status reads back as itself from its label |
| `TaskDefaults.LabelsDistinct` | backend/src/constants/task/taskDefaults.ts:17-20 | the two labels differ, and a string names a status iff it is `pendente` or `concluída` |
| `TaskDefaults.LimitsNonEmpty` | backend/src/constants/task/taskDefaults.ts:35-38 | the bounds satisfy 0 < min <= max, so some length is valid |
| `JsText.IsWhitespace` | backend/src/services/task/taskValidation.ts:18 | the characters `String.prototype.trim` removes: the ECMAScript WhiteSpace and LineTerminator code points |
| `JsText.TrimStart` | backend/src/services/task/taskValidation.ts:18 | the result is a suffix of the input, everything dropped is whitespace, and the result does not start with whitespace |
| `JsText.TrimEnd` | backend/src/services/task/taskValidation.ts:18 | the result is a prefix of the input, everything dropped is whitespace, and the result does not end with whitespace |
| `JsText.Trim` | backend/src/services/task/taskValidation.ts:18 | the trimmed string neither starts nor ends with whitespace |
| `JsText.TrimSplits` | backend/src/services/task/taskValidation.ts:18 | the input is whitespace, then the trimmed string, then whitespace |
| `JsText.TrimOfPadded` | backend/src/services/task/taskValidation.ts:18 | conversely, whitespace around any trimmed string is exactly what trim removes |
| `JsText.TrimIdempotent` | backend/src/services/task/taskValidation.ts:18 | trimming twice equals trimming once |
| `JsText.TrimOfTrimmed` | backend/src/services/task/taskValidation.ts:18 | a string with no whitespace at either end is its own trim |
| `JsText.TrimOfAllWhitespace` | backend/src/services/task/taskValidation.ts:18 | a whitespace-only string trims to the empty string |
| `JsText.Utf16Length` | backend/src/services/task/taskValidation.ts:19-20 | a string's length in UTF-16 code units is between its character count and twice it, and zero only for the empty string |
| `JsText.Utf16LengthConcat` | backend/src/services/task/taskValidation.ts:19-20 | code-unit length adds up over concatenation |
| `JsText.TrimShortens` | backend/src/services/task/taskValidation.ts:18-20 | trimming never increases the code-unit length |
| `JsText.Utf16LengthOfBasicPlane` | backend/src/services/task/taskValidation.ts:19-20 | for basic-plane text, code-unit length equals character count |
| `TaskValidation.ParseDescription` | backend/src/services/task/taskValidation.ts:16-20 | accepts iff the value is a string whose trimmed form has length in [1, 500]; the output is that trimmed form; a non-string fails with one `InvalidType` issue, a trimmed length below 1 with one `TooSmall` issue and one above 500 with one `TooBig` issue, each on the `description` path |
| `TaskValidation.ParseStatusField` | backend/src/services/task/taskValidation.ts:33 | accepts iff the value is the string `pendente` or `concluída`; the output is the status with that label; a non-string fails with one `InvalidType` issue and any other string with one `InvalidEnumValue` issue, on the `status` path |
| `TaskValidation.ParseCreate` | backend/src/services/task/taskValidation.ts:15-21 | accepts iff the body is an object with a string description whose trimmed length is in [1, 500]; the output holds the trimmed description, which is valid; a non-object fails with one `InvalidType` issue on the body itself, a missing description with one `InvalidType` issue on `description`, and a failing description with exactly that field's issues |
| `TaskValidation.ParseUpdate` | backend/src/services/task/taskValidation.ts:26-34 | accepts iff the body is an object in which a present description passes the description rule and a present status is one of the two labels; output fields are present exactly when supplied; a present description comes out trimmed; a non-object fails with one `InvalidType` issue on the body itself, and otherwise every issue is on `description` or `status` |
| `TaskValidation.IsUuid` | backend/src/services/task/taskValidation.ts:40 | the UUID test: 36 characters, hyphens at offsets 8, 13, 18 and 23, a hexadecimal digit of either case elsewhere |
| `TaskValidation.UuidForms` | backend/src/services/task/taskValidation.ts:40 | the positional UUID test agrees both ways with the grouped 8-4-4-4-12 hex form of section 3 of RFC 4122 |
| `TaskValidation.ParseParams` | backend/src/services/task/taskValidation.ts:39-41 | accepts iff the parameters are an object whose `id` is a string in UUID form; the output is that id; a failure is one issue: `InvalidType` on the parameters when they are not an object, `InvalidType` on `id` when it is missing or not a string, `InvalidString` on `id` when the string is not in UUID form |
| `TaskValidation.CreateBody` | backend/src/services/task/taskValidation.ts:15-21 | the body built from a create input has exactly the one declared key |
| `TaskValidation.CreateRoundTrip` | backend/src/services/task/taskValidation.ts:15-21 | sending a parsed create input again parses to the same input |
| `TaskValidation.WhitespaceOnlyRejected` | backend/src/services/task/taskValidation.ts:18-19 | a whitespace-only description fails both the create and the update check |
| `TaskValidation.EmptyUpdateAccepted` | backend/src/services/task/taskValidation.ts:26-34 | the empty object passes the update check and updates nothing |
| `TaskValidation.CreateIgnoresUndeclaredKeys` | backend/src/services/task/taskValidation.ts:15 | keys other than `description` do not change the result of the create check |
| `TaskValidation.UpdateIgnoresUndeclaredKeys` | backend/src/services/task/taskValidation.ts:26 | keys other than `description` and `status` do not change the result of the update check |
| `TaskValidation.ParamsIgnoreUndeclaredKeys` | backend/src/services/task/taskValidation.ts:39 | keys other than `id` do not change the result of the id check |
| `FrontendTaskValidation.AcceptsCreate` | frontend/src/domain/task/validations/task.ts:3-5 | the frontend create check: an object whose description is a string of raw length at least 1 |
| `FrontendTaskValidation.AcceptsUpdate` | frontend/src/domain/task/validations/task.ts:7-10 | the frontend update check: an object in which a present description is a string of raw length at least 1 and a present status is one of the two literals |
| `FrontendTaskValidation.StatusLiteralsAgree` | frontend/src/domain/task/validations/task.ts:9 | the frontend's status literals are exactly what the backend's status rule accepts |
| `FrontendTaskValidation.BackendDescriptionIsNonEmpty` | frontend/src/domain/task/validations/task.ts:4 | a description the backend accepts has raw length at least 1 |
| `FrontendTaskValidation.CreateBackendImpliesFrontend` | frontend/src/domain/task/validations/task.ts:3-5 | every create body the backend accepts, the frontend accepts |
| `FrontendTaskValidation.UpdateBackendImpliesFrontend` | frontend/src/domain/task/validations/task.ts:7-10 | every update body the backend accepts, the frontend accepts |
| `FrontendTaskValidation.BlankDescriptionSeparates` | frontend/src/domain/task/validations/task.ts:4 | `"   "` passes the frontend create check and fails the backend's |
| `FrontendTaskValidation.LongDescriptionSeparates` | frontend/src/domain/task/validations/task.ts:4 | a description over 500 code units with no whitespace at its ends passes the frontend create check and fails the backend's |
| `TaskInstance.Merge` | backend/src/instances/task/taskStore.ts:58 | every field present in the patch comes from the patch, and every other field from the existing record |
| `TaskInstance.MergeIdempotent` | backend/src/instances/task/taskStore.ts:58 | applying the same patch twice equals applying it once |
| `TaskInstance.Without` | backend/src/instances/task/taskStore.ts:67 | removing a key keeps every other key and the distinctness of the list; an absent key leaves the list unchanged |
| `TaskInstance.ValuesAt` | backend/src/instances/task/taskStore.ts:32 | one value per key, in the keys' order |
| `TaskInstance.ValuesAtAppend` | backend/src/instances/task/taskStore.ts:32 | storing a value under a new key appends it to the values in key order |
| `TaskInstance.DistinctKeysCount` | backend/src/instances/task/taskStore.ts:32 | a distinct key list covering a map has one entry per map key |
| `TaskInstance.TaskStore.Snapshot` | backend/src/instances/task/taskStore.ts:31-33 | the table's contents in key order, one per key |
| `TaskInstance.TaskStore.constructor` | backend/src/instances/task/taskStore.ts:26 | a new table is empty |
| `TaskInstance.TaskStore.GetAll` | backend/src/instances/task/taskStore.ts:31-33 | returns the record under each key in key-insertion order, one per stored record, with every stored record among them |
| `TaskInstance.TaskStore.GetById` | backend/src/instances/task/taskStore.ts:38-40 | returns the record under the id if there is one, else nothing |
| `TaskInstance.TaskStore.Add` | backend/src/instances/task/taskStore.ts:45-48 | stores the record under its id, replacing any record there (a replaced key keeps its position, a new key goes last), touches no other key, and returns the record |
| `TaskInstance.TaskStore.Update` | backend/src/instances/task/taskStore.ts:53-61 | an absent id returns nothing and leaves the table unchanged; a present one stores and returns the merge, touching no other key and keeping the key order |
| `TaskInstance.TaskStore.Delete` | backend/src/instances/task/taskStore.ts:66-68 | returns whether the id was present, removes exactly that key, and keeps the order of the rest |
| `TaskInstance.TaskStore.Exists` | backend/src/instances/task/taskStore.ts:73-75 | true iff a record is stored under the id |
| `TaskInstance.TaskStore.Clear` | backend/src/instances/task/taskStore.ts:80-82 | leaves the table empty |
| `TaskInstance.StoreRoundTrips` | backend/src/instances/task/taskStore.ts:45-82 | after add, get and exists find the record; update of it returns the merge; update of an absent id returns nothing; after delete, neither get nor exists finds it; after clear, getAll is empty |
| `TaskOrdering.CompareNewestFirst` | backend/src/services/task/taskService.ts:29 | the comparator is negative exactly when the first record is newer, zero exactly when both were created at the same instant, positive exactly when the second is newer |
| `TaskOrdering.Insert` | backend/src/services/task/taskService.ts:29 | inserting adds exactly one record and keeps a newest-first list newest first |
| `TaskOrdering.SortNewestFirst` | backend/src/services/task/taskService.ts:29 | the sorted list is a permutation of the input with createdAt non-increasing |
| `TaskOrdering.InsertKeepsTies` | backend/src/services/task/taskService.ts:29 | an inserted record goes in front of the records created at its own instant |
| `TaskOrdering.SortIsStable` | backend/src/services/task/taskService.ts:29 | records created at the same instant keep their input order |
| `TaskOrdering.SameTiesSameHead` | backend/src/services/task/taskService.ts:29 | two newest-first lists with the same ties start with the same record |
| `TaskOrdering.NewestFirstTiesDetermine` | backend/src/services/task/taskService.ts:29 | two newest-first lists with the same ties are equal |
| `TaskOrdering.SortCharacterised` | backend/src/services/task/taskService.ts:29 | any newest-first list that keeps each instant's input order is the sorted list |
| `TaskOrdering.Reversed` | backend/src/services/task/taskService.ts:28-29 | the reverse of a list, position by position |
| `TaskOrdering.InsertOldest` | backend/src/services/task/taskService.ts:29 | a record older than every record of a list is inserted at its end |
| `TaskOrdering.SortReversesCreationOrder` | backend/src/services/task/taskService.ts:28-29 | records whose createdAt strictly increases are listed in exactly the reverse order |
| `TaskOrdering.AppendNewest` | backend/src/services/task/taskService.ts:52-62 | appending a record newer than all others keeps a list in creation order |
| `TaskService.InvalidId` | backend/src/services/task/taskService.ts:83 | the error for a failing id check is `VALIDATION_ERROR` with status 400 and carries every issue; it differs from the body-check and not-found errors |
| `TaskService.ValidationFailed` | backend/src/services/task/taskService.ts:48 | the error for a failing body check is `VALIDATION_ERROR` with status 400, message `Validation failed`, and carries every issue; it differs from the not-found error |
| `TaskService.TaskNotFound` | backend/src/services/task/taskService.ts:90 | the error for an id with no record is `NOT_FOUND` with status 404 and no issues |
| `TaskService.UpdatePatch` | backend/src/services/task/taskService.ts:136-139 | the patch carries no id and no createdAt; it carries exactly the parsed description and status, and updatedAt set to now |
| `TaskService.TaskList` | backend/src/services/task/taskService.ts:26-30 | returns a permutation of the stored records, newest first, with ties kept in key-insertion order; changes nothing |
| `TaskService.TaskCreate` | backend/src/services/task/taskService.ts:44-64 | a failing body gives `VALIDATION_ERROR`/400 and changes nothing; otherwise a pending record with the trimmed description, created and updated at now, is stored under the fresh id, appended to the key order and returned; the service invariants are kept |
| `TaskService.TaskGet` | backend/src/services/task/taskService.ts:79-94 | a malformed id gives `VALIDATION_ERROR`/400, a well-formed absent one `NOT_FOUND`/404, otherwise the stored record; changes nothing |
| `TaskService.TaskUpdate` | backend/src/services/task/taskService.ts:110-142 | the checks run in order id, body, existence; each failure gives its error and changes nothing; success keeps id and createdAt, replaces description and status only when supplied, sets updatedAt to now, touches no other record, and keeps the service invariants |
| `TaskService.TaskDelete` | backend/src/services/task/taskService.ts:157-172 | a malformed id gives `VALIDATION_ERROR`, an absent one `NOT_FOUND`, and neither changes anything; otherwise exactly that record is removed and the confirmation message returned |
| `TaskService.HexOctets` | backend/src/services/task/taskService.ts:55 | two hex digits per octet |
| `TaskService.FormatUuid` | backend/src/services/task/taskService.ts:55 | the textual form of a generated UUID passes the id check |
| `TaskService.GroupsFormUuid` | backend/src/services/task/taskValidation.ts:40 | five hex groups of 8, 4, 4, 4 and 12 digits joined by hyphens are in UUID form |
| `TaskService.IdParams` | backend/src/services/task/taskService.ts:86 | the parameter object for a UUID-form id parses to that id |
| `TaskService.CreateThenGet` | backend/src/services/task/taskService.ts:44-94 | the create succeeds iff the body passes its check; a created task can then be got by its generated id |
| `TaskService.DeleteThenGet` | backend/src/services/task/taskService.ts:79-172 | after a delete, getting or deleting the same id gives `NOT_FOUND`; a malformed id gives `VALIDATION_ERROR` |
| `TaskService.CompleteTask` | backend/src/services/task/taskService.ts:110-142 | marking a pending task completed sets its status, keeps its description, and on a later clock advances updatedAt; the table then holds that record under the id and nothing else changes |
| `TaskService.CreateAt` | backend/src/services/task/taskService.ts:44-64 | a create succeeds iff the body passes its check; on success the new record, created at now, is stored under the fresh id and its key appended; on failure the table is unchanged |
| `TaskService.CreateThenList` | backend/src/services/task/taskService.ts:26-64 | if the stored tasks were created one after another before now, then after a create the table is still in creation order, the list is its contents in reverse, and a task just created is listed first; repeated creates on a later clock therefore list newest first |

The service invariants are stated as predicates in `TaskService`:

- `WellFormed`: every record is stored under its own id, with a trimmed
  description whose length is within the bounds.
- `StampedBy(now)`: every record has createdAt <= updatedAt <= now.

Each mutating operation preserves both. Nothing in the source enforces the
second one; it holds only while the clock does not run backwards, so the
contracts state it conditionally.

Two facts about the code that the contracts take into account:

- An update sets updatedAt to the current time
  (`backend/src/services/task/taskService.ts`, line 138). It strictly
  increases only when the clock has moved past the old stamp; two updates in
  the same millisecond leave it equal. `TaskService.CompleteTask` therefore
  promises the advance only on a clock later than the old stamp.
- The description bounds are applied to `length` after trimming
  (`backend/src/services/task/taskValidation.ts`, lines 18-20), which counts
  UTF-16 code units, not characters. A description made only of characters
  outside the basic plane can be at most 250 characters long.

## Left out

- The HTTP layer is not modelled. That covers the Express controller, the
  routing table and the response envelope. It only forwards calls and formats
  replies.
- Proper UUID generation and the clock are not modelled; they are
  nondeterministic. `randomUUID()` is the parameter `freshId`, required to be
  absent from the table, and `FormatUuid` gives the textual form of its octets.
  `new Date().toISOString()` is the integer `now`; ISO-8601 formatting and
  `Date.getTime` parsing are not modelled.
- `async`/`Promise` are not modelled. Every operation is treated as
  synchronous, and there is no concurrency.
- TaskList: `Array.prototype.sort` sorts the fresh array in place. Here it is a
  stable insertion sort on the sequence value. The sorting algorithm is the
  JavaScript engine's, not the repository's, and the array `getAll` returns is
  fresh and unaliased, so no observable state differs.
- Error messages beyond the issue list are not modelled. The model keeps each
  issue's path and code, not Zod's human-readable issue text.
- Unpaired UTF-16 surrogates are not modelled. A JavaScript string can hold
  a lone surrogate, but a Dafny `char` is a Unicode scalar value. No check
  changes because of this: a lone surrogate counts one code unit and is not
  whitespace, like any other basic-plane character.
- Numbers in request bodies are integers only. No check reads a number, so
  floating point changes nothing any check decides.
- The frontend UI is not modelled. That covers the React components,
  DOMPurify, React Query, toasts and the HTTP client.
- The type-only and re-export files are not modelled. They hold no behaviour.
- Zod internals are not modelled. The schemas are restated as explicit check
  functions with Zod's order of checks: type first, then trim, then min, then
  max. All issues are collected, description first.
