# Ative Dashboard task aggregation, in Dafny

This project models the aggregation logic of an operations dashboard that sits on top of
the ClickUp task service.

- **Paginated task fetch.** The fetch layer (`src/services/clickup.ts`) downloads a list's
  tasks page by page and builds each page's query. It derives the counters shown on the
  dashboard (active clients, pending meetings, triage demands) and concatenates the six
  operational lists. It also resolves the `Cliente` custom field of a task.
- **Client page.** The client page (`src/pages/ClientView.tsx`) reads the onboarding status
  and the account, traffic and content staff of the selected client from its macro task's
  custom fields. It resolves the client's operational list id from a name-to-id map.
- **Team page.** The team page (`src/pages/TeamPerformance.tsx`) groups the open tasks under
  each assignee's username, and looks a team member up by first name.
- **Id-discovery script.** The script (`src/scripts/fetch_clickup_ids.ts`) loads a `.env`
  file into the process environment. It then walks teams, spaces, folders and lists into a
  name-keyed hierarchy.

The HTTP service is an input to the model.

- **Task fetch.** For each endpoint path, the model takes the outcomes of that path's page
  requests in order. Each outcome is a page of tasks or a failure. A request past the end of
  that sequence receives an empty page.
- **Id-discovery script.** The oracle maps each endpoint path to a decoded item list or a
  failure.
- **File and environment.** The `.env` file is an optional text, and the process
  environment is a map passed in and returned.

JavaScript objects whose key order matters are insertion-ordered association lists. These
are the `tasksByCollab` object and the client-to-list map. A custom-field value is one of
`Undefined`, `Null`, a number, a string or a list of usernames. Truthiness and `String(v)`
are written out for these values.

Files:

- `common.dfy`: `Option` and `FindIndex` (`Array.prototype.find`).
- `js_string.dfy`: `toLowerCase`, `includes`, `trim`, `split`, `join`, and `String` of an
  integer.
- `clickup_types.dfy`: tasks and custom fields.
- `clickup_service.dfy`: the fetch layer.
- `client_view.dfy`, `team_performance.dfy`, `fetch_clickup_ids.dfy`: the client page, the
  team page and the id-discovery script.

Two behaviours of the code are worth stating outright. The model keeps both.

- **Empty list id.** `fetchTasks` has no guard for an empty list id
  (`src/services/clickup.ts:158-170`). `FetchTasks` therefore requests `/list//task` like
  any other path.
- **Client info errors.** Client-info extraction raises a `TypeError` in two cases
  (`src/pages/ClientView.tsx:43-48`). The first is a `drop_down` field without an option
  catalog. The second is a staff field whose value is a number or a string. The error
  stops the selection effect before any state is written. The model keeps that outcome
  (`Resolved.TypeError`, `EffectOutcome.Crashed`).

## Model

| member | source | states |
|---|---|---|
| ClickUpService.FetchPaginatedTasks | src/services/clickup.ts:70-109 | returns exactly the tasks of the pages before the first empty or failed one, in page order; issues one request per non-empty page plus the stopping one, and request i asks page i of the same endpoint with the caller's params |
| ClickUpService.CollectedIsLeadingPages | src/services/clickup.ts:94-100 | the result is the concatenation, in order, of every page received before the first empty page or failure |
| ClickUpService.LeadingPagesIsFirstStop | src/services/clickup.ts:96-101 | the number of pages consumed is the index of the first page that is empty or failed |
| ClickUpService.CollectedStopsAtFailure | src/services/clickup.ts:88-105 | a failed request ends the loop with exactly the tasks accumulated so far (the fetch never throws) |
| ClickUpService.CollectedIgnoresLaterPages | src/services/clickup.ts:96-97 | no outcome after the stopping page influences the result or the number of requests |
| ClickUpService.FiftyFiftyEmpty | src/services/clickup.ts:94-100 | pages of 50, 50 and 0 tasks give 100 tasks after three requests |
| ClickUpService.SetParamSpec | src/services/clickup.ts:82-84 | `URLSearchParams.set` leaves exactly one value under the name and keeps every other name's values and the order of all other entries |
| ClickUpService.SetParam | src/services/clickup.ts:82-84 | after `set`, the name holds exactly the one value set |
| ClickUpService.PageQuery | src/services/clickup.ts:78-84 | every page query carries `page` (the page number's decimal text), `subtasks=true` and `include_closed=true` once each, whatever the caller passed under those names |
| ClickUpService.PageQueryKeepsCallerParams | src/services/clickup.ts:79-84 | caller entries under any name other than the three forced ones keep their values and their order |
| ClickUpService.TaskParamsEntries | src/services/clickup.ts:163-168 | the caller entries of `fetchTasks` are `archived=false`, plus `include_custom_fields=true` exactly when asked |
| ClickUpService.TaskQueryParams | src/services/clickup.ts:158-170 | each page query of `fetchTasks` asks for unarchived tasks, subtasks and closed tasks, custom fields exactly when requested, and the page number |
| ClickUpService.FetchTasks | src/services/clickup.ts:158-175 | the list's task endpoint is fetched page by page with the `fetchTasks` params, including for an empty list id |
| ClickUpService.FetchListCount | src/services/clickup.ts:177-185 | the count is the number of tasks the list's fetch returns |
| ClickUpService.FetchActiveClientsCount | src/services/clickup.ts:187-189 | the active-client count is the size of the macro-operation list |
| ClickUpService.ActiveTasks | src/services/clickup.ts:193 | a task is kept exactly when its status is neither `complete` nor `closed` (case-sensitive) |
| ClickUpService.ActivePlusDone | src/services/clickup.ts:191-199 | active and done tasks partition the collection, so the active count is at most the task count |
| ClickUpService.ActiveTasksAppend | src/services/clickup.ts:193 | the active filter distributes over concatenated task collections |
| ClickUpService.FetchPendingMeetingsCount | src/services/clickup.ts:191-194 | the count is the number of meetings-list tasks whose status is neither `complete` nor `closed`, which is the task count minus the done ones |
| ClickUpService.FetchDemandsFilterCount | src/services/clickup.ts:196-199 | the same count for the demand-triage list |
| ClickUpService.FetchTrafficPipeline | src/services/clickup.ts:201-203 | returns the traffic list's collected tasks |
| ClickUpService.FetchClientTasks | src/services/clickup.ts:205-207 | returns the given list's collected tasks |
| ClickUpService.FetchMacroOperationTasks | src/services/clickup.ts:209-211 | returns the macro list's tasks, and every request of it asks for custom fields |
| ClickUpService.OpenTasksInOrder | src/services/clickup.ts:215-229 | collecting the six lists one after the other gives their tasks concatenated in the fixed list order |
| ClickUpService.FetchAllOpenTasks | src/services/clickup.ts:213-231 | the six operational lists' tasks concatenated in the fixed list order, with no deduplication |
| ClickUpService.GetClientNameFromTask | src/services/clickup.ts:237-253 | a name only ever comes from the first field named exactly `Cliente`, and only when its value is neither null nor undefined (the full case split is in the three lemmas below) |
| ClickUpService.ClientNameNull | src/services/clickup.ts:237-248 | the name is null exactly when there are no custom fields, no field is named exactly `Cliente`, its value is null or undefined, or its catalog has no option matching the value |
| ClickUpService.ClientNameFromCatalog | src/services/clickup.ts:244-248 | with a catalog, the name is that of the first option whose `orderindex` or `id` strictly equals the value |
| ClickUpService.ClientNameWithoutCatalog | src/services/clickup.ts:251-252 | without a catalog, the name is `String(value)` |
| ClickUpService.ClientNameDropDownExample | src/services/clickup.ts:244-248 | a value of 2 selects the option at orderindex 2 |
| Common.FindIndex | src/services/clickup.ts:240 | `find` returns the first element satisfying the predicate, or none when no element does |
| JsString.Contains | src/pages/ClientView.tsx:37-40 | `includes` holds exactly when the needle occurs at some position |
| JsString.Trim | src/scripts/fetch_clickup_ids.ts:16 | the trimmed text is an infix of the text, everything before and after it is whitespace, it has no whitespace at either end, and it is empty exactly when the text is all whitespace |
| JsString.SplitJoin | src/scripts/fetch_clickup_ids.ts:13-14 | joining the parts of a split with the separator gives back the text |
| JsString.SplitFirst | src/scripts/fetch_clickup_ids.ts:14 | the first part of a split is the text before the first separator, there is a second part exactly when the separator occurs, and the later parts are the split of the rest |
| JsString.NatToStringRoundTrip | src/services/clickup.ts:82 | the decimal text of the page number reads back as that number |
| ClientView.RoleField | src/pages/ClientView.tsx:37-40 | the role field is the first custom field whose lower-cased name contains one of the role's substrings, and none exactly when no field matches or there are no custom fields |
| ClientView.Onboarding | src/pages/ClientView.tsx:43-45 | raises exactly for a `drop_down` field without a catalog; an absent field shows `Ongoing`; a field of another type shows its value when truthy and `Ongoing` otherwise; a drop-down whose value matches no option's `orderindex` shows `N/A`; any value shown is truthy |
| ClientView.OnboardingFromCatalog | src/pages/ClientView.tsx:43-44 | a drop-down shows the name of the first option whose `orderindex` equals the value, or `N/A` when that name is empty |
| ClientView.OnboardingTextDropDown | src/pages/ClientView.tsx:44 | a drop-down whose value is not a number matches no option and shows `N/A` |
| ClientView.StaffNames | src/pages/ClientView.tsx:46-48 | raises exactly for a number or string value; an absent field or a null or undefined value shows `N/A`; a users value whose joined names are not empty shows those names; the text shown is never empty |
| ClientView.StaffNamesNotAvailable | src/pages/ClientView.tsx:46-48 | a users field shows `N/A` exactly when it lists nobody or one empty username (or the joined names are literally `N/A`), and otherwise the names joined with `, ` |
| ClientView.ExtractInfo | src/pages/ClientView.tsx:42-49 | the record raises exactly when one of the four role resolutions raises; otherwise each field holds its own role's resolution (onboarding, account, traffic, content), and none is empty or falsy |
| ClientView.ExtractInfoWithoutFields | src/pages/ClientView.tsx:37-49 | a task without custom fields shows `Ongoing` and three `N/A` |
| ClientView.ClientInfoFor | src/pages/ClientView.tsx:33-51 | the info is absent exactly when no macro task has exactly the selected name, and otherwise comes from the first such task |
| ClientView.Lookup | src/pages/ClientView.tsx:57 | a key lookup finds a value exactly when some entry has the key, and the value is that entry's |
| ClientView.ResolveListId | src/pages/ClientView.tsx:57-62 | a resolved id is never empty, and is either the exact entry's or the first matching key's (a non-empty key) |
| ClientView.ResolveExact | src/pages/ClientView.tsx:57-58 | an exact entry with a non-empty id wins over every partial match |
| ClientView.ResolvePartial | src/pages/ClientView.tsx:58-62 | without a usable exact entry, the id is that of the first key whose lower-cased text contains or is contained in the lower-cased name, when that key and its id are not empty; no id when no key matches |
| ClientView.EmptyKeyShadows | src/pages/ClientView.tsx:60-61 | an empty key before a matching key hides it, and the client gets no list |
| ClientView.MacroTasksLoaded | src/pages/ClientView.tsx:21-26 | the macro tasks are stored, and the first one's name becomes the selection when there is one |
| ClientView.SelectionEffect | src/pages/ClientView.tsx:30-74 | an empty selection clears the info and the tasks; otherwise the effect raises exactly when the info extraction raises, the info is the first exact-name task's, and the tasks are the resolved list's or none |
| ClientView.OperationalTasks | src/pages/ClientView.tsx:64-68 | without a resolved list id the client has no operational tasks; with one, they are that list's collected tasks |
| ClientView.FirstClientSelected | src/pages/ClientView.tsx:21-35 | after loading, the first client is selected and its info is shown |
| TeamPerformance.GroupByAssignee | src/pages/TeamPerformance.tsx:33-46 | the nested loops build exactly the grouping of the task collection |
| TeamPerformance.PushAt | src/pages/TeamPerformance.tsx:41-44 | creating a missing key at the end and then pushing is the append-to-group operation |
| TeamPerformance.PushGroupOf | src/pages/TeamPerformance.tsx:41-44 | a push adds the task at the end of that key's group and changes no other group |
| TeamPerformance.KeyIndex | src/pages/TeamPerformance.tsx:41 | the key's entry is found when the key is present and reported absent otherwise |
| TeamPerformance.GroupedIsTasksOf | src/pages/TeamPerformance.tsx:35-44 | each username's group holds the tasks in collection order, once per assignee entry with that username: duplicates are filed twice, tasks without assignees nowhere |
| TeamPerformance.GroupedKeys | src/pages/TeamPerformance.tsx:40-43 | a username is a key exactly when some task lists it as an assignee |
| TeamPerformance.Grouped | src/pages/TeamPerformance.tsx:35-46 | in the grouping of a task collection, keys are distinct, every group is non-empty, and the group sizes add up to the number of assignee entries |
| TeamPerformance.FirstName | src/pages/TeamPerformance.tsx:62 | the looked-up name is the lower-cased text before the first space |
| TeamPerformance.GetTasksForMember | src/pages/TeamPerformance.tsx:60-65 | the tasks found are none, or the group of the first key containing the lower-cased first name, when that key is not empty |
| TeamPerformance.MemberLookup | src/pages/TeamPerformance.tsx:60-65 | a member gets the group of the first key whose lower-cased text contains the first name (none for an empty key), and no tasks when no key does |
| TeamPerformance.CardCount | src/pages/TeamPerformance.tsx:78-79 | on the page's grouping, a card shows every task filed under the matched username, whatever its status, one per assignee entry |
| TeamPerformance.CardCounts | src/pages/TeamPerformance.tsx:77-79 | one count per team member, in card order, each the number of tasks the member lookup finds for that member |
| TeamPerformance.FirstNameOfMember | src/pages/TeamPerformance.tsx:18 | "Carlos GT" is looked up as "carlos" |
| FetchClickUpIds.LineEntry | src/scripts/fetch_clickup_ids.ts:14-16 | a written key and value never contain `=` |
| FetchClickUpIds.LineEntryByPosition | src/scripts/fetch_clickup_ids.ts:13-17 | a line writes the trimmed text before the first `=` and the trimmed text up to the next `=`, when both untrimmed texts are non-empty |
| FetchClickUpIds.KeyValueLine | src/scripts/fetch_clickup_ids.ts:14-16 | a `key=value` line writes the trimmed pair unless the key or the value is empty |
| FetchClickUpIds.SecondSeparatorDropped | src/scripts/fetch_clickup_ids.ts:14 | text after a second `=` is dropped |
| FetchClickUpIds.BlankKeyNotStored | src/scripts/fetch_clickup_ids.ts:15-16 | a whitespace key passes the check and trims to the empty name, which the environment refuses, so the line changes nothing |
| FetchClickUpIds.LineWithoutKeyOrValue | src/scripts/fetch_clickup_ids.ts:15 | a line without `=` or starting with `=` writes nothing |
| FetchClickUpIds.ApplyLines | src/scripts/fetch_clickup_ids.ts:13-18 | loading keeps every name already in the environment, and every name it adds is non-empty and free of `=` |
| FetchClickUpIds.ApplyLinesOverwrites | src/scripts/fetch_clickup_ids.ts:13-18 | the environment after loading is the old one overwritten by the file's entries, a later line for the same key winning and other keys unchanged |
| FetchClickUpIds.LastWinsKeys | src/scripts/fetch_clickup_ids.ts:52 | a name-keyed object has exactly the names written |
| FetchClickUpIds.LastWinsValue | src/scripts/fetch_clickup_ids.ts:52 | a name maps to the value of its last write |
| FetchClickUpIds.LoadEnv | src/scripts/fetch_clickup_ids.ts:11-19 | without the file the environment is unchanged; with it, every line is applied in order |
| FetchClickUpIds.NodeEntriesSpec | src/scripts/fetch_clickup_ids.ts:50-80 | a level succeeds exactly when every child's subtree succeeds, pairing each child's name with its subtree in order |
| FetchClickUpIds.HierarchyOf | src/scripts/fetch_clickup_ids.ts:42-89 | a saved hierarchy comes from a successful team request and is keyed by exactly the names of the listed teams |
| FetchClickUpIds.SpaceListsPlacement | src/scripts/fetch_clickup_ids.ts:59-78 | folder lists are recorded under their folder from the folder's list endpoint, folderless lists under the space; the last folder with a name wins |
| FetchClickUpIds.HierarchyFailures | src/scripts/fetch_clickup_ids.ts:42-88 | no hierarchy is saved when the team request or any team's subtree fails |
| FetchClickUpIds.HierarchyLastTeamWins | src/scripts/fetch_clickup_ids.ts:50-52 | a team name keys the subtree of the last team with that name |
| FetchClickUpIds.FetchLists | src/scripts/fetch_clickup_ids.ts:66-70 | a list endpoint's names map to their ids, later names overwriting, or nothing on failure |
| FetchClickUpIds.FetchFolder | src/scripts/fetch_clickup_ids.ts:61-71 | the folder loop body builds the folder's node |
| FetchClickUpIds.FetchSpace | src/scripts/fetch_clickup_ids.ts:55-79 | the space loop body builds the space's folders and folderless lists |
| FetchClickUpIds.FetchTeam | src/scripts/fetch_clickup_ids.ts:50-80 | the team loop body builds the team's spaces |
| FetchClickUpIds.BuildHierarchy | src/scripts/fetch_clickup_ids.ts:42-89 | the walk yields the name-keyed hierarchy, or nothing when any request fails |
| FetchClickUpIds.Run | src/scripts/fetch_clickup_ids.ts:9-27 | the script stops when the loaded environment has no token, and otherwise runs the walk |

## Left out

- `server.ts` and `api/clickup/[...path].ts`: the proxy only forwards requests with the token. Its status passthrough is the page outcome the model takes as input.
- `fetchLists`, `fetchWorkspaceMembers`, `fetchMemberTasks` (`src/services/clickup.ts:32-44`, `112-155`): network wrappers whose results no modelled code consumes.
- `process.env` is a map from name to text. A write with an empty name stores nothing, because the runtime's `setenv` refuses it and the error is ignored. Other platform limits on environment names and values are not modelled.
- HTTP, JSON decoding, `console` logging and `fs` reads and writes are inputs or outputs of the model. The saved JSON file's text and key order are not modelled.
- ClickUpService.FetchPaginatedTasks: a request records its path, caller params and page, and its query string is derived from them by `PageQuery`. Percent-encoding of the query text is not modelled.
- JsString.LowerChar: lower-cases ASCII and Latin-1 capitals only. Unicode case mapping beyond that, and normalisation, are not modelled.
- ClientView.Lookup: returns the first entry with the key. Object keys are distinct, so this is the object's value.
- Integer-like object keys, which JavaScript enumerates first in ascending order, are not modelled.
- Inherited prototype keys (`constructor`, `__proto__`) read as truthy values in JavaScript. They are not modelled for the `tasksByCollab` object nor for the client-to-list map.
- Custom-field values that are floats, booleans or arrays of non-user objects are not modelled. Neither are `orderindex` values that are not integers.
- React rendering, the view-mode toggle, the member modal, `TimeFilter` and due-date formatting are not modelled.
- Promises are treated as completing in order, before the next effect runs.
- Overdue and in-progress bucketing does not exist in the code and is not modelled.
- `fetchTasks` and `fetchListCount` wrap their bodies in `try`/`catch`. The paginated fetch never throws, so those handlers are unreachable and are not modelled.
- The onboarding status is rendered as a React child. The model returns the raw field value where the code does, not its rendered text.
