# Lab records (ChemSense): a Dafny model

This project models the record-keeping core of ChemSense, a laboratory web
application. The application keeps four kinds of records:

- chemical experiments, each with a hazard assessment from an external
  assessment provider;
- free-text lab notes with comma-separated tags;
- compliance tasks with a deadline and a pending/completed status;
- safety incident reports.

The model covers these parts:

- `Schema` (`schema.dfy`): the four record shapes and their insert schemas.
  Each schema is a validator from a JSON body to the insert value, or to the
  first offending field.
- `Storage` (`storage.dfy`): the in-memory store `MemStorage`, a class with
  four maps and four id counters.
  - Create methods stamp the next id and the given clock reading.
  - Listings are stable sorts of the table in insertion order: experiments,
    notes and reports newest first, tasks by deadline.
  - A task can be merged with a partial update (`{...task, ...updates}`).
- `Routes` (`routes.dfy`): the HTTP handlers over an explicitly passed store.
  - Validation.
  - The hazard-prediction pipeline: build the prompt, call the provider,
    parse its JSON, fill defaults, store the row.
  - The create handlers.
  - The PATCH handler, including how `parseInt` reads its path parameter.
- `Dashboard` (`dashboard.dfy`): the experiment total, the per-level tally,
  the four chart bars, the active-hazard figure and the five most recent
  experiments.
- `LabNotebook` (`lab_notebook.dfy`): the case-insensitive search filter and
  the tag chips (split at commas, trimmed).
- `Compliance` (`compliance.dfy`): the pending and completed groups, the
  completion checkbox and the PATCH it sends, and the form defaults.

Helper modules hold the JavaScript semantics the code relies on:

- `Js` (`js.dfy`): optional and nullable fields, and `||` truthiness.
- `Text` (`text.dfy`): ASCII `toLowerCase`, `includes`, `split` on one
  character, `trim` over the ECMAScript white-space set, `parseInt` and the
  text of an integer in a template literal. The code never calls `join`;
  `Text.Join` exists only as the inverse that states the round trips of
  `split`.
- `Seqs` (`seqs.dfy`): `filter`, and a stable sort specified by
  sortedness, permutation and tie order.

External effects are parameters:

- the clock reading is `now`;
- `new Date(deadline).getTime()` is `dateValue`;
- the completion call is `provider`, a function from the prompt lines to a
  `Completion`;
- `JSON.parse` on non-empty content is `json`.

The model keeps these behaviours of the code, each of which a reader might
expect to be otherwise:

- A predict request that fails validation is answered 500, not 400
  (`routes.ts:79-81`).
- Empty strings pass validation; a missing compound name does not.
- The database column defaults (`status` "pending", `severity` "low") are not
  applied by the in-memory store. A task created without `status` keeps it
  missing and is in neither group of the compliance page.
- The PATCH body is merged unvalidated, so it may overwrite `id` and
  `createdAt`. Hence `MemStorage.Valid` requires an experiment, note or
  report to carry its key as its id, but not a task. The tie order of the
  task listing is stated only for a table where this still holds.
- The compliance page sends a task's PATCH to `${task.id}`, the record's
  `id` field, not to the key it is stored under. Once a PATCH has
  overwritten a task's `id`, toggling that task's checkbox changes the task
  stored under the new id, or is answered 404 when no key equals it
  (`Compliance.ToggleThroughRoute`).

## Model

| member | source | states |
|---|---|---|
| Js.OrNull | routes.ts:72-75 | `v \|\| null` is present exactly when `v` is a non-empty string, and is then `v` |
| Js.OrElse | routes.ts:73-74 | `v \|\| d` is the value `v` when that is a non-empty string, and `d` otherwise; it is never empty when `d` is not |
| Js.FieldOrNull | routes.ts:72 | `conditions \|\| null` is present exactly when the field is a non-empty string, and is that string |
| Text.Lower | lab-notebook.tsx:61-63 | `toLowerCase` keeps the length, leaves no ASCII capital, and changes only ASCII capitals, each to its small letter |
| Text.LowerForgetsCase | lab-notebook.tsx:61-63 | lower-casing an upper-cased or lower-cased text gives the lower-cased original |
| Text.SliceShift | lab-notebook.tsx:61-63 | a slice of a text without its first character is the slice one place further on in the text |
| Text.Includes | lab-notebook.tsx:61-63 | `s.includes(q)` holds exactly when `q` occurs in `s` at some offset |
| Text.IncludesEmpty | lab-notebook.tsx:61 | the empty query occurs in every text |
| Text.Split | lab-notebook.tsx:223 | `split(',')` yields one piece more than there are commas, and no piece holds a comma |
| Text.JoinSplit | lab-notebook.tsx:223 | joining the pieces of a split with the separator gives back the text |
| Text.SplitJoin | lab-notebook.tsx:223 | splitting a join of comma-free pieces gives back the pieces |
| Text.JoinAppendEmpty | lab-notebook.tsx:223 | an empty last piece adds just one separator to a join |
| Text.SplitJoinStep | lab-notebook.tsx:223 | splitting a join extended by a separator and a comma-free piece adds that piece to the split |
| Text.LeadingSpace | lab-notebook.tsx:228 | the count of leading characters removed by `trim()`: all of them are white space and the next character is not |
| Text.TrailingSpace | lab-notebook.tsx:228 | the count of trailing characters removed by `trim()`: all of them are white space and the one before them is not |
| Text.TrimStart | lab-notebook.tsx:228 | the result is a suffix of the input, all removed characters are white space, and it does not start with white space |
| Text.TrimEnd | lab-notebook.tsx:228 | the result is a prefix of the input, all removed characters are white space, and it does not end with white space |
| Text.Trim | lab-notebook.tsx:228 | `trim()` yields a slice of the input between two all-white-space margins, with no white space at either end |
| Text.TrimKeepsTrimmed | lab-notebook.tsx:228 | a text without white space at either end is its own trim |
| Text.TrimWithin | lab-notebook.tsx:228 | every character of a trimmed text is in the original |
| Text.Decimal | compliance.tsx:84 | `${id}` of a natural number is a non-empty run of decimal digits |
| Text.ParseInt | routes.ts:127 | a blank text is NaN, and a negative result needs a minus sign after the leading white space |
| Text.Signed | routes.ts:127 | the sign stage: an empty text is NaN, a negative result needs a leading minus, and without a sign the text goes straight to the unsigned stage |
| Text.ParseIntSkipsSpace | routes.ts:127 | `parseInt` skips leading white space: white space before a text does not change its value |
| Text.LeadingSpaceAppend | routes.ts:127 | white space put before a text adds exactly its length to the leading white space |
| Text.TrimStartDigit | routes.ts:127 | a text that starts with a decimal digit has no leading white space to skip |
| Text.DigitRunPrefix | routes.ts:127 | the digit run of digits followed by a non-digit is exactly those digits |
| Text.MagnitudePrefix | routes.ts:127 | the unsigned stage reads the leading digits in base 10 and ignores what follows them, unless a lone `0` is followed by `x` or `X` |
| Text.ParseIntDigitsFirst | routes.ts:127 | `parseInt` of a text that starts with its digits reads those digits and ignores the rest (`"12abc"` is 12) |
| Text.ParseIntLeadingNumber | routes.ts:127 | `parseInt` of white space, digits and a rest that does not continue the number reads the digits (`" 12"` and `"12abc"` give 12) |
| Text.Magnitude | routes.ts:127 | the digits after the sign: a text that does not start with a decimal digit is NaN |
| Text.IntText | compliance.tsx:84 | `${id}` of an integer starts with a minus sign exactly when it is negative, and is the decimal text of a natural number |
| Text.ParseIntText | compliance.tsx:84 | `parseInt` reads back the text of every integer, negative ones included |
| Text.ParseIntDecimal | routes.ts:127 | `parseInt` reads back the decimal text of every natural number |
| Text.MagnitudeOfDigits | routes.ts:127 | after the sign, a non-empty run of decimal digits is read whole in base 10 |
| Text.MagnitudeDecimal | routes.ts:127 | the unsigned stage of `parseInt` reads back the decimal text of every natural number |
| Text.ParseIntNoDigits | routes.ts:127 | a path parameter with no decimal digit parses as NaN |
| Seqs.Filter | compliance.tsx:92-93 | `filter` keeps exactly the elements that pass, each as often as it occurs in the input, in at most the input's length |
| Seqs.FilterIsSubsequence | lab-notebook.tsx:60-64 | a filter result keeps the input's order |
| Seqs.FilterDisjointLength | compliance.tsx:134 | two filters no element passes together pick at most all elements between them |
| Seqs.FilterAll | lab-notebook.tsx:60-64 | a filter every element passes keeps the whole sequence |
| Seqs.FilterEquivalent | lab-notebook.tsx:60-64 | filters with predicates that agree everywhere give the same result |
| Seqs.Insert | storage.ts:58-60 | inserting into a sorted sequence keeps it sorted and adds exactly the element |
| Seqs.SortBy | storage.ts:58-60 | `sort` with a numeric comparator yields a sorted permutation of its input |
| Seqs.SortKeepsTies | storage.ts:58-60 | the sort is stable: elements of equal rank keep their input order |
| Seqs.StrictMinimumFirst | storage.ts:80-82 | an element ranked strictly below all others comes first |
| Schema.ParseInsertExperiment | schema.ts:6-24 | accepts exactly bodies with string compound, concentration and temperature and a missing, null or string `conditions`; keeps only those members; otherwise names a schema field |
| Schema.ExperimentRoundTrip | schema.ts:18-24 | every experiment input, empty strings included, is accepted as sent |
| Schema.ExperimentIgnoresOtherKeys | schema.ts:18-24 | members outside the schema, such as `hazardLevel` or `id`, do not change the outcome |
| Schema.ParseInsertLabNote | schema.ts:30-41 | accepts exactly string `title` and `content` with missing, null or string `tags`; keeps only those members |
| Schema.LabNoteRoundTrip | schema.ts:38-41 | every lab-note input is accepted as sent |
| Schema.ParseInsertComplianceTask | schema.ts:47-59 | accepts exactly string title, description and deadline with a missing or string `status` (never null) |
| Schema.TaskRoundTrip | schema.ts:56-59 | every task input with a non-null status is accepted as sent |
| Schema.ParseInsertSafetyReport | schema.ts:65-77 | accepts exactly string title, content and incident date with a missing or string `severity` (never null) |
| Schema.ReportRoundTrip | schema.ts:74-77 | every report input with a non-null severity is accepted as sent |
| Storage.Column | storage.ts:58 | the table's values in insertion order: entry `i` is the record under key `i + 1` |
| Storage.Listing | storage.ts:58-60 | `Array.from(values()).sort(...)`: sorted by the rank, and a permutation of the table's values in insertion order |
| Storage.ListingMembers | storage.ts:58-60 | a listing holds n records, exactly the table's, each as often as keys hold it |
| Storage.ListingTies | storage.ts:58-60 | when each record's id is its key, records of equal rank keep id order |
| Storage.NewestHeadsListing | storage.ts:79-83 | a record ranked strictly first heads the listing |
| Storage.ExperimentAge | storage.ts:58-60 | the rank whose difference `rank(a) - rank(b)` is the comparator `b.createdAt - a.createdAt`: newest first |
| Storage.LabNoteAge | storage.ts:80-82 | the same newest-first rank for notes |
| Storage.ReportAge | storage.ts:133-135 | the same newest-first rank for reports |
| Storage.DeadlineRank | storage.ts:102-104 | the rank `new Date(deadline).getTime()`, whose difference is the comparator of the task listing |
| Storage.ExperimentListing | storage.ts:57-61 | the experiments of a table, each as often as keys hold it (a permutation of the table), newest first, equal timestamps in id order |
| Storage.LabNoteListing | storage.ts:79-83 | the notes of a table as a permutation of it, newest first, equal timestamps in id order |
| Storage.ReportListing | storage.ts:132-136 | the reports of a table as a permutation of it, newest first, equal timestamps in id order |
| Storage.TaskListing | storage.ts:101-105 | the task listing is a permutation of the stored tasks (as a multiset, so a task held under two keys appears twice), soonest deadline first; equal deadlines keep id order while ids equal keys |
| Storage.MergeTask | storage.ts:126 | an empty patch changes nothing; a patch with a status sets that status |
| Storage.MergeIdempotent | storage.ts:126 | applying the same patch twice changes nothing more |
| Storage.MergeStatusOnly | storage.ts:126 | a status-only patch changes only the status |
| Storage.MemStorage.constructor | storage.ts:45-54 | four empty tables, every counter at 1 |
| Storage.MemStorage.GetExperiments | storage.ts:57-61 | every stored experiment once, newest first, equal timestamps in id order |
| Storage.MemStorage.GetExperiment | storage.ts:63-65 | found exactly for the ids handed out, and then the record with that id |
| Storage.MemStorage.CreateExperiment | storage.ts:67-76 | stores the given row under the next id with the given timestamp; the counter grows by one; nothing else in the table changes |
| Storage.MemStorage.GetLabNotes | storage.ts:79-83 | every stored note once, newest first, equal timestamps in id order |
| Storage.MemStorage.GetLabNote | storage.ts:85-87 | found exactly for the ids handed out, and then the note with that id |
| Storage.MemStorage.CreateLabNote | storage.ts:89-98 | stores the note under a fresh id larger than every existing key; nothing else changes |
| Storage.NewestNoteHeads | storage.ts:79-83 | in a table keyed by id, a note stamped later than every other heads the listing |
| Storage.MemStorage.NewestNoteFirst | storage.ts:79-98 | a note stamped later than every other is listed first |
| Storage.MemStorage.Valid | storage.ts:45-54 | each table's keys are the ids its counter has handed out, and experiments, notes and reports carry their key as their id |
| Storage.MemStorage.GetComplianceTasks | storage.ts:101-105 | the stored tasks as a permutation (each as often as keys hold it), in non-decreasing deadline order; ties in id order while ids equal keys |
| Storage.MemStorage.GetComplianceTask | storage.ts:107-109 | found exactly for the ids handed out |
| Storage.MemStorage.CreateComplianceTask | storage.ts:111-120 | stores the task as given, status included or missing, under the next id |
| Storage.MemStorage.UpdateComplianceTask | storage.ts:122-129 | an unknown id changes nothing and yields none; a known id is replaced by the merge and the merge is returned; keys never change |
| Storage.MemStorage.GetSafetyReports | storage.ts:132-136 | every stored report once, newest first, equal timestamps in id order |
| Storage.MemStorage.GetSafetyReport | storage.ts:138-140 | found exactly for the ids handed out, and then the report with that id |
| Storage.MemStorage.CreateSafetyReport | storage.ts:142-151 | stores the report under the next id; nothing else changes |
| Routes.PromptLines | routes.ts:35-53 | the prompt has a conditions line exactly when `conditions` is truthy, and that line holds the conditions |
| Routes.PromptIgnoresFalsyConditions | routes.ts:40 | empty, null and missing conditions give the same prompt |
| Routes.Lookup | routes.ts:73-75 | a member of the parsed answer is found exactly when present |
| Routes.Assessed | routes.ts:68-76 | the stored row copies the request, takes a non-empty answer value or the default ("caution", "Analysis not available", null), and never has an empty level or analysis |
| Routes.ParseContent | routes.ts:65 | null or empty content parses as the empty object |
| Routes.PlanPredict | routes.ts:55-81 | the handler fails exactly on a failed call, unparsable content or a null document, each with its message; an object answer stores `Assessed` of its members, any other answer the all-defaults row |
| Routes.DefaultsFilled | routes.ts:65-76 | an empty answer, or an object without the three members, stores "caution", "Analysis not available" and no recommendations |
| Routes.HazardLevelUnchecked | routes.ts:73 | any non-empty level the provider names is stored, even one outside the four |
| Routes.PredictExample | routes.ts:30-78 | sodium hydroxide with the answer danger / "Corrosive." / "Wear gloves." stores exactly those values |
| Routes.Predict | routes.ts:30-83 | an invalid body is answered 500 before the provider is asked and nothing is stored; otherwise the prompt is sent and the plan decides between a stored row and a 500 with no change |
| Routes.PostLabNote | routes.ts:95-103 | an invalid body is answered 400 with no change; otherwise the note is stored under the next id |
| Routes.PostComplianceTask | routes.ts:115-123 | an invalid body is answered 400 with no change; otherwise the task is stored under the next id |
| Routes.PostSafetyReport | routes.ts:148-156 | an invalid body is answered 400 with no change; otherwise the report is stored under the next id |
| Routes.PatchOutcome | routes.ts:125-135 | 404 "Task not found" exactly when `parseInt` gives NaN or no such task exists; otherwise the merged task |
| Routes.PatchByDecimalId | routes.ts:127-128 | a task is reached through its id written in decimal |
| Routes.PatchWithoutDigits | routes.ts:127-131 | a parameter without digits always gets 404 |
| Routes.PatchComplianceTask | routes.ts:125-135 | answers `PatchOutcome` of the old table and stores the merge only on success |
| Dashboard.Count | dashboard.tsx:16-19 | the number of experiments with a level, never more than the list length |
| Dashboard.CountPositive | dashboard.tsx:16-19 | a level has a positive count exactly when some experiment has it |
| Dashboard.TalliesUnique | dashboard.tsx:16-19 | a tally is determined by its list |
| Dashboard.HazardCounts | dashboard.tsx:16-19 | the reduce maps exactly the occurring levels, each to its number of experiments, and its counts add up to the total |
| Dashboard.SumRemove | dashboard.tsx:16-19 | the sum of a tally's counts splits at any key |
| Dashboard.TallySum | dashboard.tsx:15-19 | the counts of any tally of the list add up to the number of experiments |
| Dashboard.CountOf | dashboard.tsx:23-26 | `hazardCounts[level] \|\| 0` |
| Dashboard.CountOfTally | dashboard.tsx:23-26 | on a tally, `counts[level] \|\| 0` is the level's count, also for absent levels |
| Dashboard.TotalExperiments | dashboard.tsx:15 | `experimentsList.length` |
| Dashboard.ChartData | dashboard.tsx:22-27 | four bars, safe, caution, danger and critical in that order, each with its count |
| Dashboard.ChartMatchesList | dashboard.tsx:22-27 | each bar shows the number of experiments with exactly that level |
| Dashboard.Unlisted | dashboard.tsx:22-27 | the experiments on no bar, never more than the list length |
| Dashboard.ChartTotal | dashboard.tsx:15-27 | the four bars plus the unlisted experiments equal the total; the bars alone equal it exactly when every level is one of the four |
| Dashboard.ActiveHazards | dashboard.tsx:83 | `(danger \|\| 0) + (critical \|\| 0)` over a tally |
| Dashboard.ActiveHazardsOfList | dashboard.tsx:83 | active hazards are the danger plus critical experiments, never more than the total |
| Dashboard.RecentExperiments | dashboard.tsx:20 | `slice(0, 5)`: the first min(5, n) experiments |
| Dashboard.RecentAreNewest | dashboard.tsx:20 | on a newest-first listing, no experiment left out is newer than one shown |
| LabNotebook.Matches | lab-notebook.tsx:61-63 | the search test: the lower-cased query in the lower-cased title or content, or in the tags when truthy |
| LabNotebook.FilteredNotes | lab-notebook.tsx:60-64 | keeps exactly the listed notes that match the query, each as often as it is listed |
| LabNotebook.EmptyQueryKeepsAll | lab-notebook.tsx:60-64 | the empty search shows every note, in order |
| LabNotebook.FilteredKeepsOrder | lab-notebook.tsx:60-64 | the result is a subsequence of the listing |
| LabNotebook.QueryCaseIgnored | lab-notebook.tsx:60-64 | upper- or lower-casing the query does not change the result |
| LabNotebook.FoundByTitlePiece | lab-notebook.tsx:61 | a note is found by any piece of its title in any letter case |
| LabNotebook.FoundByTags | lab-notebook.tsx:63 | when title and content do not match, a note is found exactly when its tags are truthy and match |
| LabNotebook.TrimAll | lab-notebook.tsx:228 | each piece trimmed, in order |
| LabNotebook.TagChips | lab-notebook.tsx:221-230 | no chips for falsy tags; otherwise one chip more than there are commas, chip `i` the trim of the `i`-th piece between commas, each comma-free and trimmed |
| LabNotebook.TrimAllKeepsTrimmed | lab-notebook.tsx:228 | trimming already trimmed pieces keeps them |
| LabNotebook.TagChipsRoundTrip | lab-notebook.tsx:221-230 | tags written as comma-free pieces joined by commas, such as `"titration, pH"`, show those pieces trimmed; already trimmed pieces show as written |
| LabNotebook.TagChipsOfTags | lab-notebook.tsx:221-230 | every truthy tags value is the comma join of comma-free pieces, and its chips are those pieces trimmed |
| Compliance.IsPending | compliance.tsx:92 | `t.status === "pending"` |
| Compliance.IsCompleted | compliance.tsx:93 | `t.status === "completed"` |
| Compliance.PendingTasks | compliance.tsx:92 | keeps exactly the tasks whose status is "pending", each as often as it is listed |
| Compliance.CompletedTasks | compliance.tsx:93 | keeps exactly the tasks whose status is "completed", each as often as it is listed |
| Compliance.PendingAndCompletedDisjoint | compliance.tsx:92-93 | no task is in both groups, and the two header counts add up to at most the number of tasks |
| Compliance.OtherStatusUncounted | compliance.tsx:92-93 | a task with any other status, missing included, is in neither group |
| Compliance.GroupsKeepOrder | compliance.tsx:92-93 | both groups keep the listing order |
| Compliance.ToggleStatus | compliance.tsx:84 | "completed" exactly when checked, otherwise "pending" |
| Compliance.TogglePatch | compliance.tsx:84 | the PATCH body carries only a status |
| Compliance.ToggleShowsChecked | compliance.tsx:224-226 | after the toggle the checkbox shows what was clicked, and only the status changed |
| Compliance.IsChecked | compliance.tsx:224 | `checked={task.status === "completed"}` |
| Compliance.ToggleThroughRoute | compliance.tsx:82-86 | the PATCH to `${t.id}` reaches the task stored under key `t.id`, or is 404 when there is none; a task stored under its own id moves into the clicked group |
| Compliance.DefaultTaskIsPending | compliance.tsx:36-44 | a task sent with the form's default status is accepted and stored as pending |
| Compliance.DefaultReportIsLow | compliance.tsx:46-54 | a report sent with the form's defaults is accepted with severity "low" |

## Left out

- The OpenAI client, its model name, temperature and system message: the
  call is the `provider` parameter.
- The prompt wording. The model keeps its compound, concentration,
  temperature and conditions lines, without the units and the fixed
  instructions.
- Express routing, `async`/`await`, the response-object plumbing and logging
  to the console.
- The four GET handlers. Each returns the store listing unchanged (modelled
  in `Storage`). Their 500 branch cannot fire with the in-memory store.
- The 400 branch of the PATCH handler, which the in-memory store cannot make
  fire.
- The wall clock: `createdAt` is the `now` parameter, an integer time.
- Date parsing of deadlines, including invalid dates and NaN comparisons:
  `dateValue` stands for it.
- Floating point in general: `parseInt` is read over exact integers, and the
  results of `new Date` are not modelled.
- Text.ParseInt: reads the digits as an exact integer. JavaScript loses
  precision beyond 2^53 and still looks the result up in the map.
- Unicode case mapping: `toLowerCase` is modelled on ASCII letters only.
- zod internals and error texts. A validation error's message is modelled as
  the path of the first offending field. The real message is a non-empty
  JSON text of all issues.
- Request bodies that are not JSON objects (an array, a number, a string,
  `null`). `Body` is a map of members, so such a body cannot be expressed.
  The code answers it with the validator's rejection, 400 on the create
  routes and 500 on predict, and the PATCH spread would copy an array's
  indices into the task.
- JSON values other than strings in request bodies. They are told apart only
  by kind: validation rejects them.
- Non-string members of the provider's parsed answer. They are not modelled:
  only string-valued members reach `Assessed`.
- The PATCH body beyond the six task fields. Members outside
  `ComplianceTask`, and members of other types, which the spread would also
  copy, are not modelled.
- Dashboard.HazardCounts: keys inherited from `Object.prototype`, such as a
  level named "toString", are not modelled. An accumulator over `{}` reads
  them as existing.
- The hard-coded dashboard figures "12" and "3", JSX rendering, styling,
  dialogs, toasts and query caching.
- `App.tsx` (routing between pages) and the hazard-predictor page.
- The database backend, the `IStorage` interface and the column defaults
  that only a database applies.
- Concurrency: requests are modelled one at a time against one store.
