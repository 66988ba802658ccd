# day-timeline core in Dafny

A Dafny model of the logic at the core of day-timeline, a day-planning app.
A day is an ordered list of time blocks. Each block has an estimate and tracked
time sessions. The model covers:

- **Shared** and **Decimal**: the day-metrics engine of the shared package.
  - Actual minutes per block.
  - Planned and actual totals and the delta.
  - The four category buckets.
  - The current block.
  - Planned and forecast bedtimes.
  - The default day.
- **TemplateStore** and **CategoryStore**: the two settings stores.
  - Each store is a class holding an ordered `seq`.
  - Operations: append, update by id, delete or soft delete, restore, drag-reorder with renumbering, and the "active" views.
- **CategoryList**: the category list's active/deleted split and its choice of a fresh colour and icon.
- **BlockHeader**: the planned and projected start times of a block header, and the label chosen from them.
- **CompletionCountdown**: the undo countdown after a block is completed.
  - The pending map is a class field.
  - The tick's expiry pass is a loop proved to keep exactly the entries that have not expired.
- **TimeFormat**: duration and delta formatting, each paired with a parser for the strings it produces.
- **PutState**: the day-state upload handler.
  - The body validator, the date check and the order of the refusals.
  - The stored state.
- **DynamicIcon**: the kebab-case to PascalCase icon-name conversion.
- **ModalTasks**, **EditBlockModal** and **AddBlockModal**: the task-list editing shared by the two block dialogs, the edit dialog's load and save-merge, and the add dialog's form state.
- **Seqs**: the JavaScript array operations that the stores use, with their laws. These are `filter`, `map`, `find`, `findIndex`, `splice`, the `forEach` renumbering pass and the stable `sort`.

Conventions:

- Timestamps are integer milliseconds and minutes are exact reals.
- The clock (`Date.now()`), `generateId()` and ISO time strings are explicit parameters (`now`, `id`, `nowIso`).
- `new Date(x)` and `setMinutes` truncate a fractional argument toward zero. This is `Shared.Trunc`.
- Optional values (`undefined`, a failed `find`) are `Option`.

## Model

| member | source | states |
|---|---|---|
| Shared.CreateDefaultDayState | shared/src/index.ts:130-153 | version 1, the given date and user, no day start, `createdAt == updatedAt`; one block per `DEFAULT_BLOCKS` entry in table order, with that entry's type, label and minutes, no sessions, empty notes and `order` equal to its index |
| Shared.DefaultDayTotals | shared/src/index.ts:130-153 | the default day plans 780 minutes, has 0 actual minutes, no current block and no planned bedtime |
| Shared.CategoryInFind | shared/src/index.ts:183 | the category lookup is the category of the first table entry with the block's type, and routine when no entry has it (as in the source for a key such as "constructor", whose `?.category` is `undefined`) |
| Shared.CategoryOfTable | shared/src/index.ts:18-62 | each known block type gets its own table category |
| Shared.BlockActualMinutes | shared/src/index.ts:155-167 | a block without sessions has 0 actual minutes |
| Shared.SessionsMinutesShift | shared/src/index.ts:156-166 | moving the clock adds the elapsed time once per open session and nothing for closed ones |
| Shared.BlockActualMinutesMonotone | shared/src/index.ts:155-167 | actual minutes never decrease as `now` grows |
| Shared.BlockActualMinutesClosed | shared/src/index.ts:157-166 | with every session closed, actual minutes do not depend on `now` |
| Shared.LastActiveBlockId | shared/src/index.ts:199-203 | no current block exactly when no block has an open session |
| Shared.LastActiveBlockIdWitness | shared/src/index.ts:199-203 | a current block id belongs to a block with an open session, and no later block has one |
| Shared.BucketsPartitionActual | shared/src/index.ts:183-197 | work + movement + leisure + routine equals total actual minutes: every block falls in exactly one bucket |
| Shared.Trunc | shared/src/index.ts:209-211 | the truncation of a fractional millisecond value is within 1 of it, toward zero |
| Shared.PlannedBedtime | shared/src/index.ts:206-212 | none exactly when the day has not started; otherwise day start + planned minutes × 60000 truncated toward zero to a millisecond, exact for a whole number of milliseconds |
| Shared.ForecastBedtime | shared/src/index.ts:214-220 | none exactly when the day has not started; otherwise `now` + (planned − actual) × 60000 truncated toward zero to a millisecond, exact for a whole number of milliseconds; not before `now` while actual ≤ planned, before `now` once actual exceeds the plan by a millisecond; no clamping |
| Shared.CalculateDayMetrics | shared/src/index.ts:169-234 | the loop yields the planned and actual totals, delta = actual − planned, the four buckets, the last block with an open session, and both bedtimes |
| Seqs.MapWhere | frontend/src/store/templateStore.ts:90-92 | matching elements are rewritten, all others kept in place |
| Seqs.FindIndex | frontend/src/store/templateStore.ts:112-113 | the first matching index, or −1 exactly when nothing matches |
| Seqs.Find | frontend/src/store/categoryStore.ts:141-144 | the first matching element, or none exactly when nothing matches |
| Seqs.FilterMember | frontend/src/store/templateStore.ts:99 | an element is kept exactly when it is in the input and passes the test |
| Seqs.Move | frontend/src/store/templateStore.ts:117-118 | the moved element lands at the target index, the others keep their relative order, and the result is a permutation |
| Seqs.Renumber | frontend/src/store/templateStore.ts:101-103 | the renumbering loop sets each element's `order` to its position |
| Seqs.SortBy | frontend/src/store/templateStore.ts:215 | the sort by `order` is a permutation |
| Seqs.SortBySorted | frontend/src/store/templateStore.ts:215 | the sort's result is in ascending `order` |
| Seqs.SortBySortedIsIdentity | frontend/src/store/templateStore.ts:215 | a list already in ascending `order` comes back unchanged |
| Seqs.SortByStable | frontend/src/store/templateStore.ts:215 | the sort is stable: for every key value, the elements with that key come out in the order they went in |
| Seqs.MoveRenumbered | frontend/src/store/templateStore.ts:117-123 | after the move and the renumbering, the moved element is at the target index with that index as its `order`, and every element is the moved list's one with its position as `order` |
| TemplateStore.AddTemplateTo | frontend/src/store/templateStore.ts:76-85 | one new template is appended with the fresh id and `order` = previous length; the existing templates are untouched |
| TemplateStore.UpdateTemplateIn | frontend/src/store/templateStore.ts:88-93 | only templates with the id are patched; an unknown id leaves the list unchanged |
| TemplateStore.DeleteTemplateFrom | frontend/src/store/templateStore.ts:97-104 | the templates without the id, in their old relative order, renumbered 0..n−1 |
| Seqs.Reorder | frontend/src/store/templateStore.ts:109-125 | an unknown active or over id returns the list unchanged; otherwise the active element moves to the over position and every element gets its position as `order`; the category and task reorders are the same function |
| TemplateStore.ActiveTemplates | frontend/src/store/templateStore.ts:211-216 | sorted by `order`, and a permutation of the non-hidden templates |
| TemplateStore.ActiveTemplatesMembers | frontend/src/store/templateStore.ts:211-216 | a template is in the active view exactly when it is in the store and not hidden |
| TemplateStore.ActiveTemplatesOfNumbered | frontend/src/store/templateStore.ts:211-216 | on a renumbered list the active view is the plain filter, in list order |
| TemplateStore.AddTaskIn | frontend/src/store/templateStore.ts:130-141 | each template with the id gains one task at the end, with `order` = its task count; other templates are unchanged |
| TemplateStore.UpdateTaskIn | frontend/src/store/templateStore.ts:145-156 | only tasks with the task id inside templates with the template id are patched |
| TemplateStore.RemoveTask | frontend/src/store/templateStore.ts:164-168 | the tasks without the id, in order, renumbered 0..n−1 |
| TemplateStore.RemoveTaskKeepsOthers | frontend/src/store/templateStore.ts:164-168 | every other task survives the removal, changed only in `order` |
| TemplateStore.RemoveTaskIn | frontend/src/store/templateStore.ts:160-171 | only the matching templates change, and only their task lists |
| TemplateStore.ReorderTasksIn | frontend/src/store/templateStore.ts:175-196 | only the matching templates change, and only their task lists |
| TemplateStore.Store.constructor | frontend/src/store/templateStore.ts:38 | the store starts with no templates |
| TemplateStore.Store.AddTemplate | frontend/src/store/templateStore.ts:76-85 | the new store state is `AddTemplateTo` of the old one |
| TemplateStore.Store.UpdateTemplate | frontend/src/store/templateStore.ts:88-93 | the new store state is `UpdateTemplateIn` of the old one |
| TemplateStore.Store.DeleteTemplate | frontend/src/store/templateStore.ts:97-104 | filter plus the renumbering loop give `DeleteTemplateFrom` of the old list |
| TemplateStore.Store.ReorderTemplates | frontend/src/store/templateStore.ts:109-125 | find, splice and the renumbering loop give `Seqs.Reorder` of the old list by template id; when both ids are found the list is numbered 0..n−1 and the active template sits at the over index |
| TemplateStore.Store.AddTaskToTemplate | frontend/src/store/templateStore.ts:130-141 | the new store state is `AddTaskIn` of the old one |
| TemplateStore.Store.UpdateTaskInTemplate | frontend/src/store/templateStore.ts:145-156 | the new store state is `UpdateTaskIn` of the old one |
| TemplateStore.Store.RemoveTaskFromTemplate | frontend/src/store/templateStore.ts:160-171 | the map with its inner filter and renumbering loop gives `RemoveTaskIn` of the old list |
| TemplateStore.Store.ReorderTasksInTemplate | frontend/src/store/templateStore.ts:175-196 | the map with its inner move and renumbering loop gives `ReorderTasksIn` of the old list |
| TemplateStore.Store.GetActiveTemplates | frontend/src/store/templateStore.ts:211-216 | the store's active view is `ActiveTemplates` of its list |
| CategoryStore.AddCategoryTo | frontend/src/store/categoryStore.ts:70-81 | one new category is appended, not deleted, with `order` = previous length; the rest are untouched |
| CategoryStore.UpdateCategoryIn | frontend/src/store/categoryStore.ts:85-92 | the updates are merged into the categories with the id and no others; an unknown id changes nothing |
| CategoryStore.DeleteCategoryIn | frontend/src/store/categoryStore.ts:94-101 | soft delete: same length, only the matching categories get `isDeleted`, the others are unchanged |
| CategoryStore.DeleteIdempotent | frontend/src/store/categoryStore.ts:94-101 | deleting twice is deleting once |
| CategoryStore.RestoreCategoryIn | frontend/src/store/categoryStore.ts:104-111 | only the matching categories lose `isDeleted` |
| CategoryStore.RestoreUndoesDelete | frontend/src/store/categoryStore.ts:94-111 | restoring a category that was active before its deletion gives back the original list |
| CategoryStore.ActiveCategories | frontend/src/store/categoryStore.ts:134-139 | sorted by `order`, and a permutation of the categories not deleted |
| CategoryStore.ActiveCategoriesMembers | frontend/src/store/categoryStore.ts:134-139 | a category is active exactly when it is in the store and not deleted |
| CategoryStore.DeletedNotActive | frontend/src/store/categoryStore.ts:94-101 | after a delete, no category with that id is in the active view |
| CategoryStore.CategoryById | frontend/src/store/categoryStore.ts:141-144 | the first category with the id, or none exactly when no category has it |
| CategoryStore.CategoryColor | frontend/src/store/categoryStore.ts:146-149 | the first matching category's colour, else `'210 15% 50%'` |
| CategoryStore.Store.constructor | frontend/src/store/categoryStore.ts:32 | the store starts with no categories |
| CategoryStore.Store.AddCategory | frontend/src/store/categoryStore.ts:70-81 | the new store state is `AddCategoryTo` of the old one |
| CategoryStore.Store.UpdateCategory | frontend/src/store/categoryStore.ts:85-92 | the new store state is `UpdateCategoryIn` of the old one |
| CategoryStore.Store.DeleteCategory | frontend/src/store/categoryStore.ts:94-101 | the new store state is `DeleteCategoryIn` of the old one |
| CategoryStore.Store.RestoreCategory | frontend/src/store/categoryStore.ts:104-111 | the new store state is `RestoreCategoryIn` of the old one |
| CategoryStore.Store.ReorderCategories | frontend/src/store/categoryStore.ts:113-130 | find, splice and the renumbering loop give `Seqs.Reorder` of the old list by category id; when both ids are found the list is numbered 0..n−1 and the active category sits at the over index |
| CategoryStore.Store.GetActiveCategories | frontend/src/store/categoryStore.ts:134-139 | the store's active view is `ActiveCategories` of its list |
| CategoryStore.Store.GetCategoryById | frontend/src/store/categoryStore.ts:141-144 | the lookup is `CategoryById` of the store's list |
| CategoryStore.Store.GetCategoryColor | frontend/src/store/categoryStore.ts:146-149 | the colour is `CategoryColor` of the store's list |
| CategoryList.ListsPartition | frontend/src/components/settings/CategoryList.tsx:13-24 | the active and deleted lists together hold every category exactly once; each is sorted by `order`; the active list equals the store's active view |
| CategoryList.NewColor | frontend/src/components/settings/CategoryList.tsx:28-30 | the first palette colour no category uses, or the first palette colour when all are used |
| CategoryList.NewColorIsFresh | frontend/src/components/settings/CategoryList.tsx:28-30 | while the palette has an unused colour, the chosen colour is unused |
| CategoryList.NewIcon | frontend/src/components/settings/CategoryList.tsx:32-34 | the first palette icon no category uses (categories without an icon use none), else the first icon; absent exactly when the icon palette is empty |
| CategoryList.HandleAdd | frontend/src/components/settings/CategoryList.tsx:26-36 | exactly one category, "New Category", is added, with the chosen colour and icon |
| BlockHeader.RemainingOf | frontend/src/components/BlockItem/BlockHeader.tsx:44-47 | the remaining-minute sum is never negative |
| BlockHeader.RemainingMinutes | frontend/src/components/BlockItem/BlockHeader.tsx:42-47 | the remaining minutes of the unfinished previous blocks are never negative |
| BlockHeader.RemainingMatchesReference | frontend/src/components/BlockItem/BlockHeader.tsx:42-47 | filter-then-sum equals summing with completed blocks counted as 0 |
| BlockHeader.PlannedStartBounds | frontend/src/components/BlockItem/BlockHeader.tsx:38-39 | the planned start is within a minute of day start + previous minutes, and equal to it for whole minutes |
| BlockHeader.ComputeStartTimes | frontend/src/components/BlockItem/BlockHeader.tsx:25-58 | no day start gives no times and not behind; otherwise the planned start comes from the previous blocks' minutes; the projected start is now + remaining, never before `now`; running behind exactly when now > planned |
| BlockHeader.LabelOfStartTimes | frontend/src/components/BlockItem/BlockHeader.tsx:97-107 | a label is shown exactly when the day has started: the projected time when running behind, the planned time otherwise, never before `now` |
| BlockHeader.VariantsAgree | frontend/src/components/BlockItem.tsx:47-57 | the estimate-only planned start agrees with the header's rule while no previous block is completed |
| CompletionCountdown.Get | frontend/src/hooks/useCompletionCountdown.ts:66 | the entry with the key, or none exactly when there is none |
| CompletionCountdown.Keys | frontend/src/hooks/useCompletionCountdown.ts:127 | the pending ids are exactly the map's keys, one per entry |
| CompletionCountdown.Set | frontend/src/hooks/useCompletionCountdown.ts:27-34 | the key now maps to the new entry, every other key keeps its entry, the keys stay distinct; a restart keeps the key order, a new key is appended |
| CompletionCountdown.Delete | frontend/src/hooks/useCompletionCountdown.ts:42-46 | the key is no longer present; every other key keeps its entry, and the remaining keys keep their insertion order |
| CompletionCountdown.SecondsRemaining | frontend/src/hooks/useCompletionCountdown.ts:64-73 | 0 for an id that is not pending; never negative; at most 5 once the countdown has begun; 0 exactly when the entry has expired |
| CompletionCountdown.PassStep | frontend/src/hooks/useCompletionCountdown.ts:94-101 | one loop step drops entry `i` from the copy exactly when it has expired |
| CompletionCountdown.ExpirePass | frontend/src/hooks/useCompletionCountdown.ts:90-107 | the tick keeps exactly the entries that have not expired; `hasChanges` holds exactly when one expired; with no change the old map itself is returned |
| CompletionCountdown.TickRemovesZeroes | frontend/src/hooks/useCompletionCountdown.ts:94-101 | an entry survives a tick exactly when it still shows more than 0 seconds |
| CompletionCountdown.FilterDistinct | frontend/src/hooks/useCompletionCountdown.ts:98 | deleting entries keeps the keys distinct |
| CompletionCountdown.Countdown.constructor | frontend/src/hooks/useCompletionCountdown.ts:12-14 | the hook starts with an empty pending map |
| CompletionCountdown.Countdown.StartCountdown | frontend/src/hooks/useCompletionCountdown.ts:21-37 | the map becomes `Set` of the old map with the entry started at `now`; keys stay distinct |
| CompletionCountdown.Countdown.CancelCountdown | frontend/src/hooks/useCompletionCountdown.ts:40-53 | the map becomes `Delete` of the old map; keys stay distinct |
| CompletionCountdown.Countdown.Tick | frontend/src/hooks/useCompletionCountdown.ts:87-107 | the map keeps exactly its unexpired entries; keys stay distinct |
| CompletionCountdown.Countdown.GetSecondsRemaining | frontend/src/hooks/useCompletionCountdown.ts:64-73 | the seconds left for the id in the current map, as `SecondsRemaining` states them |
| CompletionCountdown.Countdown.PendingBlockIds | frontend/src/hooks/useCompletionCountdown.ts:127 | the keys of the current map |
| Decimal.NatToString | frontend/src/lib/time.ts:15 | a whole number renders as at least one digit, with no leading zero except for "0" |
| Decimal.NatRoundTrip | frontend/src/lib/time.ts:15 | reading the rendering back gives the number |
| Decimal.Fixed | backend/src/handlers/put-state.ts:40 | a zero-padded rendering of exactly `w` digits |
| Decimal.FixedOfParse | backend/src/handlers/put-state.ts:40 | every digit string is the fixed-width rendering of its own value |
| TimeFormat.FormatDuration | frontend/src/lib/time.ts:10-23 | under an hour "<m>m", whole hours "<h>h", otherwise "<h>h <m>m", all from `|m|` |
| TimeFormat.DurationRoundTrip | frontend/src/lib/time.ts:10-23 | parsing the formatted duration gives back `|m|` |
| TimeFormat.DurationDistinguishes | frontend/src/lib/time.ts:10-23 | two durations print the same exactly when their absolute values agree |
| TimeFormat.DurationIgnoresSign | frontend/src/lib/time.ts:11-12 | `formatDuration(m) == formatDuration(-m)` |
| TimeFormat.DurationParts | frontend/src/lib/time.ts:11-12 | hours × 60 + minutes = `|m|`, with minutes below 60 |
| TimeFormat.FormatDelta | frontend/src/lib/time.ts:25-28 | '+' for m ≥ 0, '-' otherwise, then the duration of `|m|` |
| TimeFormat.DeltaRoundTrip | frontend/src/lib/time.ts:25-28 | parsing the formatted delta gives back `m`, so different deltas print differently |
| TimeFormat.ZeroDelta | frontend/src/lib/time.ts:26-27 | a zero delta prints as "+0m" |
| PutState.CheckBlocks | backend/src/handlers/put-state.ts:19-23 | the block loop accepts exactly when every block has truthy id, type and label, a numeric estimate and an array of sessions |
| PutState.ValidateState | backend/src/handlers/put-state.ts:7-26 | accepted exactly when the value is a truthy object with `version === 1`, a string date, a null-or-string day start, an array of blocks and every block well formed; an empty block list passes; accepted values are objects |
| PutState.NullBlockMalformed | backend/src/handlers/put-state.ts:20 | a `null` block fails the block checks |
| PutState.CheckBlocksAsWrittenAgrees | backend/src/handlers/put-state.ts:19-23 | the loop as written accepts exactly what the intended one accepts, and throws exactly when the first bad block is `null` |
| PutState.ValidateAsWrittenAgrees | backend/src/handlers/put-state.ts:7-26 | when the written validator returns, its answer is the intended one, and it only throws on values the intended one refuses |
| PutState.NullBlockThrows | backend/src/handlers/put-state.ts:19-20 | a body with blocks `[null]` makes the written validator throw and the intended one refuse |
| PutState.DateMatchesIffKey | backend/src/handlers/put-state.ts:40 | the date pattern accepts exactly the zero-padded YYYY-MM-DD renderings |
| PutState.StoredState | backend/src/handlers/put-state.ts:65-70 | the authenticated user id, the existing truthy `createdAt` or now, and updatedAt = now; every other field as in the body |
| PutState.StoredStateValid | backend/src/handlers/put-state.ts:65-70 | the stored state passes the validator whenever the body did |
| PutState.Handle | backend/src/handlers/put-state.ts:28-79 | preflight answered at once, then 401 without a user, then INVALID_DATE, then INVALID_JSON, then INVALID_STATE, then 500 exactly when storage fails; success carries the stored state, which is valid |
| PutState.HandleAsWrittenAgrees | backend/src/handlers/put-state.ts:55-57 | the handler as written answers as the intended one except that it crashes, exactly on a body whose first bad block is `null`, where the intended one answers INVALID_STATE |
| DynamicIcon.Upper | frontend/src/components/ui/DynamicIcon.tsx:13 | upper-casing neither creates nor removes a '-' |
| DynamicIcon.Split | frontend/src/components/ui/DynamicIcon.tsx:12 | at least one part, and no part contains '-' |
| DynamicIcon.SplitJoin | frontend/src/components/ui/DynamicIcon.tsx:12 | joining the parts with '-' gives back the name |
| DynamicIcon.PascalIsScan | frontend/src/components/ui/DynamicIcon.tsx:11-14 | split-capitalize-join equals the left-to-right scan that drops each '-' and upper-cases the next character |
| DynamicIcon.ScanShape | frontend/src/components/ui/DynamicIcon.tsx:11-14 | the scan has no '-' and is shorter by the number of hyphens |
| DynamicIcon.PascalShape | frontend/src/components/ui/DynamicIcon.tsx:11-14 | the converted name has no '-' and its length is the name's length minus its hyphens |
| DynamicIcon.NoHyphenName | frontend/src/components/ui/DynamicIcon.tsx:11-14 | a name without hyphens only gets its first character upper-cased |
| DynamicIcon.CapitalizeAllConcat | frontend/src/components/ui/DynamicIcon.tsx:13-14 | each part is capitalized on its own |
| DynamicIcon.EmptyPartAddsNothing | frontend/src/components/ui/DynamicIcon.tsx:13-14 | an empty part, as between two adjacent hyphens, contributes nothing |
| ModalTasks.TrimStart | frontend/src/components/modals/EditBlockModal.tsx:66 | a suffix of the input, empty exactly when the input is all whitespace, else starting with non-whitespace |
| ModalTasks.TrimEnd | frontend/src/components/modals/EditBlockModal.tsx:66 | a prefix of the input, empty exactly when the input is all whitespace, else ending with non-whitespace |
| ModalTasks.Trim | frontend/src/components/modals/EditBlockModal.tsx:66 | no whitespace at either end; empty exactly when the input is all whitespace |
| ModalTasks.TrimIdempotent | frontend/src/components/modals/EditBlockModal.tsx:67 | trimming twice is trimming once |
| ModalTasks.AddTask | frontend/src/components/modals/EditBlockModal.tsx:65-69 | a blank input changes nothing; otherwise one task with the trimmed, non-blank name and 15 minutes is appended and the input is cleared |
| ModalTasks.AddTaskKeepsIdsDistinct | frontend/src/components/modals/EditBlockModal.tsx:67 | adding with a fresh id keeps task ids distinct |
| ModalTasks.RemoveTask | frontend/src/components/modals/EditBlockModal.tsx:71-73 | no task with the id remains; a task stays exactly when it was there with another id; an unknown id changes nothing |
| ModalTasks.ChangeTask | frontend/src/components/modals/EditBlockModal.tsx:75-81 | only the matching tasks change, and only in the named field; ids and order are kept |
| ModalTasks.EditsKeepIdsDistinct | frontend/src/components/modals/EditBlockModal.tsx:71-81 | removing and changing keep task ids distinct |
| EditBlockModal.EstimateOrZero | frontend/src/components/modals/EditBlockModal.tsx:38 | a missing estimate becomes 0 and a present one is kept |
| EditBlockModal.LoadTasks | frontend/src/components/modals/EditBlockModal.tsx:34-40 | one draft per task, in order, with its id, name and estimate |
| EditBlockModal.Load | frontend/src/components/modals/EditBlockModal.tsx:28-42 | no block leaves the form unchanged; otherwise every field comes from the block, and the new-task input is kept |
| EditBlockModal.Original | frontend/src/components/modals/EditBlockModal.tsx:53 | the first task of the block with that id, or none exactly when there is none |
| EditBlockModal.MergeTasks | frontend/src/components/modals/EditBlockModal.tsx:52-60 | one task per draft, in order, with its id, name and estimate and `order` = index; `completed` comes from the block's task with the id and is false for a new one |
| EditBlockModal.Save | frontend/src/components/modals/EditBlockModal.tsx:44-63 | nothing exactly when there is no block; otherwise the block's id with the form's fields and the merged tasks |
| EditBlockModal.LoadThenSave | frontend/src/components/modals/EditBlockModal.tsx:28-63 | opening and saving without edits gives the block back, each task with an estimate (0 if absent) and `order` = position |
| EditBlockModal.SaveKeepsCompleted | frontend/src/components/modals/EditBlockModal.tsx:53-58 | a completed task stays completed after a save, whatever was edited in it |
| AddBlockModal.SavedTasks | frontend/src/components/modals/AddBlockModal.tsx:41-47 | the saved tasks are the drafts in order, not completed, with `order` = index |
| AddBlockModal.NewBlockFrom | frontend/src/components/modals/AddBlockModal.tsx:37-50 | the trimmed, non-blank label, the form's category and estimate, the saved tasks, empty notes and `useTaskEstimates` false |
| AddBlockModal.AddBlockForm.constructor | frontend/src/components/modals/AddBlockModal.tsx:28-32 | the form starts as label "", category work, estimate 60, no tasks, empty new-task input |
| AddBlockModal.AddBlockForm.HandleSave | frontend/src/components/modals/AddBlockModal.tsx:34-59 | a blank label returns nothing and changes nothing; otherwise it returns the new block and resets the form |
| AddBlockModal.AddBlockForm.Reset | frontend/src/components/modals/AddBlockModal.tsx:53-57 | the five fields are reset to their starting values |
| AddBlockModal.AddBlockForm.HandleClose | frontend/src/components/modals/AddBlockModal.tsx:79-87 | closing resets the form |
| AddBlockModal.AddBlockForm.HandleAddTask | frontend/src/components/modals/AddBlockModal.tsx:61-65 | the task list and input become `AddTask` of the old ones; the other fields are kept |
| AddBlockModal.AddBlockForm.HandleRemoveTask | frontend/src/components/modals/AddBlockModal.tsx:67-69 | the task list becomes `RemoveTask` of the old one; the other fields are kept |
| AddBlockModal.AddBlockForm.HandleTaskChange | frontend/src/components/modals/AddBlockModal.tsx:71-77 | the task list becomes `ChangeTask` of the old one; the other fields are kept |

## Left out

- Date parsing and formatting (`formatTime`, `getTimeInputValue`, `setTimeFromInput`, `formatDateKey`, `getTodayKey`, `toISOString`): these depend on the runtime's `Date` and the local time zone. Times are integer milliseconds, and ISO strings are parameters.
- `PutState.StoredState`: the two `new Date().toISOString()` calls of lines 68-69 are one parameter `nowIso`, so `createdAt` and `updatedAt` of a new state are taken to be equal.
- `BlockHeader.PlannedStartBounds`: `setMinutes` works on the local minute-of-hour, which is a parameter. Daylight-saving shifts are not modelled.
- `generateId` (clock plus `Math.random`) is a parameter. The model passes one id to `addTaskToTemplate` for all matching templates, which is the same as the source when template ids are distinct.
- The clock reads of `Date.now()` are parameters, one `now` per call. In the source, `calculateDayMetrics` may read the clock at slightly different moments for different sessions and for the forecast.
- Persistence and network: `loadTemplates`, `saveTemplates`, `loadCategories`, `saveCategories`, the data API and the object store. The handler's `getObject`/`putObject` outcome is the parameter `storageOk`, and the existing state is a parameter.
- `JSON.parse` is a parameter function from text to a JSON value or failure. JSON text syntax is not modelled.
- The authentication context is an optional user id. Response headers and message texts are not modelled, only status and code.
- The countdown hook's store calls (`completeBlock`, `uncompleteBlock`), its `setInterval` and clean-up, and the forced re-render are left out. Only the map logic is modelled.
- `sumTasksToEstimate` depends on `calculateBlockEstimateFromTasks`, which is not part of this model.
- `TemplateStore.Store.DeleteTemplate`: the source's `forEach` writes `order` into the template objects it shares with the old state. The model works on values, so the old list is not changed.
- `TemplateStore.Store.ReorderTemplates`: the same shared-object writes as in `DeleteTemplate` are modelled on values. The same holds for `TemplateStore.Store.RemoveTaskFromTemplate` and `TemplateStore.Store.ReorderTasksInTemplate`, whose `forEach` writes `order` into task objects shared with the old template, and for `CategoryStore.Store.ReorderCategories`.
- `TemplateStore.UpdateTemplateIn`: a patch is a record of optional fields, each present field replacing the old one. A field explicitly set to `undefined` in a `Partial` is not modelled. The same holds for `UpdateTaskIn` and `CategoryStore.UpdateCategoryIn`.
- `CategoryList.NewColor`: the colour palette `CATEGORY_COLORS` is a parameter required to be non-empty, as the shipped constant palette is: with an empty colour palette `CATEGORY_COLORS[0].value` throws a TypeError. An empty icon palette is modelled: `NewIcon` then gives an absent icon.
- Open sessions: a session is open when `endedAt` is absent (`None`), in both places that ask. The source tests `!session.endedAt` for the minutes (shared/src/index.ts:157) but `s.endedAt === null` for the current block (shared/src/index.ts:200); a session with `endedAt: ""` would count as running for the minutes without making its block current. The model has no empty-string end time.
- `DynamicIcon.Upper`: `toUpperCase` is modelled on ASCII letters only. The lookup in the icon table and the fallback icon are not modelled.
- `TimeFormat.FormatDuration`: minutes are integers, so `Math.round` of the remainder is the remainder. Fractional input, which can round to "60m", is not modelled.
- `EditBlockModal.EstimateOrZero`: estimates are reals, so NaN, which `|| 0` would also turn into 0, does not arise.
- The pending test `isPending` is the predicate `IsPending` on the countdown class (`map.has`). It has no contract of its own.
- Rendering, drag gestures, timers, live displays and the setters of individual form fields are left out.

## Findings

| source | as written | input that shows it | evidently intended | confidence | as-written member | corrected member |
|---|---|---|---|---|---|---|
| backend/src/handlers/put-state.ts:19-20 | the block loop reads `block.id` without checking that the block is an object; for a `null` element this throws a TypeError, and since `validateState` is called outside any `try` the handler fails instead of answering | body `{"version":1,"date":"2024-01-01","dayStartAt":null,"blocks":[null]}` with a valid user and date | a `null` block is malformed like any other, and the request is refused with 400 INVALID_STATE | not executed | PutState.HandleAsWritten (with PutState.ValidateStateAsWritten and the lemma PutState.NullBlockThrows) | PutState.Handle (with PutState.ValidateState and the lemma PutState.HandleAsWrittenAgrees) |
