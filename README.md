# Fairlx core, modelled in Dafny

Fairlx is a project-management web application with workspaces, projects, tasks on
Kanban boards and a timeline, comments with @-mentions, notifications and organisations.
This project models the part of its client and server code that makes decisions:
- the two Kanban boards: bucketing tasks into columns, the drag-and-drop splice, the
  "only what changed" position payload, and selection with bulk updates;
- mention extraction and parsing in comments, and the mention input box;
- the notification fan-out and its texts, and the optimistic "mark as read" cache update
  with its rollback;
- the timeline's range, columns and task placement;
- the personal dashboard's calendar, counts, alerts, sprint and project cards;
- moving tasks out of a disabled column;
- the socket-push endpoint of the custom server, and the environment checks;
- registration error handling;
- the URL-backed modals;
- avatars and initials, the member profile dialog and the members' bulk-action
  toolbar;
- the sign-in carousel and the navigation bar heading.

Modules follow the source files. Most modules hold the code of one file. `Modals`
covers the two modal-state hooks and the create-task dialog. `Initials` covers the
initials computation that the member and project avatars share. `Kanban` holds what
both board files share. `Common` and `Sorting` are helpers that no single file holds.
State that React keeps (`useState`, query caches,
URL parameters) is a class whose methods are the handlers. A handler's `ensures` gives
the new state in terms of a specification function, and lemmas prove what the source
promises about that function. Network calls, toasts, routing and storage become
returned values or recorded effects. Dates are integer day or millisecond numbers.
Percentages are exact rationals. Strings are sequences of characters.

Modules: `Common` (options, characters, splitting, trimming, sets as duplicate-free
sequences, decimal numerals), `Sorting`, `Kanban` (what both boards share),
`DataKanban`, `EnhancedKanban`, `Mentions`, `MentionParts`, `MentionInput`,
`Initials`, `Notifications`, `MarkRead`, `Timeline`, `Dashboard`, `MoveTasks`,
`SocketPush`, `EnvCheck`, `Register`, `Modals`, `Avatar`, `MemberProfile`,
`BulkToolbar`, `Carousel`, `Navbar`.

## Model

| member | source | states |
|---|---|---|
| Sorting.Insert | src/features/tasks/components/data-kanban.tsx:86-88 | inserting into a sorted list keeps it sorted, adds exactly the one element, and lengthens it by one |
| Sorting.SortBy | src/features/tasks/components/data-kanban.tsx:86-88 | `sort((a, b) => a.position - b.position)`: the result is ascending by the key and a permutation of the input |
| Sorting.SortByMembers | src/features/tasks/components/data-kanban.tsx:86-88 | sorting neither adds nor drops any element |
| Kanban.CappedPosition | src/features/tasks/components/data-kanban.tsx:209 | `min((index+1)*1000, 1_000_000)` lies in (0, 1_000_000], is a multiple of 1000, is `(index+1)*1000` below index 1000 and the cap from index 999 on |
| Kanban.CappedPositionMonotone | src/features/tasks/components/data-kanban.tsx:215 | the computed position never decreases as the index grows |
| Kanban.CappedPositionInjectiveBelowCap | src/features/tasks/components/data-kanban.tsx:230 | below index 1000 distinct indices get strictly increasing positions |
| Kanban.RemoveAt | src/features/tasks/components/data-kanban.tsx:179-180 | `splice(i, 1)` removes exactly the element at `i` (one fewer, same multiset minus it) and leaves the list alone when `i` is past the end |
| Kanban.InsertAt | src/features/tasks/components/data-kanban.tsx:198-199 | `splice(i, 0, x)` puts `x` at `min(i, length)`, keeps the prefix and shifts the suffix, adding `x` to the multiset |
| Kanban.ApplyDrag | src/features/tasks/components/data-kanban.tsx:175-243 | the drag's state update: when a task is at the source index, the new columns are the splice result and the payload is the moved-first, diff-only payload; otherwise nothing changes and nothing is sent |
| Kanban.PushRenumbered | src/features/tasks/components/data-kanban.tsx:213-224 | the `forEach` appends to the payload exactly the renumbering entries of the column |
| Kanban.RenumberMembers | src/features/tasks/components/data-kanban.tsx:213-239 | an update is in a column's renumbering exactly when some task there (other than the moved one) has a stored position different from its new capped position, with that id, column and position |
| Kanban.Dragged | src/features/tasks/components/data-kanban.tsx:179-200 | a drag keeps the set of columns and leaves every column other than the source and the destination as it was |
| Kanban.DragPayload | src/features/tasks/components/data-kanban.tsx:203-240 | the payload is never empty and opens with the moved task, its destination column and the capped position of its destination index |
| Kanban.DragPreservesTasks | src/features/tasks/components/data-kanban.tsx:179-200 | a drag changes only the source and destination columns; within a column it is a permutation; across columns the source loses the task and the destination gains it with the new status |
| Kanban.DragPlacesMovedTask | src/features/tasks/components/data-kanban.tsx:189-200 | the moved task lands at the destination index (or at the end when the index is past it), with the destination status when the column changed |
| Kanban.DragPayloadShape | src/features/tasks/components/data-kanban.tsx:203-240 | the payload starts with the moved task at `min((index+1)*1000, 1_000_000)`; every other entry is exactly a destination task, or a source task when the columns differ, whose stored position differs from its new one |
| Kanban.DragPayloadPositionsInRange | src/features/tasks/components/data-kanban.tsx:209-230 | every position sent lies in (0, 1_000_000] |
| Kanban.RenumberIds | src/features/tasks/components/data-kanban.tsx:213-224 | with distinct ids in a column, its renumbering names distinct tasks of that column and never the moved task |
| Kanban.RemoveAtIds | src/features/tasks/components/data-kanban.tsx:179-180 | removing a task keeps ids distinct and removes the moved id |
| Kanban.InsertAtIds | src/features/tasks/components/data-kanban.tsx:198-199 | inserting a task with a fresh id keeps ids distinct |
| Kanban.InsertAtIndex | src/features/tasks/components/data-kanban.tsx:198-199 | element-wise description of `splice(i, 0, x)` |
| Kanban.DistinctUpdateConcat | src/features/tasks/components/data-kanban.tsx:203-240 | concatenating payload parts over disjoint ids keeps ids distinct |
| Kanban.DragPayloadIds | src/features/tasks/components/data-kanban.tsx:203-240 | with distinct task ids, the payload names only tasks of the two columns involved, and no id twice |
| Kanban.SameColumnPayloadIds | src/features/tasks/components/data-kanban.tsx:213-224 | a drag within one column sends only that column's tasks, each once |
| Kanban.CrossColumnPayloadIds | src/features/tasks/components/data-kanban.tsx:213-240 | a drag across columns sends only tasks of those two columns, each once |
| Kanban.SortColumns | src/features/tasks/components/data-kanban.tsx:86-88 | the loop over the columns leaves every column sorted by position, with the same keys |
| Kanban.AddTaskIds | src/features/tasks/components/data-kanban.tsx:110-111 | adding a column's ids to the selection keeps the earlier selection first, holds exactly the old ids and the column's ids, and keeps it duplicate-free |
| Kanban.RemoveTaskIds | src/features/tasks/components/data-kanban.tsx:112-113 | removing a column's ids keeps exactly the selected ids not in the column, duplicate-free |
| Kanban.StatusUpdates | src/features/tasks/components/data-kanban.tsx:134-137 | one `{ $id, status }` per selected id, in order |
| Kanban.AssigneeUpdates | src/features/tasks/components/data-kanban.tsx:149-152 | one `{ $id, assigneeId }` per selected id, in order |
| Kanban.BulkUpdatesDistinct | src/features/tasks/components/data-kanban.tsx:131-159 | a bulk update names each selected id exactly once |
| Kanban.Selection.TaskSelect | src/features/tasks/components/data-kanban.tsx:93-103 | selecting adds the id to the set, deselecting removes it |
| Kanban.Selection.SelectAll | src/features/tasks/components/data-kanban.tsx:105-118 | select-all adds or removes exactly the column's ids, leaving other selected ids untouched |
| Kanban.Selection.ClearSelection | src/features/tasks/components/data-kanban.tsx:120-122 | the selection becomes empty |
| Kanban.Selection.ToggleSelectionMode | src/features/tasks/components/data-kanban.tsx:124-129 | the mode flips, and leaving selection mode clears the selection |
| Kanban.Selection.BulkStatusChange | src/features/tasks/components/data-kanban.tsx:131-144 | an empty selection sends nothing and changes nothing; otherwise one status update per selected id is sent and the selection is cleared |
| Kanban.Selection.BulkAssigneeChange | src/features/tasks/components/data-kanban.tsx:146-159 | as for status, with assignee updates |
| DataKanban.BoardsDistinct | src/features/tasks/components/data-kanban.tsx:18-24 | the five boards are distinct |
| DataKanban.WithStatusContents | src/features/tasks/components/data-kanban.tsx:82-84 | the tasks pushed into a column are exactly the input tasks with that status, as often as they occur |
| DataKanban.WithStatusStep | src/features/tasks/components/data-kanban.tsx:82-84 | one more input task extends only the column of its status |
| DataKanban.BucketedPlacement | src/features/tasks/components/data-kanban.tsx:73-91 | after bucketing there are the five columns, each sorted by position, and a task sits in a column exactly when its status names it, as often as in the input |
| DataKanban.ColumnPlacement | src/features/tasks/components/data-kanban.tsx:82-88 | per column and task: membership and multiplicity follow the status |
| DataKanban.BucketTasks | src/features/tasks/components/data-kanban.tsx:73-91 | the effect's loops throw exactly when some task's status is on none of the five boards, and otherwise produce the bucketed, sorted columns |
| DataKanban.PushByStatus | src/features/tasks/components/data-kanban.tsx:74-84 | the push loop throws (`push` on `undefined`) exactly when some task's status is not a board, and otherwise fills each of the five columns with its tasks in input order |
| DataKanban.Board.constructor | src/features/tasks/components/data-kanban.tsx:45-68 | the initial state is the bucketed data with an empty selection, selection mode off; a task on no board crashes the board |
| DataKanban.Board.Sync | src/features/tasks/components/data-kanban.tsx:73-91 | new data replaces the columns by its bucketing and keeps the selection; a task on no board crashes the board and leaves the columns as they were |
| DataKanban.Board.SelectAll | src/features/tasks/components/data-kanban.tsx:105-118 | select-all over the board's own column for that status |
| DataKanban.Board.OnDragEnd | src/features/tasks/components/data-kanban.tsx:161-248 | no drop changes the crashed flag; a drop outside any list changes nothing and calls nothing; otherwise the columns become the splice result and `onChange` receives the payload (empty when no task was at the source index) |
| EnhancedKanban.Merged | src/features/custom-columns/components/enhanced-data-kanban.tsx:88-101 | the enabled defaults (unset position read as 0) and then the custom columns, each once, in order |
| EnhancedKanban.AllColumnsContents | src/features/custom-columns/components/enhanced-data-kanban.tsx:87-105 | `allColumns` is sorted by position and holds each default and each custom column as often as given, and nothing else |
| EnhancedKanban.ColumnKeys | src/features/custom-columns/components/enhanced-data-kanban.tsx:125-127 | the columns' ids once each, with the first column's id first |
| EnhancedKanban.Target | src/features/custom-columns/components/enhanced-data-kanban.tsx:141-153 | a task goes to its status column if there is one, else to TODO if that is a column, else to the first column, and nowhere when there are none |
| EnhancedKanban.RoutedCount | src/features/custom-columns/components/enhanced-data-kanban.tsx:137-155 | a column receives each task routed to it, as often as it occurs, and no other |
| EnhancedKanban.RoutedStep | src/features/custom-columns/components/enhanced-data-kanban.tsx:137-155 | one more task extends only the column it is routed to |
| EnhancedKanban.BucketedByPlacement | src/features/custom-columns/components/enhanced-data-kanban.tsx:121-164 | where each task ends up under the fallback rules, every column sorted, nothing at all without columns, and a task found in a column was routed there |
| EnhancedKanban.BucketTasks | src/features/custom-columns/components/enhanced-data-kanban.tsx:121-164 | the effect produces the column keys and the bucketed, sorted columns |
| EnhancedKanban.BucketedByExt | src/features/custom-columns/components/enhanced-data-kanban.tsx:159-161 | pushing then sorting every column gives the bucketing |
| EnhancedKanban.EmptyColumns | src/features/custom-columns/components/enhanced-data-kanban.tsx:122-127 | one empty column per enabled column id |
| EnhancedKanban.PushTasks | src/features/custom-columns/components/enhanced-data-kanban.tsx:136-156 | the push loop fills each column with exactly the tasks routed to it, in input order |
| EnhancedKanban.ReorderColumns | src/features/custom-columns/components/enhanced-data-kanban.tsx:251-253 | moving a column is a permutation of the columns: none is added, dropped or repeated |
| EnhancedKanban.ReorderColumnsSpec | src/features/custom-columns/components/enhanced-data-kanban.tsx:251-253 | the moved column lands at the destination index (the end when the index is past it) and the other columns keep their old order |
| EnhancedKanban.ColumnOrderUpdates | src/features/custom-columns/components/enhanced-data-kanban.tsx:259-263 | one entry per column with its id and type, at position `(i+1)*1000` |
| EnhancedKanban.ColumnOrderPositions | src/features/custom-columns/components/enhanced-data-kanban.tsx:259-263 | column positions strictly increase and, unlike task positions, are not capped |
| EnhancedKanban.Board.constructor | src/features/custom-columns/components/enhanced-data-kanban.tsx:107-111 | no columns, no tasks, empty selection |
| EnhancedKanban.Board.SetColumns | src/features/custom-columns/components/enhanced-data-kanban.tsx:116-118 | the ordered columns become `allColumns` |
| EnhancedKanban.Board.Sync | src/features/custom-columns/components/enhanced-data-kanban.tsx:121-164 | the tasks become the bucketing of the data over the current columns |
| EnhancedKanban.Board.SelectAll | src/features/custom-columns/components/enhanced-data-kanban.tsx:178-191 | adds or removes exactly that column's task ids |
| EnhancedKanban.Board.OnColumnDragEnd | src/features/custom-columns/components/enhanced-data-kanban.tsx:245-276 | an unmoved column changes nothing; otherwise the columns are reordered and their positions are sent only when a project id is set |
| EnhancedKanban.Board.OnTaskDragEnd | src/features/custom-columns/components/enhanced-data-kanban.tsx:279-352 | the shared drag rules; `onChange` is called exactly when a task was found at the source index, since the payload is then non-empty |
| EnhancedKanban.Board.OnDragEnd | src/features/custom-columns/components/enhanced-data-kanban.tsx:238-355 | a drop outside changes nothing; a column drag leaves the tasks, reorders the columns unless the indices are equal, and sends the new order only with a project id; a task drag leaves the columns, becomes the splice result when a task sits at the source index, calling `onChange` with its payload, and otherwise changes nothing |
| Mentions.RunEnd | src/features/comments/utils/mention-utils.ts:61 | the longest run of a character class from a position: every character inside belongs to the class, the next one does not |
| Mentions.BracketedAt | src/features/comments/utils/mention-utils.ts:14 | a bracketed match found at a position is a valid `@name[id]` there: non-empty name of the class, `[`, non-empty alphanumeric id, `]` |
| Mentions.BracketedFrom | src/features/comments/utils/mention-utils.ts:17-22 | the global regex's matches are valid and do not overlap, each starting after the previous one ends |
| Mentions.BracketedFromNoAt | src/features/comments/utils/mention-utils.ts:14-22 | without an `@` there is no bracketed match |
| Mentions.LazyNameEnd | src/features/comments/utils/mention-utils.ts:25 | the lazy `[\w\s]+?` run ends at the first position where the lookahead (end, whitespace or `@`) holds |
| Mentions.LooseHitsFrom | src/features/comments/utils/mention-utils.ts:25-26 | every plain match starts at an `@` and lies within the content |
| Mentions.GreedyHitsFrom | src/features/comments/utils/mention-utils.ts:61 | the `@[\w.-]+` matches start at `@`, have a non-empty name run, and do not overlap |
| Mentions.GreedyHitsFromNoAt | src/features/comments/utils/mention-utils.ts:61 | without an `@` there is no plain match |
| Mentions.FindByName | src/features/comments/utils/mention-utils.ts:29-33 | `members.find` by case-insensitive name or email: nothing iff no member matches, else the first one that does |
| Mentions.FindById | src/features/comments/utils/mention-utils.ts:114 | `members.find` by user id: nothing iff no member has it, else the first that does |
| Mentions.IdsOf | src/features/comments/utils/mention-utils.ts:18 | one captured id per match, in order |
| Mentions.MentionedIds | src/features/comments/utils/mention-utils.ts:7-41 | an id is returned exactly when it is a bracketed id of the content or the id that some plain mention resolves to |
| Mentions.ExtractMentions | src/features/comments/utils/mention-utils.ts:7-41 | the two scanning loops compute `MentionedIds` |
| Mentions.AddAllCons | src/features/comments/utils/mention-utils.ts:19-20 | pushing ids one by one, each only when not yet present |
| Mentions.BracketIdsStep | src/features/comments/utils/mention-utils.ts:17-22 | one step of the first loop: a match contributes its non-empty id and resumes after it, otherwise the scan moves on by one |
| Mentions.PlainIdsStep | src/features/comments/utils/mention-utils.ts:26-38 | one step of the second loop: a non-empty trimmed name that some member answers to contributes that member's id |
| Mentions.CollectBracketIds | src/features/comments/utils/mention-utils.ts:17-22 | the first loop collects the bracketed ids without duplicates |
| Mentions.CollectPlainIds | src/features/comments/utils/mention-utils.ts:26-38 | the second loop adds the resolved ids of plain mentions |
| Mentions.MentionedIdsShape | src/features/comments/utils/mention-utils.ts:14-38 | the result has no duplicate ids, contains every bracketed id, and lists all bracketed ids before any id resolved from a plain mention |
| Mentions.MentionedIdsSources | src/features/comments/utils/mention-utils.ts:17-38 | every returned id is a non-empty alphanumeric id written in brackets in the content, or the id of a member some plain mention names |
| Mentions.BracketIdSource | src/features/comments/utils/mention-utils.ts:14-20 | every bracketed id comes from a match in the content and is non-empty and alphanumeric |
| Mentions.IdOfAlnum | src/features/comments/utils/mention-utils.ts:14 | a valid match's id is non-empty and alphanumeric |
| Mentions.ResolvedIdsSources | src/features/comments/utils/mention-utils.ts:27-36 | every id from a plain mention belongs to a member whose name or email equals the trimmed mention text |
| Mentions.LoneBracketedMention | src/features/comments/utils/mention-utils.ts:14-22 | `@name[id]` on its own yields exactly `[id]` |
| MentionParts.KeptStep | src/features/comments/utils/mention-utils.ts:83-95 | one step of the second pass: a plain match is pushed exactly when its start lies in no first-pass match |
| MentionParts.OverlapsAfter | src/features/comments/utils/mention-utils.ts:84-86 | entries pushed by the second pass never make a later start overlap |
| MentionParts.CollectMentions | src/features/comments/utils/mention-utils.ts:72-95 | the two passes build the unsorted `mentions` array |
| MentionParts.FirstPass | src/features/comments/utils/mention-utils.ts:73-80 | the first loop pushes one entry per `@name[id]` match, in order |
| MentionParts.SecondPass | src/features/comments/utils/mention-utils.ts:83-95 | the second loop appends the non-overlapping plain matches |
| MentionParts.WithIdSpanAt | src/features/comments/utils/mention-utils.ts:74-79 | a first-pass entry covers an `@`-headed span of the content |
| MentionParts.WithIdShape | src/features/comments/utils/mention-utils.ts:73-80 | first-pass entries carry an id and each ends before the next starts |
| MentionParts.KeptSource | src/features/comments/utils/mention-utils.ts:83-95 | every second-pass entry is a plain match, without an id, whose start lies in no first-pass entry |
| MentionParts.KeptOrdered | src/features/comments/utils/mention-utils.ts:83-95 | second-pass entries are in order and do not overlap |
| MentionParts.KeptMembers | src/features/comments/utils/mention-utils.ts:84-94 | a plain match is kept exactly when it does not start inside a first-pass entry |
| MentionParts.AtSpansDisjoint | src/features/comments/utils/mention-utils.ts:60-61 | two mention spans with different starts are disjoint, because a name never contains an `@` |
| MentionParts.ConcatDistinctStarts | src/features/comments/utils/mention-utils.ts:84-94 | the two passes together never push two entries with the same start |
| MentionParts.CollectedShape | src/features/comments/utils/mention-utils.ts:72-95 | all entries are `@`-headed spans with pairwise distinct starts |
| MentionParts.SortedSpansOrdered | src/features/comments/utils/mention-utils.ts:98 | after sorting by start, each mention ends by the start of the next: the spans are pairwise disjoint and in increasing order |
| MentionParts.SortedOrigin | src/features/comments/utils/mention-utils.ts:98 | every sorted entry is one of the collected entries |
| MentionParts.LayoutCovers | src/features/comments/utils/mention-utils.ts:100-139 | the gaps and the mention spans, concatenated in order, give back the content |
| MentionParts.LayoutEntries | src/features/comments/utils/mention-utils.ts:102-131 | the mention pieces of the layout are exactly the sorted entries, in order |
| MentionParts.LayoutNoEmptyGap | src/features/comments/utils/mention-utils.ts:102-139 | a text piece is emitted only for a non-empty gap |
| MentionParts.MentionPart | src/features/comments/utils/mention-utils.ts:111-128 | every entry becomes a mention part, and an entry that carries a non-empty id keeps that id |
| MentionParts.MentionPartResolution | src/features/comments/utils/mention-utils.ts:111-128 | resolution by id first, then by case-insensitive name or email; an id kept as given; the shown name is the member's non-empty name or else the raw mention text |
| MentionParts.PartsOf | src/features/comments/utils/mention-utils.ts:102-139 | one part per piece of the layout, in order |
| MentionParts.PartsOfAppend | src/features/comments/utils/mention-utils.ts:102-139 | parts of a concatenation are the concatenation of the parts |
| MentionParts.ParseContent | src/features/comments/utils/mention-utils.ts:141-146 | the result is never empty |
| MentionParts.ParseContentWithMentions | src/features/comments/utils/mention-utils.ts:51-147 | the method (two passes, sort, building loop) computes `ParseContent` |
| MentionParts.BuildParts | src/features/comments/utils/mention-utils.ts:100-139 | the building loop emits the parts of the layout |
| MentionParts.ResolveMention | src/features/comments/utils/mention-utils.ts:111-128 | the lookup statements compute the resolved mention part |
| MentionParts.MentionsOfParts | src/features/comments/utils/mention-utils.ts:124-128 | the mention parts are the resolved entries, in order |
| MentionParts.ParseCoversContent | src/features/comments/utils/mention-utils.ts:100-146 | empty content gives the single text part `""`; otherwise the parts come from pieces that reconstruct the content, whose mentions are the sorted entries and whose gaps are non-empty |
| MentionParts.ParseMentions | src/features/comments/utils/mention-utils.ts:97-131 | the result's mentions are the sorted entries, resolved, in increasing start order |
| MentionParts.ParseNoEmptyText | src/features/comments/utils/mention-utils.ts:102-144 | no text part is empty unless the content itself is |
| MentionParts.NoAtIsText | src/features/comments/utils/mention-utils.ts:134-144 | content without an `@` is one text part |
| MentionParts.PlainMentionKept | src/features/comments/utils/mention-utils.ts:83-94 | a plain match is kept exactly when its start is inside no `@name[id]` match |
| MentionInput.ParseForDisplay | src/features/comments/components/mention-input.tsx:31-50 | the display parser's loop computes `DisplayParts` |
| MentionInput.DisplayStep | src/features/comments/components/mention-input.tsx:37-43 | one step of the loop: a match emits the text before it (when non-empty) and the mention, and resumes after it |
| MentionInput.SerializeAppend | src/features/comments/components/mention-input.tsx:38-47 | serialising parts distributes over concatenation |
| MentionInput.MatchText | src/features/comments/components/mention-input.tsx:41 | a mention part re-serialised as `@content[userId]` is exactly the text it was matched from |
| MentionInput.DisplayFromText | src/features/comments/components/mention-input.tsx:37-47 | from any position, the parts serialise back to the rest of the content |
| MentionInput.DisplayRoundTrip | src/features/comments/components/mention-input.tsx:31-50 | text parts concatenated with the mentions re-serialised reproduce the input |
| MentionInput.NoEmptyTextAppend | src/features/comments/components/mention-input.tsx:38-47 | concatenating lists without empty text parts keeps that property |
| MentionInput.DisplayFromNoEmptyText | src/features/comments/components/mention-input.tsx:38-47 | from any position no empty text part is emitted |
| MentionInput.DisplayNoEmptyText | src/features/comments/components/mention-input.tsx:38-47 | the display parser never emits an empty text part |
| MentionInput.TokenLayout | src/features/comments/components/mention-input.tsx:130 | where the name, the brackets and the id sit in a `@name[id]` token |
| MentionInput.TokenReadsBack | src/features/comments/components/mention-input.tsx:31-50 | a token written by the editor parses back as exactly that one mention |
| MentionInput.MentionTrigger | src/features/comments/components/mention-input.tsx:213-227 | no `@` before the cursor keeps the dropdown shut; an open dropdown starts at an `@` before the cursor and its query is the text from there to the cursor |
| MentionInput.TriggerOpens | src/features/comments/components/mention-input.tsx:213-227 | the dropdown opens with a given query and start exactly when that `@` is the last one before the cursor, is first or follows a space or newline, and the query after it has no space, newline or `[` |
| MentionInput.TriggerShut | src/features/comments/components/mention-input.tsx:219-235 | there is no trigger exactly when no `@` before the cursor opens the dropdown |
| MentionInput.KeepMatching | src/features/comments/components/mention-input.tsx:72-78 | the filter keeps exactly the members whose name or email contains the query case-insensitively, in order |
| MentionInput.FilterMembers | src/features/comments/components/mention-input.tsx:72-78 | an empty query keeps everyone; otherwise exactly the matching members are kept |
| MentionInput.KeepMatchingAll | src/features/comments/components/mention-input.tsx:72-78 | when every member matches, the filter returns the list unchanged |
| MentionInput.EmptyQueryShortcut | src/features/comments/components/mention-input.tsx:73 | the empty-query shortcut agrees with the filter, since every name contains the empty string |
| MentionInput.NextIndex | src/features/comments/components/mention-input.tsx:242-244 | ArrowDown keeps the index within the list |
| MentionInput.PrevIndex | src/features/comments/components/mention-input.tsx:249-251 | ArrowUp keeps the index within the list |
| MentionInput.IndexStepsAreModular | src/features/comments/components/mention-input.tsx:240-252 | ArrowDown is +1 and ArrowUp is -1 modulo the number of filtered members, wrapping at both ends |
| MentionInput.IndexStepsInverse | src/features/comments/components/mention-input.tsx:240-252 | ArrowUp undoes ArrowDown and the other way round |
| MentionInput.AdvanceWithin | src/features/comments/components/mention-input.tsx:242-244 | ArrowDown presses that stay inside the list add one each |
| MentionInput.AdvanceSplit | src/features/comments/components/mention-input.tsx:242-244 | presses compose |
| MentionInput.FullCycle | src/features/comments/components/mention-input.tsx:242-244 | as many ArrowDown presses as there are filtered members, not just the ten shown, return to the start |
| MentionInput.DisplayName | src/features/comments/components/mention-input.tsx:149 | the inserted name is the name, else the email, else "User", and never empty |
| MentionInput.Replacement | src/features/comments/components/mention-input.tsx:151-179 | the caret's text node is replaced exactly when it is a non-empty attached text node with an `@` before the caret, and the replacement ends with the added space |
| MentionInput.InsertionReplacesQuery | src/features/comments/components/mention-input.tsx:151-179 | inserting a member replaces exactly the `@query` the dropdown was opened for with the mention token, keeps the text around it, and adds a space after it |
| MentionInput.MemberInitials | src/features/comments/components/mention-input.tsx:279-289 | at most two upper-case letters: the name's word initials, else the first email character upper-cased, else "?" |
| MentionInput.MentionBox.constructor | src/features/comments/components/mention-input.tsx:62-65 | closed, empty query, start -1, index 0 |
| MentionInput.MentionBox.SyncSelection | src/features/comments/components/mention-input.tsx:84-86 | the index is reset to 0 when the number of filtered members changed, and kept otherwise |
| MentionInput.MentionBox.HandleInput | src/features/comments/components/mention-input.tsx:202-236 | without a selection nothing changes; with a trigger the dropdown opens at its query and start; otherwise it closes with an empty query and start -1 |
| MentionInput.MentionBox.InsertMention | src/features/comments/components/mention-input.tsx:141-200 | with a selection the caret's text is replaced and the dropdown closes with query and start reset; without one nothing happens |
| MentionInput.MentionBox.ClickOutside | src/features/comments/components/mention-input.tsx:96-110 | a click outside closes the dropdown and changes nothing else |
| MentionInput.MentionBox.HandleKeyDown | src/features/comments/components/mention-input.tsx:238-271 | with an open, non-empty list the arrows cycle the index, Enter or Tab insert the selected member and never submit, Escape closes; otherwise Enter without Shift submits exactly when the dropdown is closed, and an open list with no matches neither swallows nor submits anything |
| Initials.NonEmpty | src/features/tasks/components/member-avatar.tsx:12-13 | the words that contribute a character: each one non-empty and a word of the input |
| Initials.HeadsAreFirstLetters | src/features/tasks/components/member-avatar.tsx:12-14 | mapping `charAt(0)` over the words and joining gives exactly the first characters of the non-empty words, one each, in order |
| Initials.WordInitials | src/features/tasks/components/member-avatar.tsx:10-17 | the initials are at most two characters long and upper case |
| Initials.WordInitialsLetters | src/features/tasks/components/project-avatar.tsx:10-17 | the initials are the upper-cased first characters of the first two non-empty space-separated words, as many as there are such words up to two |
| Initials.SingleWordInitial | src/features/tasks/components/member-avatar.tsx:10-17 | a one-word name gives its upper-cased first character |
| Initials.EmptyNameInitials | src/features/tasks/components/member-avatar.tsx:10-17 | the empty name gives no initials |
| Notifications.DbType | src/lib/notifications.ts:301-302 | the stored type is always one of the five types the collection accepts |
| Notifications.TypeName | src/lib/notifications.ts:14-22 | every event type name starts with `task_` |
| Notifications.DbTypeCollapse | src/lib/notifications.ts:424-425 | an event keeps its own name exactly when it is an assignment, an update or a completion; every other event is stored as `task_updated` |
| Notifications.AssigneeMessage | src/lib/notifications.ts:264-298 | every assignee message starts with the acting user's name and a space |
| Notifications.AdminMessage | src/lib/notifications.ts:387-421 | every administrator message starts with the acting user's name and a space |
| Notifications.AssigneeTitle | src/lib/notifications.ts:264-298 | every assignee title is a non-empty, capitalised string |
| Notifications.AssigneeTitlesDistinct | src/lib/notifications.ts:264-298 | two events with the same assignee title are the same event |
| Notifications.AdminTitle | src/lib/notifications.ts:387-421 | administrators see the assignee's title for every event other than an assignment |
| Notifications.AdminTitlesDiffer | src/lib/notifications.ts:387-421 | for an assignment administrators read "New Task Created" where the assignee reads "New Task Assigned" |
| Notifications.Recipients | src/lib/notifications.ts:254 | the task's `assigneeIds` when present, even empty; else the single non-empty `assigneeId`; else nobody |
| Notifications.MergeMetadata | src/lib/notifications.ts:322-327 | the merged metadata has the three task keys, every caller key with the caller's value, and no other key |
| Notifications.MetadataDefaults | src/lib/notifications.ts:322-327 | a task key the caller does not supply keeps the task's value |
| Notifications.CreateNotification | src/lib/notifications.ts:176-228 | the stored record is unread, carries the given recipient, type and metadata, grants read, update and delete to the recipient alone, and attempts an email exactly when the task and a non-empty actor name are given |
| Notifications.FanOut | src/lib/notifications.ts:305-335 | the per-recipient loop stores what the fan-out specification says |
| Notifications.UserIdsAppend | src/lib/notifications.ts:305-335 | the recipients of a concatenation of records are the concatenation of their recipients |
| Notifications.FannedCounts | src/lib/notifications.ts:305-335 | the acting user and users whose store call fails get nothing; every other listed user gets one notification per time listed |
| Notifications.FannedIds | src/lib/notifications.ts:305-335 | the stored notifications' recipients are, in order, the listed users that are neither the actor nor failing |
| Notifications.KeptCounts | src/lib/notifications.ts:305-335 | a listed user that is neither the actor nor failing is kept once per listing, any other user never |
| Notifications.FannedContent | src/lib/notifications.ts:305-335 | every stored notification goes to a listed user other than the actor whose call succeeded, with the shared type, title, message and metadata, unread |
| Notifications.NotifyTaskAssignees | src/lib/notifications.ts:234-340 | no recipients means nothing stored; otherwise the assignee title, message, stored type and merged metadata, fanned out over the recipients |
| Notifications.NotifyWorkspaceAdmins | src/lib/notifications.ts:344-467 | no administrators means nothing stored; otherwise the administrator title and message, fanned out over the administrators |
| Notifications.EmailFor | src/lib/notifications.ts:66-155 | an email template is chosen exactly when the recipient has a non-empty email address |
| Notifications.FanOutEmailTemplates | src/lib/notifications.ts:87-155 | because the fan-outs pass the collapsed stored type, their emails use only the assigned, completed or generic update template; status, priority and due-date changes get the generic one |
| MarkRead.Without | src/features/notifications/api/use-mark-notification-read.ts:70 | the filter drops every document with the read notification's id and keeps every other document as often as before |
| MarkRead.WithoutAppend | src/features/notifications/api/use-mark-notification-read.ts:70 | filtering distributes over concatenation, so the kept documents stay in their order |
| MarkRead.WithoutTwice | src/features/notifications/api/use-mark-notification-read.ts:70 | filtering twice is filtering once |
| MarkRead.RemoveNotification | src/features/notifications/api/use-mark-notification-read.ts:68-72 | an empty cache entry stays empty; a present one keeps only the other documents and its total becomes their number |
| MarkRead.RemoveIdempotent | src/features/notifications/api/use-mark-notification-read.ts:68-72 | applying the optimistic update twice is applying it once |
| MarkRead.Decremented | src/features/notifications/api/use-mark-notification-read.ts:76-81 | the workspace's counter goes down by one when present and positive and is untouched otherwise; other workspaces are untouched and no counter becomes negative |
| MarkRead.Snapshot | src/features/notifications/api/use-mark-notification-read.ts:50-56 | the snapshot holds exactly the workspace's cached lists, each with its current value, empty entries included |
| MarkRead.MarkedLists | src/features/notifications/api/use-mark-notification-read.ts:66-73 | every key is kept; lists outside the workspace are untouched; a workspace list loses the notification and an empty entry stays empty |
| MarkRead.Restored | src/features/notifications/api/use-mark-notification-read.ts:87-92 | a snapshot entry that holds data replaces the cached entry; a snapshot entry without data, like a key outside the snapshot, leaves the cached entry as it is |
| MarkRead.MarkedListsFacts | src/features/notifications/api/use-mark-notification-read.ts:66-73 | the update touches no key outside the workspace's lists, keeps the set of keys, and is idempotent |
| MarkRead.RollbackRestoresLists | src/features/notifications/api/use-mark-notification-read.ts:50-56 | writing the snapshot back over the updated lists gives the lists as they were before the update |
| MarkRead.NotificationCache.constructor | src/features/notifications/api/use-mark-notification-read.ts:29 | the cache starts with the given lists and counters |
| MarkRead.NotificationCache.OnMutate | src/features/notifications/api/use-mark-notification-read.ts:45-84 | the context holds the snapshot of the workspace's lists and the previous counter; the lists lose the notification and the counter is decremented |
| MarkRead.NotificationCache.OnError | src/features/notifications/api/use-mark-notification-read.ts:85-98 | without a context nothing changes; otherwise the snapshot's entries that hold data are written back, every other entry keeps its current value, and the counter is restored when the context holds one |
| MarkRead.MutateThenFail | src/features/notifications/api/use-mark-notification-read.ts:45-98 | a mutation followed by its error handler leaves the lists and counters exactly as they were |
| Timeline.Weekday | src/features/tasks/components/enhanced-timeline.tsx:144 | the day of the week lies in 0..6, Sunday being 0 |
| Timeline.StartOfWeek | src/features/tasks/components/enhanced-timeline.tsx:80 | the start of the week is a Sunday at most six days before the given day |
| Timeline.ViewRange | src/features/tasks/components/enhanced-timeline.tsx:79-98 | every view starts at the start of the current week; the week view ends on that week's Saturday, the month view 120 days and the quarter view 90 days after the start |
| Timeline.DayColumns | src/features/tasks/components/enhanced-timeline.tsx:140 | one column per day of the range, first to last |
| Timeline.WeekStepsShape | src/features/tasks/components/enhanced-timeline.tsx:125-138 | the quarter columns are the days `start + 7i` not past the end, `(end - start) / 7 + 1` of them |
| Timeline.QuarterColumns | src/features/tasks/components/enhanced-timeline.tsx:125-138 | the quarter view's loop produces exactly those weekly steps |
| Timeline.ColumnCounts | src/features/tasks/components/enhanced-timeline.tsx:124-149 | the week view has 7 columns, the month view 121 and the quarter view 13 |
| Timeline.GridWidth | src/features/tasks/components/enhanced-timeline.tsx:187 | at 80, 40 and 28 pixels a column, the week grid is 560 pixels wide, the month grid 4840 and the quarter grid 364 |
| Timeline.PlaceInDays | src/features/tasks/components/enhanced-timeline.tsx:153-172 | the placement as written (see "## Findings"): the start offset is the number of days from the range start, never negative, whatever the view; the end offset is at most the last column, the duration at least 1, visible exactly when the task meets the range, a milestone exactly when it starts and ends on the same day |
| Timeline.Place | src/features/tasks/components/enhanced-timeline.tsx:153-172 | corrected, see "## Findings": a bar's offsets, counted in the view's columns, start at or after column 0 and end at or before the last column; its duration is at least 1; it is visible exactly when the task meets the range and a milestone exactly when it starts and ends on the same day |
| Timeline.DayViewsPlaceInDays | src/features/tasks/components/enhanced-timeline.tsx:157-158 | in the week and month views the placement is exactly the one the source computes in days |
| Timeline.VisibleStartsInGrid | src/features/tasks/components/enhanced-timeline.tsx:157-161 | in every view a visible task's bar starts inside the grid |
| Timeline.QuarterDayOffsetOutsideGrid | src/features/tasks/components/enhanced-timeline.tsx:157 | with offsets counted in days, a task due 30 days into the quarter view is visible yet starts at column 30 of 13 |
| Timeline.ProcessTasksAsWritten | src/features/tasks/components/enhanced-timeline.tsx:151-175 | as written: the bars are tasks placed in days, all visible, and every task meeting the range has its bar among them |
| Timeline.ProcessTasks | src/features/tasks/components/enhanced-timeline.tsx:151-175 | corrected, see "## Findings": the bars are tasks placed in the view's columns, all visible, and every task meeting the range has its bar among them |
| Timeline.ProcessDayViews | src/features/tasks/components/enhanced-timeline.tsx:151-175 | in the week and month views the corrected bars are exactly the bars the code as written computes |
| Timeline.ProcessAppend | src/features/tasks/components/enhanced-timeline.tsx:151-175 | processing distributes over concatenation, so the bars keep the tasks' order |
| Timeline.Navigate | src/features/tasks/components/enhanced-timeline.tsx:177-181 | a step moves 7, 30 or 90 days by view, back or forward |
| Timeline.NavigateInverse | src/features/tasks/components/enhanced-timeline.tsx:177-181 | a step back and a step forward cancel, in either order |
| Timeline.TimelineState.constructor | src/features/tasks/components/enhanced-timeline.tsx:75-76 | the timeline opens on today in the month view |
| Timeline.TimelineState.Step | src/features/tasks/components/enhanced-timeline.tsx:177-181 | the arrows move the current day by the view's step and keep the view |
| Timeline.TimelineState.GoToToday | src/features/tasks/components/enhanced-timeline.tsx:183-185 | the current day becomes today and the view is kept |
| Timeline.TimelineState.SetView | src/features/tasks/components/enhanced-timeline.tsx:196-203 | the view changes and the current day is kept |
| Dashboard.CalendarGrid | src/features/tasks/components/my-space-dashboard.tsx:65-72 | the grid has one blank per leading weekday and then the days 1 to the month's length, each at its place and increasing |
| Dashboard.CalendarDays | src/features/tasks/components/my-space-dashboard.tsx:65-72 | the two loops build exactly that grid |
| Dashboard.CalendarColumnIsWeekday | src/features/tasks/components/my-space-dashboard.tsx:60-63 | with as many blanks as the weekday of the 1st, day d sits in the column of its own weekday |
| Dashboard.CountStatus | src/features/tasks/components/my-space-dashboard.tsx:121-122 | a status count is at most the number of tasks |
| Dashboard.CountDone | src/features/tasks/components/my-space-dashboard.tsx:120 | the completed-or-closed count is at most the number of tasks |
| Dashboard.CountsDisjoint | src/features/tasks/components/my-space-dashboard.tsx:119-122 | the done, in-progress and blocked counts together do not exceed the total |
| Dashboard.AllDone | src/features/tasks/components/my-space-dashboard.tsx:120 | the done count equals the total exactly when every task is completed or closed |
| Dashboard.ComputeAnalytics | src/features/tasks/components/my-space-dashboard.tsx:117-132 | the total is the number of tasks, the done, in-progress and blocked counts fit within it, and the completion percentage lies in [0, 100], is 100 exactly when there are tasks and all are done, and 0 exactly when none is done |
| Dashboard.Percent | src/features/tasks/components/my-space-dashboard.tsx:123 | a part of a positive whole is a percentage in [0, 100], 100 exactly for the whole and 0 exactly for nothing |
| Dashboard.KeepPositive | src/features/tasks/components/my-space-dashboard.tsx:145 | the slices kept are exactly those with a positive count |
| Dashboard.KeepThree | src/features/tasks/components/my-space-dashboard.tsx:141-145 | filtering the three slices keeps each one exactly when positive, in place |
| Dashboard.TasksByStatus | src/features/tasks/components/my-space-dashboard.tsx:135-146 | at most three slices, all with a positive count |
| Dashboard.TasksByStatusShown | src/features/tasks/components/my-space-dashboard.tsx:135-146 | each status's slice is shown exactly when its count is positive |
| Dashboard.TasksByStatusValues | src/features/tasks/components/my-space-dashboard.tsx:137-144 | a shown slice carries its own status's count |
| Dashboard.TasksByStatusOrder | src/features/tasks/components/my-space-dashboard.tsx:141-145 | the slices keep the order Completed, In Progress, Assigned |
| Dashboard.FilterDueSoon | src/features/tasks/components/my-space-dashboard.tsx:155-159 | the tasks kept are exactly those with a due date, not done, due no later than a day from now |
| Dashboard.AlertTasks | src/features/tasks/components/my-space-dashboard.tsx:154-161 | at most two alerts |
| Dashboard.AlertTasksDueSoon | src/features/tasks/components/my-space-dashboard.tsx:154-161 | every alert is a due-soon task of the input, and the alerts come in order of due time |
| Dashboard.AlertTasksSoonest | src/features/tasks/components/my-space-dashboard.tsx:160-161 | a due-soon task without an alert is left out only because two alerts are due no later than it |
| Dashboard.DueLabel | src/features/tasks/components/my-space-dashboard.tsx:163-173 | "Today" exactly on the same day, "Overdue" exactly before it, "Tomorrow" exactly after it |
| Dashboard.TomorrowIsNextDay | src/features/tasks/components/my-space-dashboard.tsx:152-173 | for a task due soon, "Tomorrow" means due on the following day |
| Dashboard.PriorityLabel | src/features/tasks/components/my-space-dashboard.tsx:179 | the label is non-empty and lower case; a missing priority reads "medium", any other is the priority itself up to letter case |
| Dashboard.DueAlerts | src/features/tasks/components/my-space-dashboard.tsx:149-182 | one alert per picked task, in the same order, carrying that task's id and name, the `DueLabel` of its due time (Today, Overdue or Tomorrow) and its `PriorityLabel` |
| Dashboard.FindActive | src/features/tasks/components/my-space-dashboard.tsx:209 | the first sprint whose status is ACTIVE, and nothing exactly when none is |
| Dashboard.WithId | src/features/tasks/components/my-space-dashboard.tsx:213 | the tasks kept are exactly those with a non-empty id |
| Dashboard.ActiveSprint | src/features/tasks/components/my-space-dashboard.tsx:207-225 | nothing exactly when no sprint is active; otherwise the totals count the tasks with an id, the done ones among them, and the pending count completes the total and is never negative; the goal is never empty |
| Dashboard.RoundPercent | src/features/tasks/components/my-space-dashboard.tsx:247 | `Math.round(part / whole * 100)`: the nearest integer with halves rounded up, in [0, 100], 0 for no part and 100 for the whole |
| Dashboard.RoundBounds | src/features/tasks/components/my-space-dashboard.tsx:247 | the integer rounding formula lies within half a unit of the exact percentage |
| Dashboard.OfProject | src/features/tasks/components/my-space-dashboard.tsx:245 | the tasks kept are exactly those of the project |
| Dashboard.CardFor | src/features/tasks/components/my-space-dashboard.tsx:244-256 | a card carries its project's id and task count, and its progress is in [0, 100]: 0 without tasks, otherwise the rounded share of done tasks |
| Dashboard.CardProgressEnds | src/features/tasks/components/my-space-dashboard.tsx:246-247 | a project whose tasks are all done shows 100 (0 when it has none), one with no task done shows 0 |
| Dashboard.ProjectCards | src/features/tasks/components/my-space-dashboard.tsx:240-257 | one card per project, in order |
| MoveTasks.Target | src/features/custom-columns/hooks/use-move-tasks-from-disabled-column.ts:17 | the tasks go to the named column, and to TODO when none is named |
| MoveTasks.IdsToMove | src/features/custom-columns/hooks/use-move-tasks-from-disabled-column.ts:42-44 | an id is selected exactly when some fetched document in the source column has it; no more ids than documents |
| MoveTasks.IdsToMoveAppend | src/features/custom-columns/hooks/use-move-tasks-from-disabled-column.ts:42-44 | selection distributes over concatenation, so the ids keep the documents' order |
| MoveTasks.UpdatesTo | src/features/custom-columns/hooks/use-move-tasks-from-disabled-column.ts:48-51 | one update per id, in order, each to the target status |
| MoveTasks.MoveTasks | src/features/custom-columns/hooks/use-move-tasks-from-disabled-column.ts:17-66 | no workspace fails before fetching; a failed fetch fails before any update; a fetched body that is not JSON raises before any update; a bulk request is sent only after a good fetch, only when non-empty, and only with the target status (TODO by default); the moved count is the request's length, zero exactly when nothing was sent; a failed bulk call fails |
| MoveTasks.MoveTasksSucceeds | src/features/custom-columns/hooks/use-move-tasks-from-disabled-column.ts:40-62 | when both calls answer ok, the request moves exactly the source column's fetched tasks in order, and the count is their number |
| MoveTasks.SuccessToast | src/features/custom-columns/hooks/use-move-tasks-from-disabled-column.ts:67-70 | a toast appears exactly when something moved, with the target defaulting to TODO |
| MoveTasks.MovedMessageWording | src/features/custom-columns/hooks/use-move-tasks-from-disabled-column.ts:69 | the message says "task" for one task and "tasks" otherwise, and its number reads back as the count moved |
| SocketPush.ResolveSecret | server.ts:22-41 | a configured non-empty secret is used as given; without one a development server starts with the default secret and warns, and a production server does not start; a started server's secret is never empty, and the warning appears exactly for the default in development |
| SocketPush.HandleInternalPush | server.ts:51-90 | only a POST whose URL starts with the push path is handled; an unparsable body answers 500, a wrong secret 401, a missing user or payload 400; a push is emitted exactly when the answer is 200, and then with the body's user and payload |
| SocketPush.EmitsExactlyWhenAuthorized | server.ts:51-84 | a push is emitted exactly for a POST to the endpoint carrying the server's secret, a user and a payload |
| SocketPush.WrongSecretIgnoresFields | server.ts:64-69 | with a wrong secret the answer is 401 whatever the other fields hold |
| SocketPush.ProductionNeverUsesDefault | server.ts:22-37 | a production server runs only on a configured secret, never with the development default's warning |
| EnvCheck.MissingOf | src/lib/env-check.ts:15-20 | no more missing names than names checked |
| EnvCheck.ValidateEnvironmentVariables | src/lib/env-check.ts:6-27 | the loop collects exactly the missing required names, in order, and warns exactly when there is one |
| EnvCheck.TrimStartBlank | src/lib/env-check.ts:17 | trimming the front leaves nothing exactly when the value is only whitespace |
| EnvCheck.TrimEndBlank | src/lib/env-check.ts:17 | trimming the end leaves nothing exactly when the value is only whitespace |
| Common.Trim | src/lib/env-check.ts:17 | `trim` adds nothing and leaves neither a leading nor a trailing whitespace character |
| EnvCheck.TrimBlank | src/lib/env-check.ts:17 | a value trims to nothing exactly when it is only whitespace |
| EnvCheck.MissingMembers | src/lib/env-check.ts:15-20 | a name is reported exactly when it is checked and is unset or only whitespace |
| EnvCheck.MissingAppend | src/lib/env-check.ts:15-20 | checking a list in two parts gives the two results joined, so the missing names keep their order |
| EnvCheck.GetEnvVar | src/lib/env-check.ts:30-32 | a set, non-empty value is returned as it is; otherwise the default |
| EnvCheck.IsAppwriteConfigured | src/lib/env-check.ts:35-44 | configured exactly when the endpoint and the project are both set and non-empty |
| EnvCheck.ConfiguredIgnoresDatabase | src/lib/env-check.ts:35-44 | the database id plays no part in being configured |
| EnvCheck.NothingMissingConfigured | src/lib/env-check.ts:6-44 | when no required name is missing, the client is configured |
| EnvCheck.WhitespaceConfiguredYetMissing | src/lib/env-check.ts:17-40 | the converse fails: an endpoint and project of one space count as configured while all three names are reported missing |
| Register.IntToString | src/features/auth/api/use-register.ts:29 | `String` of an integer is never empty |
| Register.MutationFn | src/features/auth/api/use-register.ts:19-26 | it raises exactly for a non-ok answer or a body that is not JSON; a body that is not JSON, ok or not, raises the parse error, whose message is not JSON; a non-ok JSON body raises with its JSON text as message, which parses back to the body; an ok JSON answer yields its body |
| Register.OnSuccess | src/features/auth/api/use-register.ts:27-39 | the current user is always invalidated; a truthy `success` shows the server's message or the default one, stores a non-empty return address and goes to the verification page; otherwise a truthy `error` is shown as a failure; with neither nothing is shown |
| Register.RawOrGeneric | src/features/auth/api/use-register.ts:58-64 | the raw message is shown unless it is empty or an object's default text, in which case the generic failure is |
| Register.ErrorText | src/features/auth/api/use-register.ts:40-65 | the corrected message: unparsable messages fall back to the raw text; a plain string answer is shown as it is; an object follows the source's order; a non-object the source's fallback |
| Register.ErrorTextAsWritten | src/features/auth/api/use-register.ts:42-57 | the message as written, where a parsed string reaches the first `in` test, which throws, before its own branch |
| Register.ErrorPrecedence | src/features/auth/api/use-register.ts:44-57 | for an object answer, smtpError comes first, then error, then message, then the generic text |
| Register.StringAnswerShowsRawText | src/features/auth/api/use-register.ts:43-63 | as written, a plain string answer always ends in the fallback for an unparsable message |
| Register.QuotedStringAnswer | src/features/auth/api/use-register.ts:52-54 | for the answer `"Email taken"` the code as written shows the quoted JSON text, while the string branch means to show the bare text |
| Register.NonJsonAnswerShowsParseError | src/features/auth/api/use-register.ts:19-64 | a body that is not JSON, such as a plain-text server error, raises; both the handler as written and the corrected one then show the parse error's message |
| Register.ServerErrorShown | src/features/auth/api/use-register.ts:21-23 | a rejected registration whose body names an error, without a mail failure, shows that error |
| Modals.ParamsOf | src/features/tasks/hooks/use-create-task-modal.ts:4-12 | with both parameters clearing on their default, the URL holds the open flag exactly while open (as "true") and the id exactly while there is one, and nothing else |
| Modals.ParamsReadBack | src/features/tasks/hooks/use-create-task-modal.ts:4-12 | the parameters a state writes read back as that state: the flag from the text `true`, the id as given |
| Modals.CreateTaskModal.constructor | src/features/tasks/hooks/use-create-task-modal.ts:4-12 | the state is read from the URL: open exactly when `create-task` is `true`, the parent as `parent-id` gives it, so a URL without them reads as closed with no parent |
| Modals.CreateTaskModal.Open | src/features/tasks/hooks/use-create-task-modal.ts:14-19 | opening always opens; a given non-empty parent replaces the parent, otherwise the earlier one stays |
| Modals.CreateTaskModal.Close | src/features/tasks/hooks/use-create-task-modal.ts:21-24 | closing closes, clears the parent and leaves no parameter in the URL |
| Modals.CreateTaskModal.SetIsOpen | src/features/tasks/hooks/use-create-task-modal.ts:4-7 | the raw setter changes only the open flag |
| Modals.ProjectSelectionModal.constructor | src/features/custom-columns/hooks/use-project-selection-modal.ts:10-20 | the state is read from the URL: open exactly when `project-selection` is `true`, the selection as `project-selection-id` gives it |
| Modals.ProjectSelectionModal.Open | src/features/custom-columns/hooks/use-project-selection-modal.ts:22-27 | opening always opens; a given non-empty project is selected, otherwise the earlier selection stays |
| Modals.ProjectSelectionModal.Close | src/features/custom-columns/hooks/use-project-selection-modal.ts:29-32 | closing closes, clears the selection and leaves no parameter in the URL |
| Modals.CloseTwice | src/features/tasks/hooks/use-create-task-modal.ts:21-24 | closing twice leaves the state closing once leaves |
| Modals.ReopenKeepsParent | src/features/tasks/hooks/use-create-task-modal.ts:14-19 | opening without an id after opening with one keeps that id |
| Modals.OpenThenCloseSelection | src/features/custom-columns/hooks/use-project-selection-modal.ts:22-32 | opening and then closing leaves a clean URL, whatever the id |
| Modals.HandleOpenChange | src/features/tasks/components/create-task-modal.tsx:12-15 | the dialog's open change sets the flag, keeps the parent, and a request for the current state changes nothing |
| Modals.Cancel | src/features/tasks/components/create-task-modal.tsx:18 | cancelling the form closes the modal and clears the parent |
| Modals.FormParentId | src/features/tasks/components/create-task-modal.tsx:18 | the form receives the parent exactly when it is present and non-empty |
| Avatar.ToInt32 | src/features/tasks/components/member-avatar.tsx:33 | the 32-bit conversion of `<<` gives the value in [-2^31, 2^31) congruent to its input modulo 2^32 |
| Avatar.HashOf | src/features/tasks/components/member-avatar.tsx:32-34 | up to multiples of 2^32 the loop's hash is the base-31 polynomial hash of the name's character codes |
| Avatar.HashStep | src/features/tasks/components/member-avatar.tsx:33 | one round, with the 32-bit shift, agrees with `31 * hash + charCode` up to multiples of 2^32 |
| Avatar.ColorIndex | src/features/tasks/components/member-avatar.tsx:36 | the colour index lies within the eight colours |
| Avatar.ColorIndexFromPolynomial | src/features/tasks/components/member-avatar.tsx:31-36 | the colour depends only on the sign of the hash and the polynomial hash modulo 8 |
| Avatar.ModEight | src/features/tasks/components/member-avatar.tsx:36 | adding a multiple of 8 leaves the remainder modulo 8 unchanged |
| Avatar.EmptyNameIsBlue | src/features/tasks/components/member-avatar.tsx:31-36 | the empty name hashes to 0 and gets the first colour |
| Avatar.OneLetterHash | src/features/tasks/components/member-avatar.tsx:32-34 | a one-letter name hashes to its character code |
| Avatar.GetAvatarColor | src/features/tasks/components/member-avatar.tsx:19-37 | the loop computes the hash of the whole name, and the colour is the one its index picks, always one of the eight |
| MemberProfile.RoleBadgeStyle | src/features/organizations/components/member-profile-dialog.tsx:29-40 | amber exactly for owners, purple exactly for administrators, blue exactly for moderators, slate exactly for every other role |
| MemberProfile.RoleIconFor | src/features/organizations/components/member-profile-dialog.tsx:42-52 | a crown exactly for owners, a shield exactly for administrators and moderators |
| MemberProfile.InitialsSource | src/features/organizations/components/member-profile-dialog.tsx:66 | the name when non-empty, else the email when non-empty, else "?"; never empty |
| MemberProfile.ProfileInitials | src/features/organizations/components/member-profile-dialog.tsx:66-71 | the profile initials are at most two upper-case characters |
| MemberProfile.NamelessShowsQuestionMark | src/features/organizations/components/member-profile-dialog.tsx:66-71 | a member with neither name nor email shows "?" |
| MemberProfile.ProfileFor | src/features/organizations/components/member-profile-dialog.tsx:61-126 | the dialog shows something exactly when the index names a member; it shows that member's name (or "Unknown" when it has none, so the title is never empty), initials, badge style and icon; the counter and arrows appear exactly with more than one member, each arrow leading to the neighbouring index and disabled at its end of the list; the crown exactly for an owner |
| MemberProfile.NavigationStaysInRange | src/features/organizations/components/member-profile-dialog.tsx:90-100 | the back arrow is enabled exactly after the first member and leads to the previous one, the forward arrow exactly before the last and leads to the next one, both within the list |
| MemberProfile.CounterReadsPosition | src/features/organizations/components/member-profile-dialog.tsx:84 | the counter reads "k of n" with k the one-based position and n the number of members |
| BulkToolbar.HasOwners | src/features/organizations/components/org-member-bulk-actions-toolbar.tsx:54 | true exactly when some selected member is an owner |
| BulkToolbar.Plural | src/features/organizations/components/org-member-bulk-actions-toolbar.tsx:134 | "s" exactly for more than one, nothing otherwise |
| BulkToolbar.ToolbarFor | src/features/organizations/components/org-member-bulk-actions-toolbar.tsx:49-148 | no toolbar exactly when nothing is selected; delete is disabled exactly while a delete runs or an owner is selected, and explains itself exactly when an owner is selected; role change is disabled exactly while an update runs; the confirm button names the count with the plural ending |
| BulkToolbar.OwnersBlockDelete | src/features/organizations/components/org-member-bulk-actions-toolbar.tsx:104-106 | any selection holding an owner disables delete and shows the owner hint |
| BulkToolbar.NoOwnersDeleteEnabled | src/features/organizations/components/org-member-bulk-actions-toolbar.tsx:104 | a selection without owners can be deleted while no delete runs |
| BulkToolbar.Toolbar.constructor | src/features/organizations/components/org-member-bulk-actions-toolbar.tsx:48 | the confirmation starts closed and no callback has been called |
| BulkToolbar.Toolbar.ClickDelete | src/features/organizations/components/org-member-bulk-actions-toolbar.tsx:100-104 | the delete button opens the confirmation unless it is disabled, and calls nothing |
| BulkToolbar.Toolbar.OpenChange | src/features/organizations/components/org-member-bulk-actions-toolbar.tsx:129 | the dialog's own open and close requests set the flag and call nothing |
| BulkToolbar.Toolbar.Confirm | src/features/organizations/components/org-member-bulk-actions-toolbar.tsx:141-145 | confirming calls the bulk delete once, then closes the dialog |
| BulkToolbar.Toolbar.ClickView | src/features/organizations/components/org-member-bulk-actions-toolbar.tsx:68-71 | the view button calls the profile view and leaves the dialog alone |
| BulkToolbar.Toolbar.ClickClear | src/features/organizations/components/org-member-bulk-actions-toolbar.tsx:117-120 | the close button clears the selection and leaves the dialog alone |
| BulkToolbar.Toolbar.PickRole | src/features/organizations/components/org-member-bulk-actions-toolbar.tsx:79-81 | a picked role reaches the callback exactly while no update runs |
| BulkToolbar.OwnerSelectionCannotDelete | src/features/organizations/components/org-member-bulk-actions-toolbar.tsx:100-106 | with an owner selected, the delete button opens no dialog and calls no delete |
| Carousel.Next | src/components/auth/image-carousel.tsx:20 | from a shown image the timer's update is a step modulo the number of images and stays in range |
| Carousel.AdvanceIsModular | src/components/auth/image-carousel.tsx:19-21 | k ticks move the index k places modulo the number of images |
| Carousel.FullCycle | src/components/auth/image-carousel.tsx:19-21 | one tick per image returns to the starting image |
| Carousel.OneSlideVisible | src/components/auth/image-carousel.tsx:28-31 | exactly one slide is at full opacity, the shown one |
| Carousel.OneMarked | src/components/auth/image-carousel.tsx:28-31 | among the slides up to a shown index, exactly one is at full opacity |
| Carousel.NoneMarked | src/components/auth/image-carousel.tsx:28-31 | among slides before the shown index none is at full opacity |
| Carousel.ImageCarousel.constructor | src/components/auth/image-carousel.tsx:14 | the first image is shown on mount |
| Carousel.ImageCarousel.Tick | src/components/auth/image-carousel.tsx:19-21 | the interval moves to the next image, the first after the last, and stays in range |
| Carousel.ImageCarousel.SelectImage | src/components/auth/image-carousel.tsx:44-47 | a dot shows its own image |
| Carousel.ImageCarousel.SlideClassOf | src/components/auth/image-carousel.tsx:31 | a slide is at full opacity exactly while it is shown, and transparent exactly otherwise |
| Carousel.ThreeTicks | src/components/auth/image-carousel.tsx:19-21 | three ticks return to the same image |
| Navbar.SectionKey | src/components/navbar.tsx:34-35 | the key exists exactly when the path has more than three pieces, and is then the fourth piece, without a slash |
| Navbar.HeadingOf | src/components/navbar.tsx:37 | a table key gets its entry; a missing key or one neither in the table nor inherited gets the home heading; an inherited property name gets no heading at all |
| Navbar.NavbarHeading | src/components/navbar.tsx:33-37 | no heading exactly when the key is an inherited property name; a short path gets the home heading |
| Navbar.SplitAfterPiece | src/components/navbar.tsx:34 | splitting past a first piece that holds no slash keeps that piece and splits the rest |
| Navbar.SplitFirstPiece | src/components/navbar.tsx:34 | a piece ends at the end of the path or at a slash |
| Navbar.FourthPiece | src/components/navbar.tsx:34-35 | in `/<w>/<id>/<rest>` the fourth piece is the first piece of the rest |
| Navbar.SectionOfWorkspacePath | src/components/navbar.tsx:34-35 | the key of `/<w>/<id>/<section>` followed by nothing or by a further "/..." is the section |
| Navbar.SectionHeadings | src/components/navbar.tsx:12-37 | under a workspace the tasks, projects and time-tracking sections get their own headings whatever follows, an ordinary other section the home heading, an inherited property name none |
| Navbar.WorkspaceHomeIsHome | src/components/navbar.tsx:27-37 | a two-piece path such as the workspace home shows the home heading |
| Common.Split | src/components/navbar.tsx:34 | `split` on one character gives at least one piece, none holding the separator |
| Common.SplitJoin | src/components/navbar.tsx:34 | joining the pieces with the separator gives back the string |
| Common.NatToString | src/features/organizations/components/org-member-bulk-actions-toolbar.tsx:62 | a number's numeral is non-empty, all digits, starts with 0 only for zero, and is one digit exactly below ten |
| Common.NatToStringRoundTrip | src/features/organizations/components/org-member-bulk-actions-toolbar.tsx:62 | reading the numeral back gives the number |
| Common.NatToStringInjective | src/features/organizations/components/org-member-bulk-actions-toolbar.tsx:62 | different numbers have different numerals |

## Left out

- Rendering: JSX, class strings other than the few that carry a decision, icons, charts, tooltips and the carousel's sign-up page offset are presentation only.
- Remote calls: database, messaging, HTTP and query-cache calls are not modelled. Their answers are inputs (ok flags, fetched documents, the recipients whose store call fails) and their requests are returned values.
- Toasts, routing and session storage: recorded as returned effects, with no behaviour of their own.
- Timing: `setInterval`, React's batching and effect timing, and promise scheduling are left out. Each updater runs at once, `Promise.all` is a sequential loop in which one recipient's failure does not stop the others, and the carousel's five-second timer is the caller calling `Tick`.
- Dates: days and milliseconds are integers counted from 1970-01-01 in UTC. Local time zones, daylight saving, `parseISO` and `startOfDay` are not modelled. The dashboard's local midnight is the UTC day boundary.
- Dates: `monthHeaders` in the timeline, `teamActivity`, `formatDistanceToNow`, `getCurrentMonthYear` and the workspaces list on the dashboard are left out. They are formatting only.
- Dashboard.CalendarDays: the month's length and the weekday of the 1st are inputs, not read from a clock.
- Dashboard.ComputeAnalytics: the completion percentage is an exact rational, not a double.
- Dashboard.RoundPercent: computes `Math.round` of an exact rational, not of a double.
- Dashboard: the task status and sprint status enum files are not part of this model. Their values are taken to equal their names (COMPLETED, CLOSED, IN_PROGRESS, ASSIGNED, and the sprint status ACTIVE).
- Regular expressions: replaced by explicit scanners. `\w` is `[A-Za-z0-9_]`, and `\s`, like `trim`, is JavaScript's full set of white space and line terminators.
- Common.Trim: states that nothing is added and that neither end is whitespace, not that the result is the middle stretch of the input. Blankness is `EnvCheck.TrimBlank`.
- Strings are sequences of characters. `charCodeAt` is the character's code, taken as one UTF-16 unit. There is no Unicode case folding beyond ASCII letters.
- Avatar.HashOf: adds and subtracts on exact integers. The engine's doubles agree only below 2^53, which long names can exceed.
- Sorting.SortBy: the contract states that the result is sorted and a permutation of the input. It does not state stability, that is, that tasks with equal positions keep their input order, which JavaScript's `sort` guarantees.
- MarkRead: the snapshot `Map` keyed by `JSON.stringify(key)` is a map from query keys. It is built as a map comprehension, not by the `forEach` loop. `JSON.parse` of a key gives back that key.
- MarkRead: the unread counter key is `["notifications", "unread-count", workspaceId]`. It is modelled as a per-workspace counter, separate from the lists, so a workspace whose id is itself "unread-count" is not reflected.
- Notifications: email template bodies (HTML text), the task URL and the project name lookup are left out. Only the choice of template and the fallbacks it fills in are modelled.
- Notifications: metadata values are strings. They are stored as JSON text, which is not modelled.
- Register.MutationFn, MoveTasks.MoveTasks: the engine words the `SyntaxError` that `response.json()` rejects with on a body that is not JSON. Its message is an input here, taken not to be JSON text. MoveTasks records the rejection as `BodyNotJson` without its text, because the error toast there is fixed.
- Register.OnSuccess: a successful answer whose body is not an object (on which `in` would throw) is not modelled. Only objects have keys there.
- SocketPush.HandleInternalPush: reading the request stream is not modelled. The body comes in already parsed, field by field. A body that parses to `null` throws on the field read, so it is modelled as `Unparsable` (500).
- EnvCheck.ValidateEnvironmentVariables: the warning is a flag, not console output.
- EnhancedKanban.ColumnKeys, EnhancedKanban.Target: three JavaScript object behaviours are not modelled, and the app's own column ids never trigger them. `Object.keys` lists array-index-like keys such as "3" first, so the key order can differ from the order of first assignment. A first key `""` is falsy, so such a task would be dropped rather than routed there. A status naming an inherited property such as "constructor" makes `newTasks[taskStatus]` truthy, and the `push` then throws.
- EnhancedKanban: the block guarded by an empty TODO column can never run, so it is not modelled. The key is always set to an empty array first, and an empty array is truthy.
- Timeline: the bar's width expression that swaps the milestone cases is presentation only and not modelled. The random badge is not modelled either.
- Modals: the URL-state library's parsers are not part of this model. A flag is taken to read as set exactly when its parameter is the text `true`, and an id is taken to read as the parameter's text.
- MemberProfile.RoleIconFor: the icons are tags, not elements.
- Navbar.HeadingOf: a section named after a property every JavaScript object inherits (`constructor`, `toString`, …) finds that property. The model shows no heading for it. The app has no such routes, so this is not claimed as a defect.

## Findings

| source | as written | input that shows it | evidently intended | confidence | as-written member | corrected member |
|---|---|---|---|---|---|---|
| src/features/tasks/components/enhanced-timeline.tsx:157-158 | in the quarter view the bar offsets are counted in days, but each column is a week (13 columns, 28 pixels each) | a task due 30 days after the start of the quarter range: visible, yet its bar starts at column 30 of 13 | offsets counted in the view's columns, so a visible bar starts inside the grid | high; not executed | Timeline.PlaceInDays, Timeline.ProcessTasksAsWritten, Timeline.QuarterDayOffsetOutsideGrid | Timeline.Place, Timeline.ProcessTasks, Timeline.VisibleStartsInGrid |
| src/features/auth/api/use-register.ts:44-54 | the plain-string branch of the error handler comes after `'smtpError' in errorData`, and `in` throws on a string, so that branch can never run | a rejected registration whose body is the JSON string "Email taken": the message parses to a string, the `in` test throws, and the toast shows the quoted text `"Email taken"` | a plain string answer is shown as it is, without the quotes | high; not executed | Register.ErrorTextAsWritten, Register.QuotedStringAnswer | Register.ErrorText |
