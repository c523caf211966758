# JellyPy, modelled and proved in Dafny

JellyPy is a web application that watches a media server: it keeps a history of playback, sends notifications, and exports and imports data. Most of it is input and output. This project models the parts that are algorithms or state machines, in the branches, constants and error cases of the Python code, and proves what they keep over all inputs, all runs and all interleavings.

`dafny verify dfyconfig.toml` checks the whole project. Every lemma carries `{:induction false}`: no proof rests on automatic induction.

## What is modelled

- **Condition logic** (`ConditionLogic`, `ConditionGrouping`, `ConditionVerdict`, `ConditionExamples`, `ConditionLogicHeap`). Notifications may carry an expression such as `{1} and ({2} or {3})`. One pass over its tokens builds nested lists with a stack of lists that contain one another and with two counters, `nest_and` and `nest_nest_and`; a fold from the left evaluates them. `ConditionLogic` is the parser as a machine on values. `ConditionLogicHeap` is the parser on list objects that are shared between the stack and each other, proved to do the same. The parser does not accept every correct expression and does not group every accepted one as `and` before `or` asks for. `ConditionGrouping` says exactly when it does: `WellNested` is computed on the syntax of the expression, and `GroupingExact` proves that acceptance with the intended grouping and `WellNested` are the same thing for every expression. `ConditionVerdict` keeps the two counters without any lists and says from the tokens alone which inputs, well formed or not, are accepted, which are accepted though their brackets do not match, and which stop with an IndexError.
- **Recently added items** (`RecentlyAdded`, `RecentlyQueued`). A map from keys to sets of keys that leads from shows to seasons to episodes and back to shows, filled by events, cleared by timers, and emptied by a recursive delete that pops while it walks. `RecentlyQueued` tells the queue and the timers from the events alone.
- **Most concurrent streams** (`MostConcurrent`, `StableSort`, `PythonText`). A sort of text keys and a sweep over them.
- **Rating-key remap** (`KeyRemap`). Rows are updated pair by pair in three tables; sets of ids already written make the updates act at once.
- **History grouping** (`HistoryGrouping`). A new history row joins the group of the user's last row for the same item, by `reference_id`.
- **Sessions and pauses** (`SessionPause`, `SessionEvents`, `PauseAccounting`, `PlayTime`). The session table under the handler's events, and the counter of paused seconds. `SessionEvents` says what each kind of event does to a row, and `PlayTime` measures the play time against the states and times of the events.
- **Database import** (`MergeImport`). The merge of another database into the three history tables.
- **Tables** (`TableSort`). Search, repeated stable sorts and pages.
- **Exports** (`ExportAttrs`, `FlattenRows`, `FlattenOrder`, `Paths`). The selected attributes are projected out of a tree of dictionaries and merged in place, sharing parts of the tree; nested objects are flattened into rows.
- **Rate limiter** (`TimedLock`). Threads that interleave at each step that others can see, with a clock.

Where the code updates objects in place the model is a class whose methods do so, and each method's contract equates the new state with a function of the old one; the lemmas are about those functions.

## Where the code and its promises part

- The parser refuses `{1} and (({2}))`, accepts the unbalanced `({1} and (({2}))))`, gives `{1} and ((({2} and {3} and {4} or {5})))` another meaning, and can stop with an IndexError instead of one of its own messages (`ConditionExamples`). A well-formed expression is refused if and only if a number is out of range or an `and` is still counted behind it (`ConditionVerdict.ExpressionVerdict`), and among the accepted ones the grouping is another if and only if the expression is not well nested (`ConditionVerdict.MisgroupedExact`). An accepted input is unbalanced if and only if an `and` is still counted at its end (`ConditionVerdict.UnbalancedExact`); the IndexError comes if and only if the count of lists falls to 0 where the parser needs one (`ConditionVerdict.IndexErrorExact`).
- The documentation of `TimedLock` promises that N threads take at least N intervals. From the arrival of the first it is N - 1 intervals and what is left of the running one, and that is reached for every N from every idle state (`TimedLock.EntriesTake`, `TimedLock.BoundIsReached`); so the promise holds if and only if there is no interval or the clock is not past the last use (`TimedLock.PromiseExact`), and never for a fresh lock with an interval (`TimedLock.FreshLockBreaksPromise`). A thread fails in `__enter__` if and only if a negative snooze is taken (`TimedLock.FailureExact`), and then the lock is held for ever (`TimedLock.FailureIsForever`).
- A pause that goes on is recorded with two readings of the clock, and the paused time counts the gap between them twice; `PauseAccounting.CounterIsPausedTime` has the exact amount. It is zero if and only if the readings of every repeated pause agree (`PauseAccounting.NoDrift`); otherwise a play time can be negative (`PauseAccounting.PlayTimeCanBeNegative`). A session whose first event is a pause gets a row without one (`SessionEvents.NoRowEvent`), so that its pause counts from the next event that tells it.
- A `length` of -1, the usual request for all rows, drops the last row (`TableSort.AllRowsButTheLast`).
- In the remap, `session_history_metadata` can depend on the order of the pairs, unlike the other two tables (`KeyRemap.MetadataDependsOnOrder`): exactly when the server files a rewritten item under another show or season than the mapping does (`KeyRemap.MetadataOrderExact`).
- After a merge a `reference_id` can point nowhere, exactly when the row it led to was not first of its content or its content was there already (`MergeImport.ReferenceCanDangle`, `MergeImport.DanglesExact`). Existing rows are lost exactly when an earlier one has the same shared columns (`MergeImport.ExistingRowsCanBeLost`, `MergeImport.ExistingSurvives`).
- The sweep sorts times as text. That is the sort by time if and only if the keys compare as the times do (`MostConcurrent.SortExact`), and then the sweep is right; times of one width, such as the ten digits of the seconds from 2001 to 2286, do (`MostConcurrent.SweepFindsPeakAtOneWidth`). `MostConcurrent.MixedWidthsMislead` shows that it can be wrong otherwise; it need not be.

## Model

| member | source | states |
|---|---|---|
| ConditionLogic.StepSane | jellypy/helpers.py:1147-1206 | every step of the parser keeps each list an alternation of operands and operators with numbers in range, the lists below the top waiting for an operand |
| ConditionLogic.StepLeaves | jellypy/helpers.py:1147-1206 | every step keeps the numbers and operators read so far, in order and with their bracket depths |
| ConditionLogic.RunSane | jellypy/helpers.py:1138-1206 | over a whole run the stack height is 1 + opening - closing brackets + `nest_and`, and no token is lost, doubled or moved |
| ConditionLogic.AcceptedPrefix | jellypy/helpers.py:1138-1211 | the same for every prefix of an accepted input, with the stack not empty: no prefix pops the root |
| ConditionLogic.AcceptedTree | jellypy/helpers.py:1129-1211 | every accepted non-empty input gives a list of the shape operand (operator operand)*, so that the evaluator's zip drops nothing, whose leaves are the tokens without their brackets |
| ConditionLogic.CanonMeaning | jellypy/helpers.py:1222-1241 | evaluating the intended grouping from the left gives the standard meaning, `and` before `or` |
| ConditionLogic.CanonComplete | jellypy/helpers.py:1222-1241 | the intended grouping is a complete list with numbers in range |
| ConditionGrouping.GroupingExact | jellypy/helpers.py:1129-1211 | for every expression: it is accepted and grouped as intended if and only if its numbers name conditions and it is well nested |
| ConditionGrouping.ExprExact | jellypy/helpers.py:1147-1203 | where the parser stands after an expression, from any state with the counters ahead by any excess |
| ConditionGrouping.ExprSlips | jellypy/helpers.py:1147-1203 | once the counters are off, no continuation brings back the intended grouping |
| ConditionGrouping.WellNestedMeaning | jellypy/helpers.py:1129-1241 | every well-nested expression is accepted and evaluates to its standard meaning under every assignment |
| ConditionGrouping.PlainIsClean | jellypy/helpers.py:1147-1203 | the counters are exact where inside a bracketed right operand of `and` brackets appear only directly after `and` |
| ConditionGrouping.PlainMeaning | jellypy/helpers.py:1129-1241 | every such expression is accepted and evaluates to its standard meaning |
| ConditionVerdict.AcceptedExact | jellypy/helpers.py:1147-1211 | for every token sequence: it is accepted if and only if each token stands where the flags allow it, with a number in range and lists enough, and one list is left, all told from brackets and counters without the lists |
| ConditionVerdict.UnbalancedExact | jellypy/helpers.py:1158-1209 | an accepted input has as many closing brackets too many as `nest_and` counts at its end; so it is unbalanced if and only if that is not zero |
| ConditionVerdict.IndexErrorExact | jellypy/helpers.py:1147-1211 | the parser stops with an IndexError if and only if the tokens so far fit and leave no list and it would take the next token, or there is none |
| ConditionVerdict.ExpressionVerdict | jellypy/helpers.py:1129-1211 | for every well-formed expression: an error about a number if one is out of range, acceptance if no `and` is still counted, and otherwise the error about a missing closing bracket |
| ConditionVerdict.MisgroupedExact | jellypy/helpers.py:1129-1211 | an expression is accepted with another grouping than the intended one if and only if its numbers are in range, no `and` is still counted, and it is not well nested |
| ConditionExamples.BalancedIsRefused | jellypy/helpers.py:1208-1209 | a balanced expression that is refused with a message about a missing bracket; when is in ExpressionVerdict |
| ConditionExamples.UnbalancedIsAccepted | jellypy/helpers.py:1158-1169 | an input with one closing bracket too many that is accepted; when is in UnbalancedExact |
| ConditionExamples.StackRunsOut | jellypy/helpers.py:1158-1185 | an input on which the stack is empty when the parser needs its top; when is in IndexErrorExact |
| ConditionExamples.AcceptedWithAnotherMeaning | jellypy/helpers.py:1158-1196 | an accepted expression and an assignment on which the evaluator disagrees with the standard meaning |
| ConditionLogicHeap.ParseConditionLogic | jellypy/helpers.py:1129-1211 | the loop on shared list objects returns a list that represents what the machine on values returns, or its error |
| ConditionLogicHeap.OpenAnd | jellypy/helpers.py:1187-1196 | moving the last operand into a fresh list, with the aliases that makes |
| ConditionLogicHeap.PopTop | jellypy/helpers.py:1159-1169 | popping a list that stays an element of the one below |
| ConditionLogicHeap.TakeToken | jellypy/helpers.py:1147-1206 | one round of the loop on objects is one step of the machine |
| ConditionLogicHeap.EvalLogicGroups | jellypy/helpers.py:1222-1241 | the evaluator's loop and recursion on objects compute the value of the represented list |
| RecentlyAdded.PopThenChildren | jellypy/activity_handler.py:568-573 | popping a key before following its set removes exactly what was reachable from the key |
| RecentlyAdded.DeleteOneMore | jellypy/activity_handler.py:568-573 | deleting what is reachable from one key after another deletes what is reachable from them together |
| RecentlyAdded.TimelineHandler.DelKey | jellypy/activity_handler.py:568-573 | terminates on any queue, cyclic or not, and leaves exactly the entries whose keys cannot be reached |
| RecentlyAdded.TimelineHandler.DelKeys | jellypy/activity_handler.py:568-573 | the same from a set of keys, in whatever order it is walked |
| RecentlyAdded.TimelineHandler.ScheduleCallback | jellypy/activity_handler.py:576-590 | adds, moves or removes exactly one job |
| RecentlyAdded.TimelineHandler.Process | jellypy/activity_handler.py:407-500 | an event changes queue and jobs as the transition function says; what that is for each kind of event is in RecentlyQueued |
| RecentlyAdded.EventKeepsValid | jellypy/activity_handler.py:407-500 | every event keeps the queue filed by the library's hierarchy with a job for every root |
| RecentlyAdded.RunStaysValid | jellypy/activity_handler.py:407-500 | so does every run of events and timers |
| RecentlyAdded.RunNeverLeaks | jellypy/activity_handler.py:428-499 | after every run each queued key is reachable from a key with a pending job, each pending job finds its key, and without jobs the queue is empty |
| RecentlyAdded.ReachedFromRoot | jellypy/activity_handler.py:428-474 | in a filed queue a root reaches exactly the keys whose root it is |
| RecentlyAdded.EveryKeyHasTimer | jellypy/activity_handler.py:445-474 | the key reached from a root waits for the root's timer |
| RecentlyQueued.NewEpisode | jellypy/activity_handler.py:431-450 | a created episode or track is queued and leads back to its show or artist, is filed under its season or album and that under the show or artist, whose job is due the delay later; nothing else changes |
| RecentlyQueued.NewSeason | jellypy/activity_handler.py:452-465 | a created season or album is filed under its show or artist, whose job is due the delay later; nothing else changes |
| RecentlyQueued.NewRoot | jellypy/activity_handler.py:467-480 | a created movie, show or artist is queued with what is filed under it, and its job is due the delay later; nothing else changes |
| RecentlyQueued.DeletedItem | jellypy/activity_handler.py:491-500 | a deleted item that is queued with nothing filed under it leaves the queue with its job |
| RecentlyQueued.OtherEvent | jellypy/activity_handler.py:407-500 | no other event changes queue or jobs |
| RecentlyQueued.RunQueuesExactly | jellypy/activity_handler.py:407-500 | after every run the queue holds exactly the items that wait, told from the events, with the waiting items below each; there is a job for exactly the roots that wait, due the delay after the last creation in its tree |
| RecentlyQueued.CreatedIsQueued | jellypy/activity_handler.py:429-480 | an item created since its tree's timer last fired and not deleted since is queued or filed, and that timer is due the delay after the last creation in the tree |
| RecentlyAdded.TimelineHandler.ClearRecentlyAdded | jellypy/activity_handler.py:635-662 | the lookup fails exactly when the key is not queued; otherwise the calls are exactly those the two grouping flags and the numbers of children ask for, every queued leaf under the key is covered by exactly one, and what is reachable is deleted |
| RecentlyAdded.TimelineHandler.AnnounceChild | jellypy/activity_handler.py:644-656 | one child's calls are one for all its children if they are grouped and several, one for each otherwise, and one for itself if it has none; they cover its leaves once and nothing else |
| StableSort.SortedContents | jellypy/datafactory.py:1020-1020 | sorting permutes |
| StableSort.SortedChain | jellypy/helpers.py:699-704 | stability: an order found between earlier and later elements still orders the ties |
| StableSort.ChainIsUnique | jellypy/helpers.py:699-704 | at most one arrangement is in a strict order |
| MostConcurrent.CalcMostConcurrent | jellypy/datafactory.py:1010-1044 | the loop computes the fold of the sweep's step over the sorted keys |
| MostConcurrent.SortByTime | jellypy/datafactory.py:1016-1020 | where the text keys compare as the times do, sorting them is sorting by time with stops before starts |
| MostConcurrent.SortExact | jellypy/datafactory.py:1016-1020 | the sort of the text keys is the sort by time if and only if the keys of the events compare as their times do |
| MostConcurrent.SweepInvariant | jellypy/datafactory.py:1031-1042 | at every event the count is the running sum and the window is the last one that reached the best count |
| MostConcurrent.SweepFindsPeak | jellypy/datafactory.py:1010-1044 | where the keys agree with the times, the count is the maximum overlap over all instants; every instant of the window has it and no later one |
| MostConcurrent.SweepFindsPeakAtOneWidth | jellypy/datafactory.py:1010-1044 | the same for all times with the same number of digits |
| MostConcurrent.MixedWidthsMislead | jellypy/datafactory.py:1016-1020 | a row whose times differ in length, whose keys do not agree with them, and which the sweep does not count |
| KeyRemap.DataFactory.UpdateMetadata | jellypy/datafactory.py:2004-2104 | the loop over the mapping leaves the tables as the pairs in turn do |
| KeyRemap.InTurnProgress | jellypy/datafactory.py:2012-2101 | after any part of the mapping each key of each row is written exactly when its old key was among the pairs at that level |
| KeyRemap.SimultaneousSubstitution | jellypy/datafactory.py:2012-2101 | from empty touched sets the updates are one substitution per level, for every mapping with swaps, chains and cycles, in every order |
| KeyRemap.WrittenStays | jellypy/datafactory.py:2004-2032 | rows touched by an earlier update keep their keys in a later one |
| KeyRemap.TablesStayInStep | jellypy/datafactory.py:2076-2101 | session_history and session_history_media_info go on agreeing on rating_key |
| KeyRemap.OrderIsIrrelevant | jellypy/datafactory.py:2012-2101 | both tables come out the same in every order of the pairs |
| KeyRemap.MetadataProgress | jellypy/datafactory.py:2036-2104 | after any part of the mapping each metadata key is what the row's own item pair or the later of it and the show or season pair wrote |
| KeyRemap.MetadataOrderExact | jellypy/datafactory.py:2036-2104 | session_history_metadata comes out the same in every order of the pairs if and only if the server files each rewritten item under the show and season that the mapping says |
| KeyRemap.MetadataDependsOnOrder | jellypy/datafactory.py:2036-2104 | one row on which the two orders of a mapping give different metadata |
| HistoryGrouping.ActivityProcessor.WriteSessionHistory | jellypy/activity_processor.py:317-389 | a written session is appended with the reference the rules give it, and no other row changes |
| HistoryGrouping.ActivityProcessor.FindReference | jellypy/activity_processor.py:333-380 | the queries and the condition as they stand give the reference of the rules, which the run lemmas below characterise |
| HistoryGrouping.RunIsGrouped | jellypy/activity_processor.py:317-389 | after any sessions every reference is the id of a row of the same user, not newer, that refers to itself |
| HistoryGrouping.RunKeepsGroups | jellypy/activity_processor.py:317-389 | without live sessions a group is one unbroken stretch of a user's rows for one item, playing forward, all but the last below the watched percent |
| HistoryGrouping.RunKeepsNeighbours | jellypy/activity_processor.py:317-389 | two adjacent rows of a user for an item share a group if and only if the first is unwatched and the second goes on from it |
| HistoryGrouping.RunGroupsLive | jellypy/activity_processor.py:327-391 | after any sessions a live row and its user's row before it share a reference if and only if they have one guid, and a row with none to join refers to itself |
| HistoryGrouping.UnwatchedMeans | jellypy/helpers.py:585-594 | whether a row counts as watched, without division and rounding, for the percentage set for its kind of media |
| SessionPause.ActivityHandler.SetSessionLastPaused | jellypy/activity_processor.py:588-609 | every row of the session gets the counter and mark of the rule |
| SessionPause.ActivityHandler.Process | jellypy/activity_handler.py:273-347 | the checks and handlers as they stand give the table of the event's operations, which SessionEvents characterises |
| SessionPause.EventKeepsConsistent | jellypy/activity_handler.py:273-347 | every event keeps the rows of a session alike and a playing or stopped row without a pause |
| SessionPause.PlayingIsNotPaused | jellypy/activity_handler.py:90-106 | after any events at any clock readings a playing or stopped row has last_paused unset |
| SessionEvents.SameItemEvent | jellypy/activity_handler.py:309-340 | an event about the row's item begins or goes on with the pause at a pause, ends it at a stop or when a paused session plays again, and leaves it alone otherwise; it counts the seconds exactly then; and it writes state and time exactly in the cases listed |
| SessionEvents.NoRowEvent | jellypy/activity_handler.py:374-377 | an event that finds no row makes one in its state, with nothing paused, unless it is buffering or the server does not know the session |
| SessionEvents.OtherItemEvent | jellypy/activity_handler.py:342-347 | an event about another item ends and counts the pauses, and the new item gets a row if there is none for it |
| SessionEvents.PauseTells | jellypy/activity_handler.py:176-193 | a pause writes what the server says of the session into the rows of its item and leaves those of others |
| PauseAccounting.StepBalanced | jellypy/activity_processor.py:38-150 | every operation, session rewrites included, keeps the account of paused seconds |
| PauseAccounting.CounterIsPausedTime | jellypy/activity_processor.py:588-609 | counter plus running pause is the number of seconds between each first pause and the next resume or stop, plus the drift of repeated pauses |
| PauseAccounting.PlayTimeAtStop | jellypy/activity_handler.py:139-175 | at an unforced stop after any operations on a row the play time is the session's time without the paused seconds, which is not negative, short of the drift |
| PauseAccounting.NoDrift | jellypy/activity_handler.py:176-193 | the drift is zero if and only if the two clock readings of every repeated pause agree |
| PauseAccounting.DriftGrows | jellypy/activity_handler.py:176-193 | the drift is never negative |
| PauseAccounting.PlayTimeCanBeNegative | jellypy/activity_handler.py:139-193 | a second between the readings of one repeated pause makes the play time -1, whenever the session started |
| PauseAccounting.RunIsBalanced | jellypy/activity_handler.py:139-208 | the account is right after any run of events about one item |
| PauseAccounting.PlayTimeOfOperations | jellypy/activity_handler.py:139-208 | at the stop that ends any run of events about one item, the play time is the session's time without the paused seconds of its operations, short of the drift |
| PlayTime.EventTells | jellypy/activity_handler.py:273-340 | every event about the item keeps the row's pause and counter in step with the states and times of the events |
| PlayTime.RunTells | jellypy/activity_handler.py:273-377 | after every run about one item counter plus running pause is the number of seconds from each pause event to the next play or stop event, plus the seconds read twice |
| PlayTime.PlayTimeOfRun | jellypy/activity_handler.py:139-377 | at the stop that ends such a run the play time is the time from the first event to the stop without those seconds, which is not negative, short of those read twice; the row is stopped and no pause is left |
| MergeImport.Database.Merge | jellypy/database.py:110-203 | copying, shifting, inserting and deleting in the source's order of tables gives the merged tables |
| MergeImport.EveryContent | jellypy/database.py:180-200 | the merged history has the contents of both histories and no others |
| MergeImport.EachContentOnce | jellypy/database.py:188-200 | each content under one id, an existing one where there is one, and the row as it was |
| MergeImport.MergedRow | jellypy/database.py:110-203 | in each of the three tables a row of the merge is the existing row as it was, or the other database's row with its cells in the columns both have and NULL elsewhere, and is there exactly when its id is in the merged history |
| MergeImport.RowsStayTogether | jellypy/database.py:194-200 | the three rows of a surviving id come from one id of one database |
| MergeImport.ExistingByColumns | jellypy/database.py:189-200 | an existing row survives if and only if no existing row before it agrees with it in every common column |
| MergeImport.ImportedByColumns | jellypy/database.py:189-200 | an imported row survives if and only if no row before it in its database and no existing row agrees with it in every common column |
| MergeImport.ExistingSurvives | jellypy/database.py:189-200 | an existing row survives if and only if it is the first of its shared content in its own history, whatever is imported |
| MergeImport.ImportedSurvives | jellypy/database.py:189-200 | an imported row survives if and only if it is the first of its content in its database and the existing history lacks that content |
| MergeImport.SameIds | jellypy/database.py:194-196 | the three tables have the same ids afterwards if they had in both databases |
| MergeImport.ReferencesKept | jellypy/database.py:114-119 | surviving imported rows share a reference if and only if they did before, and never with an existing row |
| MergeImport.ReferenceResolves | jellypy/database.py:114-200 | the reference of a surviving imported row leads to the row it led to, and that row is still there if and only if in its own database it was the first of its content and the existing history lacks that content |
| MergeImport.ExistingReferenceResolves | jellypy/database.py:114-200 | the reference of a surviving existing row is untouched, and its row is still there if and only if it was the first of its content |
| MergeImport.DanglesExact | jellypy/database.py:197-200 | an imported row is left pointing nowhere if and only if it is first and new and the row of its reference is not |
| MergeImport.ReferenceCanDangle | jellypy/database.py:197-200 | two databases with which that happens |
| MergeImport.ExistingRowsCanBeLost | jellypy/database.py:189-200 | a database in which existing rows that differ only in an unshared column become one; when is in ExistingSurvives |
| TableSort.ProcessDatatableRows | jellypy/helpers.py:669-715 | the loops and sorts give the answer of the specification, and on its page the first order that tells two rows apart decides, the larger cell first exactly where it says desc, and otherwise the default column ascending |
| TableSort.AnswersExactly | jellypy/helpers.py:697-704 | the request goes through if and only if every order names a column, every found row has text in the default column, and the column of every order has only texts or only numbers |
| TableSort.AnswerFinds | jellypy/helpers.py:677-695 | the rows found are those that show the text sought, whatever its case, in a searched column, each once and in order; the counts are theirs and that of all rows |
| TableSort.AnswerInOrder | jellypy/helpers.py:697-707 | every page holds different found rows in the order of the request, ties in the order in which they were found |
| TableSort.AnswerIsStretch | jellypy/helpers.py:707-707 | a page is the stretch of all results from its start on, as long as asked for |
| TableSort.FoundExactly | jellypy/helpers.py:679-694 | the rows found are those with a matching cell in a searched column, each once, in order |
| TableSort.SortsLexicographically | jellypy/helpers.py:699-704 | sorting by the default and then by the orders reversed permutes the rows into the order by first order, second order, and so on to the default, each in its direction, ties as in the input |
| TableSort.OnlyArrangement | jellypy/helpers.py:699-704 | no other arrangement of the rows has that order |
| TableSort.PagesTile | jellypy/helpers.py:707-707 | consecutive pages put together are the whole |
| TableSort.AllRowsButTheLast | jellypy/helpers.py:707-707 | the page of length -1 from the start lacks the last row |
| ExportAttrs.AttachedPresent | jellypy/helpers.py:1508-1517 | attaching an item at a path adds exactly the paths the projection selects below it |
| ExportAttrs.DictMerge | jellypy/helpers.py:1505-1518 | merging a projection changes only the result's own dictionaries, and adds exactly the paths it selects, though parts of the tree are shared |
| ExportAttrs.GetByPath | jellypy/helpers.py:1486-1488 | follows the keys, and fails for an unknown key or a key of a leaf |
| ExportAttrs.GetDictValueByPath | jellypy/helpers.py:1496-1501 | a chain of new dictionaries down to the tree's own value |
| ExportAttrs.GetExportAttrs | jellypy/exporter.py:1880-1889 | the result has exactly the paths comparable with a selected path that leads somewhere; nothing that existed before is written |
| ExportAttrs.ExportIsPruned | jellypy/exporter.py:1880-1889 | reading the result along any path gives what the tree gives if the path is above or below a selected one, and nothing otherwise |
| ExportAttrs.OrderIsIrrelevant | jellypy/exporter.py:1880-1889 | two results for the same paths in any order read the same |
| FlattenRows.FlattenTreeFields | jellypy/helpers.py:1454-1477 | the loop over a dictionary computes its rows or fails |
| FlattenRows.FlattenTreeItems | jellypy/helpers.py:1454-1463 | the loop over a list computes its rows or fails |
| FlattenRows.RowsCount | jellypy/helpers.py:1454-1482 | flattening succeeds if and only if every dictionary-valued field has one row, and gives the sum over a list and the longest list of a dictionary |
| FlattenRows.NoLeafIsLost | jellypy/helpers.py:1438-1482 | the rows hold every value under its path as often as the object does, and nothing else |
| FlattenOrder.DictionaryRow | jellypy/helpers.py:1465-1477 | row n of a dictionary holds under each field's path exactly row n of that field, values and dictionaries being in the first row, and nothing else |
| FlattenOrder.ListRows | jellypy/helpers.py:1454-1463 | the rows of a list are those of its elements one after the other |
| TimedLock.RunFromIsValid | jellypy/lock.py:46-82 | every interleaving of steps keeps one holder, the times due, the order of the queue and the account of snoozes |
| TimedLock.OneAtATime | jellypy/lock.py:46-71 | two threads are never inside at once |
| TimedLock.EntryIsDue | jellypy/lock.py:46-64 | an entry comes no earlier than the interval and the queued times it slept after the last use |
| TimedLock.EntriesSpan | jellypy/lock.py:24-64 | N entries span at least N - 1 intervals and the snoozes of the entries after the first |
| TimedLock.EntriesTake | jellypy/lock.py:46-71 | from any state in which the lock is free, in every interleaving, N more entries take N - 1 intervals and what is left of the running one |
| TimedLock.BoundIsReached | jellypy/lock.py:46-71 | from every idle state, at any clock and with any queued times that are not negative, and for every N there is a schedule with N more entries that needs no more than the bound and exactly the queued times |
| TimedLock.PromiseExact | jellypy/lock.py:24-71 | the documented N intervals for N threads hold from an idle state if and only if there is no interval or the clock is not past the last use |
| TimedLock.FreshLockBreaksPromise | jellypy/lock.py:24-44 | a fresh lock with an interval and a clock past 0 never keeps them |
| TimedLock.SnoozesAreConserved | jellypy/lock.py:57-82 | snoozes are taken once and in order, their seconds are those waited, taken or queued, and the queue is never empty when one is fetched |
| TimedLock.FailureExact | jellypy/lock.py:57-64 | in every run a thread has failed if and only if a negative snooze was taken |
| TimedLock.FailureIsReached | jellypy/lock.py:46-82 | at any clock a negative snooze that is put first makes the first thread fail |
| TimedLock.FailureIsForever | jellypy/lock.py:57-71 | once a thread has failed the lock is held for ever and nobody enters |
| TimedLock.TimedLock.Fetch | jellypy/lock.py:58-61 | taking a snooze in place is the step of the machine |
| TimedLock.TimedLock.Exit | jellypy/lock.py:66-71 | leaving sets the time of the last use |

## Left out

- ConditionGrouping.WellNestedMeaning: one direction only; the grouping is characterised both ways by GroupingExact, but an expression that is grouped otherwise can still evaluate right for some or all assignments.
- PauseAccounting.PlayTimeOfOperations: unforced stops; `on_stop(force_stop=True)` moves the counter and not `stopped`, so the bound does not hold there.
- HistoryGrouping.RunKeepsGroups: tables from which no row is deleted, items with a fixed duration and media type, and no live rows.
- ExportAttrs.GetExportAttrs: merges each projection when it is made, where the source first collects them all; a projection reads only the tree, which no merge changes. The choice of the paths by level and by custom field is not modelled.
- MostConcurrent.SweepFindsPeak: times whose text keys compare as they do; the sweep can also be right with others.
- TableSort.ProcessDatatableRows: which exception is raised, and cells that are neither text nor numbers nor None. Lower case is that of the letters A to Z.
- MergeImport.Database.Merge: the other tables, the `section_id` migration for old versions, and an import without a shared column, which SQLite refuses.
- FlattenRows.NoLeafIsLost: lists directly inside lists, and keys with dots; paths are lists of keys.
- TimedLock.EntryIsDue: the clock does not go back.
- TimedLock.BoundIsReached: an interval that is not negative.
- PlayTime.PlayTimeOfRun: runs about one item in which the clock does not go back, ending in an unforced stop of a row that is not stopped.
- HistoryGrouping.UnwatchedMeans: durations that are not negative.
- FlattenOrder.DictionaryRow: dictionaries with distinct keys.
- KeyRemap.MetadataOrderExact: empty touched sets, as for one call of the remap.
- RecentlyAdded.RunNeverLeaks: a library whose items form a forest, keys that are not None, and metadata lookups that succeed.
- `get_pairs` of the remap (datafactory.py:1986-2002): it turns two server listings into the mapping the model starts from.
- Tokenising of the condition string and its text form; the model starts from tokens. Python's recursion limit.
- Removal of a session after its history is written: `delete_session(row_id=...)` takes its other branch and deletes nothing.
- SQL text, locking and retries, HTTP and websocket calls, the scheduler, notifications, logging, configuration and the user interface; tables are maps or sequences of rows, jobs a map from key to due time, and the clock, the server's answers and the order of set iteration are parameters.
- Fields of rows that no rule reads.
- Log tailing, graph series, duration formatting, schema upgrades, newsletters: easy, or data only.
