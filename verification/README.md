# Open Videocore: proved behaviour of the operations UI

A Dafny model of the state machines and text transformations behind the
operations UI of Open Videocore, with the properties they are there for proved
over every input, every interleaving and every run. `dafny verify dfyconfig.toml`
checks the whole project.

## How the model is built

Code that changes state step by step is a class with the source's fields
(`MediaElement`, `OpsTableState`, the three `Table`s, `DebouncedBox`, `TagsPanel`,
`ExternalIdsPanel`, `DraftMap`, `InMemoryCommentRepository`). An asynchronous
function becomes one method up to its `await` and one for the rest, so any number
of unfinished calls can be interleaved. Beside each class a datatype says what an
observer sees (`Model`, `State`) and a function `Step` says what one event does to
it; every method is proved to take exactly that step, and where several handlers
share an element or a table a `Replay` method takes whole event lists. The theorems
are about `Run`, the fold of `Step` over any list of events. Loops of the source are
loops here, each proved against a function.

What the code calls but does not own is a parameter: the URL parser's answer to
"is this a bearer-gated path", `Date.parse`, `toLowerCase`, `JSON.stringify`, the
server's successor cursor, every fetch outcome, minted ids and the clock.

| file | what it models |
|---|---|
| `MediaSrc.dfy` | which of several open calls may write one media element's address |
| `PagerStore.dfy` | sort, filters, offset paging and cursor paging with its back-stack |
| `AssetsTable.dfy`, `AuditTable.dfy`, `LogsTable.dfy` | three re-entrancy guards over that store |
| `Signature.dfy`, `FilterBox.dfy`, `AssetsRequest.dfy` | the text that tells requests apart, the debounced boxes, the request made |
| `JobsTable.dfy` | filter, stable sort and page on the client |
| `FilterGrammar.dfy`, `HtmlEscape.dfy`, `UriPath.dfy` | transformations that undo each other |
| `AssetTags.dfy`, `ExternalIds.dfy`, `CollectionEdit.dfy` | edits against a server with fixed semantics |
| `CommentDrafts.dfy`, `CommentRepo.dfy` | the bounded draft map, the comment repository |
| `DisplayFormat.dfy` | byte counts and clock readings |
| `Sequences.dfy`, `Ordering.dfy`, `Text.dfy` | filtering, splitting, stable sorting, `trim` |

## Where the code does not do what it is for

Each of these is a lemma: the exact condition under which the code keeps its
promise, and where a run shows more, that run.

- "The last call wins" holds for a media element if and only if no error fires
  between the start of the last call and its loadable answer (`ShownExactly`); an
  `error` of the previous picture then aborts the next one, as the source's own
  comment warns (`PredecessorErrorAbortsSuccessor`).
- The state store floors a configured page size strictly between 0 and 1 to 0, and
  Next then reports success and never moves (`PageSizeUsable`, `ZeroPageSizeSticks`).
  The tables all pass whole sizes; only another caller of the store can meet this.
- An explicit reload of the assets table is dropped when a load for the very same
  state is open, no re-run is queued and nothing different is asked for before its answer
  (`ReloadDroppedExactly`); the audit table drops none (`ReloadNeverDropped`).
- A link whose search, tag or metadata text has a line break inside makes the assets
  table ask for the text with the break while the box shows it without, until the
  box is used (`BoxesToRows`); `q=a%0Ab` is one (`SeedWithABreak`).
- The logs table stays in step with its controls if and only if nothing that is
  being asked for is changed while a load is open (`InStepExactly`,
  `DroppedExactly`, `ChangeInFlightIsLost`), and its cursor chain survives such a
  change only if the answer happens to fit the page now shown
  (`ChainSurvivesExactly`): after Previous during a load, Next skips a page
  (`PreviousInFlightSkipsAPage`). The answer to a
  deep link is recorded as the first page's, so the chain holds afterwards only if
  the linked page's successor happens to be the first page's too
  (`DeepLinkChainExactly`); Next and Previous from a deep link end on the first page,
  although the comment above the code says a shared page is restored
  (`DeepLinkIsNotRestored`), and the linked page is not asked for again until some
  answer brings its cursor (`DeepLinkIsAskedOnce`).
- A refresh of the jobs table keeps the offset: with fewer matches than that it
  shows an empty page, and no pager to leave it by, while jobs match
  (`JobsTable.Table.EndFetch`).
- A shared assets link carries the page, but the table opens on the first one
  (`LinkReproducesExactly`).
- The tag panel refuses `.` and `..` because their paths address something else
  (`ReservedTagLandsElsewhere`). The external-identifier panel has no such guard,
  and the removal of a pair with a dot component goes elsewhere
  (`DetachPathAddresses`, `DotPairLandsElsewhere`). Most such paths have no route, so
  the removal fails and is reported as failed; where the path does answer, "updated"
  is reported while the old pair is still there (`ReportedEditIsTrueExactly`). The
  pair `..`, `lock` is one: its removal goes to the asset's delete lock, whose DELETE
  answers 200 (`LockPairLandsOnTheLock`, src/routes/assets.ts:8395-8411).
- Opening an external identifier that holds a line break and saving it unedited adds
  it without the break and removes the original (`ExternalIds.UneditedSendsNothingExactly`).
- The list of external identifiers is left behind the server by an add that failed
  without a re-read but was applied, and by a re-read that another operation
  overtook; by nothing else (`OutOfSyncExactly`).
- Saving a collection unedited sends a body when it was stored in a form this
  editor would not have stored (`CollectionEdit.UneditedSendsNothingExactly`). That includes line
  breaks, which the form's boxes cannot hold: a custom value with a line break loses
  it whenever the collection is saved, whichever row was edited
  (`UntouchedKeepsExactly`, `RetypedRowChangesOnlyItself`).
- The comment listing follows insertion order only while the clock and ids do
  (`InsertionOrderExactly`).

## Model

| member | source | states |
|---|---|---|
| MediaSrc.MediaElement.constructor | public/media-src.js:256 | a fresh element has no owner, no listener and no calls |
| MediaSrc.LoadableExactly | public/media-src.js:174-177 | exactly the http and https addresses, in whatever case, that are no bearer-gated stream paths can be loaded |
| MediaSrc.MediaElement.Release | public/media-src.js:354-360 | only the owner can give the element up, and it takes its listener along |
| MediaSrc.MediaElement.AssignMediaSrc | public/media-src.js:207-212 | the address is written exactly when it is loadable, and a media parent is told |
| MediaSrc.MediaElement.ClearMediaSrc | public/media-src.js:235-240 | the address is gone, and a media parent is told |
| MediaSrc.MediaElement.ReselectParent | public/media-src.js:220-223 | the parent reloads exactly for a source inside a media element |
| MediaSrc.MediaElement.Fail | public/media-src.js:366-394 | a failure acts only for the latest unfailed call and only while its own address, or none, is on the element |
| MediaSrc.MediaElement.Succeed | public/media-src.js:396-402 | the placeholder comes off and the success is reported once |
| MediaSrc.MediaElement.Apply | public/media-src.js:322-428 | a new call takes ownership, retires its predecessor's listener and, without a fetch, fails at once |
| MediaSrc.MediaElement.FetchAnswered | public/media-src.js:431-455 | an answer reaches the element only for the latest live call |
| MediaSrc.MediaElement.FetchRejected | public/media-src.js:431-438 | a rejection clears the element only for the latest live call |
| MediaSrc.MediaElement.FireError | public/media-src.js:410-412 | an error event fails at most the latest call |
| MediaSrc.MediaElement.WriteOutside | public/media-src.js:366-388 | anybody may repoint the element without asking |
| MediaSrc.MediaElement.Replay | public/media-src.js:322-456 | any interleaving takes the observed steps; one owner and one listener while the latest call has not failed, none otherwise |
| MediaSrc.OnlyTheLatestActs | public/media-src.js:366-394 | every recorded effect is the latest call's, and address or placeholder change only by a recorded effect or an outside write |
| MediaSrc.StepKeepsLogOk | public/media-src.js:326-402 | each step keeps the record ordered by call and the two latches honest |
| MediaSrc.EveryRunIsOrdered | public/media-src.js:326-402 | the same over every run |
| MediaSrc.CallbacksAndOrder | public/media-src.js:326-332 | once a newer call starts no older one acts; each callback fires at most once; no success follows the same call's failure |
| MediaSrc.SupersededLeaveNoTrace | public/media-src.js:440-446 | leaving out every settlement of a superseded call changes nothing about the element or its record |
| MediaSrc.WaitDecides | public/media-src.js:366-394 | until it is settled a call goes on waiting exactly while no newer call starts and no error fires |
| MediaSrc.ShownExactly | public/media-src.js:440-455 | a loadable answer is shown if and only if no newer call started and no error fired between the call and the answer, whatever else settles, writes or happens later |
| MediaSrc.LastCallWins | public/media-src.js:440-455 | such an answer is what the element ends up with, and late settlements take nothing of it away |
| MediaSrc.PredecessorErrorAbortsSuccessor | public/media-src.js:294-301 | the one known edge: an error anywhere in the wait leaves the element empty and reported failed, and the later good answer unshown |
| MediaSrc.EveryFailureTearsDown | public/media-src.js:366-438 | no fetch, a rejected fetch, an answer without a loadable address and an error each leave no address, the placeholder on and the failure reported |
| MediaSrc.ErrorHitsExactly | public/media-src.js:366-394 | an error of a shown address tears the element down if it is still the address there, and otherwise changes nothing |
| MediaSrc.ErrorAfterShown | public/media-src.js:366-412 | from the shown address to the next call, over any events: the address goes, the placeholder returns and the failure is reported if and only if an error fires while the address is still the one assigned; otherwise the element shows what was written last |
| MediaSrc.ParentIsTold | public/media-src.js:207-240 | over every run a media parent is reloaded right after every change of the address, and at no other time |
| PagerStore.OpsTableState.constructor | public/ops-ui-table.js:104-130 | the store starts on the first page with the resolved page size and no total |
| PagerStore.OpsTableState.ResetPaging | public/ops-ui-table.js:203-212 | back to the first page, the last total kept |
| PagerStore.OpsTableState.ToggleSortColumn | public/ops-ui-table.js:168-177 | a column goes none, ascending, descending, none; a new column starts ascending; the first page is shown |
| PagerStore.OpsTableState.SetOneFilter | public/ops-ui-table.js:181-189 | an empty value removes the filter; the first page is shown |
| PagerStore.OpsTableState.SetAllFilters | public/ops-ui-table.js:191-201 | exactly the non-empty values become the filters; the first page is shown |
| PagerStore.OpsTableState.SetInfo | public/ops-ui-table.js:223-232 | a total is recorded in one mode, a next cursor in the other |
| PagerStore.OpsTableState.Next | public/ops-ui-table.js:239-260 | moves exactly when a next page is known |
| PagerStore.OpsTableState.Prev | public/ops-ui-table.js:234-273 | moves exactly when there is a page to go back to |
| PagerStore.OpsTableState.Do | public/ops-ui-table.js:133-136 | subscribers are told of every operation but a refused page turn |
| PagerStore.TogglesCycle | public/ops-ui-table.js:168-177 | three clicks on a column come back to where the sort was, or to none from another column |
| PagerStore.FiltersUndo | public/ops-ui-table.js:181-201 | a filter set and put back, or all filters set to what they are, only shows the first page again |
| PagerStore.ChangesShowTheFirstPage | public/ops-ui-table.js:168-217 | after any change of sort or filters, and a reset, the offset is 0, there is no cursor, nothing to go back to and nothing known ahead, and the last total stays |
| PagerStore.FiltersReadBack | public/ops-ui-table.js:181-201 | a filter reads as what it was set to and every other as before; none is ever stored blank |
| PagerStore.PageInfoDecidesNext | public/ops-ui-table.js:223-260 | after an answer there is a next page exactly while rows remain or a cursor came, and Next goes to that cursor |
| PagerStore.TurnsExactly | public/ops-ui-table.js:247-273 | by offset a turn goes one page on, or back as far as the first; by cursor nothing is known ahead until the next answer, and the way back grows or shrinks by one page |
| PagerStore.PageSizeUsable | public/ops-ui-table.js:107-109 | the resolved page size is the whole part of a positive configured one and 20 otherwise; it is at least 1 if and only if the configured one is not strictly between 0 and 1 |
| PagerStore.ZeroPageSizeSticks | public/ops-ui-table.js:247-251 | with page size 0 Next succeeds and stays |
| PagerStore.OffsetStep | public/ops-ui-table.js:203-273 | every operation keeps the offset a multiple of the page size |
| PagerStore.OffsetOverRuns | public/ops-ui-table.js:203-273 | so does every run |
| PagerStore.OffsetTurnsUndo | public/ops-ui-table.js:247-273 | Previous undoes Next; Next undoes Previous exactly when the page left still starts within the total; the index counts pages |
| PagerStore.WalkVisitsAll | public/ops-ui-table.js:239-260 | pressing Next until it is refused shows every remaining row once, in order |
| PagerStore.SearchPageIsWindow | public/assets-table.js:488 | the search tier's page names the same rows as limit and offset, for every list, exactly on page boundaries |
| PagerStore.ChainStep | public/ops-ui-table.js:223-273 | an operation with an honest answer keeps the trail the server's chain |
| PagerStore.ChainOverRuns | public/ops-ui-table.js:203-273 | over every run with answers for the current page, the back-stack and cursor are the server's chain from the first page |
| PagerStore.ChainIsIndex | public/ops-ui-table.js:153-158 | every page of the trail is the one its position says |
| PagerStore.CursorIsPageIndex | public/ops-ui-table.js:153-158 | the cursor is the page the page index names, in every such run |
| PagerStore.CursorTurnsUndo | public/ops-ui-table.js:247-273 | Next, any answer, Previous restores the page and the way back |
| Signature.SortedKeys | public/assets-table.js:554-566 | every filter name once, none else |
| Signature.SortedKeysSorted | public/assets-table.js:554-566 | the names come in increasing order |
| Signature.SignatureFaithful | public/assets-table.js:554-566 | two states have one signature exactly when direction, filters, offset and page size are equal and so are the sort columns, unless there is none in either, by whatever order the filters were set |
| AssetsTable.Table.constructor | public/assets-table.js:1535-1551 | mounting opens the first load |
| AssetsTable.Table.BeginReload | public/assets-table.js:1586-1598 | a reload starts a load, is ignored, or is queued, by the signatures alone |
| AssetsTable.Table.OperateControl | public/assets-table.js:1761-1766 | every store change asks for a reload |
| AssetsTable.Table.SettleLoad | public/assets-table.js:1599-1625 | the outcome is rendered, the load ends, a queued one begins |
| AssetsTable.Table.Replay | public/assets-table.js:1535-1625 | the table takes the observed steps over any event list |
| AssetsTable.StepKeepsCoherent | public/assets-table.js:1586-1625 | while loading, the state is the loading one or a re-run is queued |
| AssetsTable.RenderedIsCurrent | public/assets-table.js:1535-1625 | the same over every run |
| AssetsTable.MountedRunsAreCurrent | public/assets-table.js:1535-1625 | whenever no load is open, the rendered rows or error were fetched for the store's own filters, offset, page size, sort direction and sort column; there is at least one fetch and at most one more than requests |
| AssetsTable.RendersTheAnswer | public/assets-table.js:1599-1618 | what is rendered is what the open load's own answer brought, its total is recorded, and nothing else changes it |
| AssetsTable.LoadsAreBounded | public/assets-table.js:1586-1625 | a run adds at most as many fetches as it has requests: none for the load's own bookkeeping |
| AssetsTable.TwoAnswersSettle | public/assets-table.js:1619-1624 | once input stops two answers bring the table to rest |
| AssetsTable.QueuedExactly | public/assets-table.js:1587-1594 | between answers a re-run is queued if and only if one was or something asked for a state other than the open load's |
| AssetsTable.ReloadDroppedExactly | public/assets-table.js:1587-1624 | whatever happens before the next answer, an explicit reload gets a later fetch if and only if no load was open, one was queued, or the call or something after it asked for another state |
| FilterBox.DebouncedBox.constructor | public/assets-table.js:640-653 | the box shows its seed without line breaks, and the trimmed seed counts as handed over |
| FilterBox.DebouncedBox.Cancel | public/assets-table.js:690-695 | no timer is left |
| FilterBox.DebouncedBox.SendNow | public/assets-table.js:702-706 | the trimmed text is handed over and no timer is left |
| FilterBox.DebouncedBox.Handle | public/assets-table.js:711-750 | typing, the timer, Enter, blur and clear take the observed step; at most one timer is ever armed |
| FilterBox.Wire | public/ops-ui-table.js:181-189 | what the box hands over becomes its filter and a request |
| FilterBox.StepKeepsCoherent | public/assets-table.js:683-752 | each event keeps every filter what its box handed over, and any use of a box makes the box agree |
| FilterBox.RunKeepsCoherent | public/assets-table.js:683-752 | so does every run in which only boxes write their filters; an unused box stays as seeded |
| FilterBox.BoxHoldsTheText | public/assets-table.js:711-750 | over any run the box holds what was typed last, and nothing once it is cleared |
| FilterBox.RhythmsExactly | public/assets-table.js:702-750 | typing waits unless it empties the box; the timer and clearing tell the table at once, Enter and blur exactly when it was not told; it is told the trimmed text |
| Text.TrimStripped | public/assets-table.js:640-653 | a box trims to what its seed trims to if and only if the trimmed seed is on one line |
| FilterBox.BoxesToRows | public/assets-table.js:683-752 | whenever no timer waits and no load is open, the rows were fetched for exactly the trimmed text of the box, if and only if its trimmed seed was on one line or it has been used |
| FilterBox.SeedWithABreak | public/assets-table.js:640-653 | for a link with a line break in its text, the first rows and the box disagree |
| FilterBox.OutsideFilterAgreesExactly | public/ops-ui-table.js:191-201 | after all filters are replaced from outside, rows and box agree if and only if the new text is the one the box shows |
| AssetsRequest.BuildRequest | public/assets-table.js:468-528 | the parameter list is built with `set`, which never overwrites one of the request's own |
| AssetsRequest.SetParamExactly | public/assets-table.js:487-511 | setting a parameter leaves one entry of its name, with the value, and all others as they were |
| AssetsRequest.RequestSends | public/assets-table.js:468-528 | each control's value goes out under its own name, and the search tier is asked exactly when there is a search text, a tag or a pair |
| AssetsRequest.SentDetermines | public/assets-table.js:468-528 | the path and parameters sent determine the request: numbers, joined tags and `metadata.` names read back |
| AssetsRequest.RequestCarriesExactly | public/assets-table.js:468-528 | two states send the same path and parameters if and only if they agree on search text, tags, pairs, exact filters and window: nothing is dropped or added |
| AssetsRequest.RowsAreTheWindow | public/assets-table.js:468-528 | on a page boundary both tiers are asked for the rows of the store's window |
| AssetsRequest.TiersAgreeOnTheWindow | public/assets-table.js:468-528 | the same in every state a run of the store reaches |
| AssetsRequest.LinkReproducesExactly | public/assets-table.js:1562-1584 | a shared link reproduces the request if and only if it was made on the first page; its filters always survive |
| AuditTable.Table.constructor | public/audit-table.js:590-645 | mounting opens the first load |
| AuditTable.Table.BeginReload | public/audit-table.js:601-607 | a reload starts a load or is queued |
| AuditTable.Table.BeginRequested | public/audit-table.js:601-607 | every request counts, and none is dropped |
| AuditTable.Table.OnEmit | public/audit-table.js:640-643 | the table's own emit asks for nothing, any other does |
| AuditTable.Table.OperateControl | public/audit-table.js:640-643 | every store change asks for a reload |
| AuditTable.Table.SettleLoad | public/audit-table.js:608-637 | the outcome is rendered, the load ends, a queued one begins; its own bookkeeping asks for nothing |
| AuditTable.Table.Replay | public/audit-table.js:601-643 | the table takes the observed steps over any event list |
| AuditTable.StepKeepsCoherent | public/audit-table.js:601-637 | the open load covers every request so far or a re-run is queued |
| AuditTable.EveryRequestIsServed | public/audit-table.js:601-637 | the same over every run |
| AuditTable.MountedRunsAreServed | public/audit-table.js:601-643 | whenever no load is open, what is rendered came from a load begun at or after the last request, for the store's own sort, filters, offset and page size; loads are at most requests |
| AuditTable.RendersTheAnswer | public/audit-table.js:610-629 | what is rendered is what the open load's own answer brought, its total is recorded, and nothing else changes it |
| AuditTable.LoadsAreBounded | public/audit-table.js:615-637 | the self-emit neither starts nor queues a load |
| AuditTable.ReloadNeverDropped | public/audit-table.js:601-607 | every reload call is answered by a later fetch |
| AuditTable.TwoAnswersSettle | public/audit-table.js:630-636 | once input stops two answers bring the table to rest |
| LogsTable.Table.constructor | public/logs-table.js:523-530 | mounting opens a load that honours the URL's cursor |
| LogsTable.Table.BeginReload | public/logs-table.js:565-578 | an open load swallows the request; the URL's cursor goes into the first one only |
| LogsTable.Table.OperateControl | public/logs-table.js:611-613 | every store change asks for a reload |
| LogsTable.Table.SettleLoad | public/logs-table.js:586-607 | the outcome is rendered, the next cursor recorded against the store's current page, the empty verdict updated |
| LogsTable.Table.Replay | public/logs-table.js:565-613 | the table takes the observed steps over any event list |
| LogsTable.ChangeInFlightIsLost | public/logs-table.js:565-567 | a filter changed during the first load comes to rest on rows of the old filters |
| LogsTable.InStepExactly | public/logs-table.js:565-607 | an event leaves rows, request and cursor chain in step if and only if it does not move the store off an open load |
| LogsTable.WaitingRunsStayInStep | public/logs-table.js:565-607 | so does every run without such an event |
| LogsTable.MountedWaitingRuns | public/logs-table.js:523-607 | such a run from the mount shows the rows of the store's own sort, filters and cursor, on the page its index names |
| LogsTable.RendersTheAnswer | public/logs-table.js:586-606 | what is rendered is what the open load's own answer brought, and nothing else changes it |
| LogsTable.PagesTellExactly | public/logs-table.js:285-291 | rows tell that something was written, an empty page that nothing was if its request had no cursor, time range or search text, anything else nothing |
| LogsTable.DroppedExactly | public/logs-table.js:565-567 | the rendered rows are current after an operation and an answer if and only if no load was open or nothing asked for changed |
| LogsTable.ChainSurvivesExactly | public/logs-table.js:586-593 | after an operation during a load and the server's own answer the cursor chain holds if and only if the operation moved nothing, or the answer failed, brought no cursor, or brought the one that follows the page now shown |
| LogsTable.PreviousInFlightSkipsAPage | public/logs-table.js:586-593 | Previous during a load, on any page, makes Next skip a page, with every answer the server's own |
| LogsTable.DeepLinkIsNotRestored | public/logs-table.js:516-530 | Next and Previous from a deep link end on the first page, whatever Next's load comes to |
| LogsTable.DeepLinkChainExactly | public/logs-table.js:516-593 | after a deep link's own answer the cursor chain holds if and only if the answer failed, brought no cursor, or brought the one that follows the first page |
| LogsTable.DeepLinkIsAskedOnce | public/logs-table.js:516-530 | after the first request no run asks for the deep-linked page again as long as no answer brings its cursor |
| LogsTable.EmptyVerdictIsSound | public/logs-table.js:585-600 | "nothing was ever logged" is only said when nothing had been at the start of the last conclusive load, in every run, entries logged while a load is open included |
| JobsTable.CriteriaAreIndependent | public/jobs-table.js:198-222 | filtering by all criteria is filtering by each in turn, and an empty filter keeps every job |
| JobsTable.StatusFilterExactly | public/jobs-table.js:200-211 | a status filter keeps exactly the jobs in one of its non-empty statuses, and every job when it names none |
| JobsTable.BoundsExactly | public/jobs-table.js:201-216 | a start date keeps exactly the jobs created at or after it, an end time those at or before it; a date the parser rejects bounds nothing |
| JobsTable.SearchFindsExactly | public/jobs-table.js:181-222 | a search keeps exactly the jobs in whose id, asset id or name the trimmed text occurs in lower case, however it was typed |
| JobsTable.EndDateIsInclusive | public/jobs-table.js:202-218 | a bare end date of the calendar keeps exactly the jobs created on that day or before; one the parser rejects bounds nothing |
| JobsTable.BareDateExactly | public/jobs-table.js:207 | a bare date is four digits, two and two, with hyphens between |
| JobsTable.FilterSortCommute | public/jobs-table.js:198-247 | filtering and sorting commute for every list, filter and sort |
| JobsTable.SortFacts | public/jobs-table.js:231-247 | the sort permutes, orders by the chosen key and direction, and is idempotent |
| JobsTable.SortsByTheNamedField | public/jobs-table.js:231-247 | a sortable column orders by its field in its direction, any other by creation time; without one the newest job comes first |
| JobsTable.EqualKeysKeepOrder | public/jobs-table.js:238-246 | jobs that share a key keep their order, in both directions |
| JobsTable.DecoratedStableSort | public/jobs-table.js:238-246 | the decorated sort carries each index along and breaks ties by it |
| JobsTable.EveryEngineSortsAlike | public/jobs-table.js:231-247 | whatever algorithm permutes the decorated list into the comparator's order, stripping it gives the one stable sort |
| JobsTable.MatchingExactly | public/jobs-table.js:678-691 | a job is in the rendered view exactly when it is in the working set and has the store's status, start date, end date and search text |
| JobsTable.MatchingIsSorted | public/jobs-table.js:688-691 | the view is in the order of the store's column, ascending exactly when the store says so; without a column the newest come first |
| JobsTable.PagesShowEveryMatch | public/jobs-table.js:678-701 | walking the pages shows every matching job once, in order |
| JobsTable.Table.constructor | public/jobs-table.js:664-701 | the first working set is rendered and counted |
| JobsTable.Table.RenderView | public/jobs-table.js:668-701 | the view is the current page of the matches and the total their number; a nested call does nothing |
| JobsTable.Table.OnEmit | public/jobs-table.js:789-791 | an emit re-renders unless it is the render's own |
| JobsTable.Table.OperateControl | public/jobs-table.js:789-791 | after every operation the rendered rows are the current page of the matches |
| JobsTable.Table.BeginFetch | public/jobs-table.js:720-721 | only a fetch that is not silent shows that it loads |
| JobsTable.Table.EndFetch | public/jobs-table.js:722-738 | a new working set is rendered with the offset kept, and its page is empty if and only if the matches no longer reach the offset; a failed fetch changes no row, a silent one nothing |
| JobsTable.Table.Replay | public/jobs-table.js:664-738 | over any run, overtaken fetches included, the rows are the current page of the working set that arrived last |
| FilterGrammar.ParseTagsFilter | public/assets-table.js:423-434 | the loop keeps each trimmed, non-empty part once, in order of first occurrence |
| FilterGrammar.ParsedTagsFacts | public/assets-table.js:423-434 | the tags are distinct, trimmed, free of commas, and exactly those some part trims to |
| FilterGrammar.TextReads | public/assets-table.js:423-457 | both grammars read a text part by part, the parts being what lies between its commas |
| FilterGrammar.TagsOfSnoc | public/assets-table.js:423-434 | one more part adds its trimmed text at the end unless that is blank or was there |
| FilterGrammar.CleanTagsRoundTrip | public/assets-table.js:1416 | every clean tag list is read back from its comma-join |
| FilterGrammar.TagsReparse | public/assets-table.js:1571 | parsing the comma-join of what any text parsed to gives it again |
| FilterGrammar.ParseMetadataFilter | public/assets-table.js:444-457 | the loop keeps the first pair of every key |
| FilterGrammar.PairReads | public/assets-table.js:448-453 | only the first `=` splits a part, both sides are trimmed, and a part without one or with a blank key is none |
| FilterGrammar.MetadataSnoc | public/assets-table.js:444-457 | one more part adds its pair at the end unless the key was there: the first pair of a key wins |
| FilterGrammar.CleanPairRoundTrip | public/assets-table.js:1572-1574 | a pair is read back from `key=value`, whatever `=` its value holds |
| FilterGrammar.CleanPairsRoundTrip | public/assets-table.js:1417 | every clean pair list is read back from its printed comma-join |
| FilterGrammar.MetadataReparse | public/assets-table.js:1572-1574 | printing and re-parsing what any text parsed to gives it again |
| HtmlEscape.PassesAreSimultaneous | public/ops-ui-table.js:54-61 | the five passes equal one simultaneous substitution, for every string |
| HtmlEscape.NoMarkupSurvives | public/ops-ui-table.js:54-61 | no raw `<`, `>`, `"` or `'` is left |
| HtmlEscape.DecodeEscaped | public/ops-ui-table.js:54-61 | decoding the five entities recovers the input |
| HtmlEscape.EscapeFixesExactlyPlain | public/ops-ui-table.js:54-61 | exactly the texts without the five characters are left alone |
| UriPath.DecodeEncoded | public/asset-tags.js:404-428 | percent-decoding undoes percent-encoding, for every string |
| UriPath.LeftAloneExactly | public/asset-tags.js:404-428 | exactly the letters, the digits and nine marks are left as they are by percent-encoding |
| UriPath.LeadingDotsGo | public/asset-tags.js:187-202 | dot segments in front of a relative path are dropped |
| UriPath.EncodeInjective | public/asset-tags.js:426-428 | distinct strings have distinct encodings |
| UriPath.EncodedHasNoSlash | public/asset-tags.js:426-428 | an encoded component is one path segment |
| UriPath.EncodedDots | public/asset-tags.js:187-215 | encoding neither makes nor hides a dot segment |
| UriPath.DotSegmentGoes | public/asset-tags.js:187-202 | what dot-segment removal (section 5.2.4 of RFC 3986) does at a dot segment |
| UriPath.PrefixMoves | public/asset-tags.js:187-202 | ordinary segments pass through dot-segment removal |
| UriPath.SurvivesExactly | public/asset-tags.js:187-215 | a path survives dot-segment removal if and only if no segment is `.` or `..` |
| UriPath.PathSplits | public/asset-tags.js:404-428 | a path splits back into its segments |
| AssetTags.AcceptsExactly | public/asset-tags.js:372-397 | exactly the trimmed, non-empty, addressable, new tags of bounded length are accepted while the list has room, and keep it distinct and bounded |
| AssetTags.TagPathAddresses | public/asset-tags.js:404-428 | the tag path survives dot-segment removal if and only if neither value is reserved, and splits back into the asset and the tag |
| AssetTags.TagPathInjective | public/asset-tags.js:426-428 | distinct tags or assets have distinct paths |
| AssetTags.ReservedTagLandsElsewhere | public/asset-tags.js:187-215 | a removal of `.` would reach the tag collection, of `..` the asset itself |
| AssetTags.TagsPanel.constructor | public/asset-tags.js:706-735 | the panel starts on the asset's tags with nothing sent |
| AssetTags.TagsPanel.Add | public/asset-tags.js:856-887 | one POST for an accepted tag, nothing otherwise |
| AssetTags.TagsPanel.Remove | public/asset-tags.js:889-911 | one DELETE, never for a reserved tag or once retired |
| AssetTags.TagsPanel.Adopt | public/asset-tags.js:819-821 | the server's answer replaces the list |
| AssetTags.TagsPanel.Refresh | public/asset-tags.js:793-805 | a successful re-read replaces the list, a failed one keeps it |
| AssetTags.TagsPanel.HandleFailure | public/asset-tags.js:833-854 | 403 retires the controls; 404, 400 and 422 re-read |
| AssetTags.StepSendsWell | public/asset-tags.js:856-911 | each step sends only well-addressed requests |
| AssetTags.StepsExactly | public/asset-tags.js:845-911 | which events send what: an acceptable add one POST, an addressable removal one DELETE, a failure with 404, 400 or 422 one re-read; 403 ends the controls |
| AssetTags.ReadTagsExactly | public/asset-tags.js:337-343 | an answer is shown without its blank entries, in its order |
| AssetTags.EveryRequestReachesItsTag | public/asset-tags.js:856-911 | over any run every request reaches its resource and no reserved tag is added or removed |
| AssetTags.ListIsTheLastAnswer | public/asset-tags.js:726-728 | over any run the list is the server's last answer, never edited locally |
| AssetTags.ForbiddenIsForever | public/asset-tags.js:833-843 | once retired, no further add or remove is ever sent |
| AssetTags.RetiredAfter403 | public/asset-tags.js:845-854 | a 403 anywhere in a run has that effect on all of the rest |
| ExternalIds.DetachPathAddresses | public/external-ids.js:365-374 | the removal path reaches its pair if and only if nothing in it is a dot segment, and always splits back |
| ExternalIds.AcceptsExactly | public/external-ids.js:322-350 | exactly the pairs with both components given, within their bounds and not yet listed, unless it is the one being edited, are accepted |
| ExternalIds.DotPairLandsElsewhere | public/external-ids.js:365-374 | where the removal of a pair with a dot component goes instead |
| ExternalIds.LockPairLandsOnTheLock | src/routes/assets.ts:8395-8411 | the removal of the pair `..`, `lock` goes to the asset's delete lock |
| ExternalIds.ExternalIdsPanel.constructor | public/external-ids.js:772-782 | after its first read the panel shows what the server holds |
| ExternalIds.ExternalIdsPanel.SubmitForm | public/external-ids.js:898-929 | invalid and unchanged drafts send nothing, any other starts with the add, whatever else is open |
| ExternalIds.ExternalIdsPanel.ClickRemove | public/external-ids.js:840-984 | a removal asks for confirmation first |
| ExternalIds.ExternalIdsPanel.ConfirmSettles | public/external-ids.js:984-993 | it starts with the delete once confirmed, whatever has been redrawn meanwhile, and ends when declined |
| ExternalIds.ExternalIdsPanel.CallRefresh | public/external-ids.js:1010-1012 | the page may ask for a re-read at any time |
| ExternalIds.UneditedSendsNothingExactly | public/external-ids.js:468-482 | saving a pair unedited sends nothing if and only if it is on one line or what the boxes hold is not acceptable |
| ExternalIds.ExternalIdsPanel.ServerWrites | src/data/asset-repo.ts:1824-1885 | attaching appends if absent, detaching removes all equal entries |
| ExternalIds.ExternalIdsPanel.WriteSettles | public/external-ids.js:924-1003 | the delete follows only a successful add; every failure is reported for what it is |
| ExternalIds.ExternalIdsPanel.ListRead | public/external-ids.js:858-861 | a re-read sees the server as it is when the server answers it |
| ExternalIds.ExternalIdsPanel.RereadArrives | public/external-ids.js:858-874 | the list shown is what the arriving answer holds, or none; the controls are drawn anew |
| ExternalIds.StepKeepsEditSafe | public/external-ids.js:898-961 | every event that is not about the two pairs, and every answer to the edit, keeps one of them on the asset |
| ExternalIds.EditNeverLosesBoth | public/external-ids.js:898-961 | at every point of an edit, whatever fails, is lost or goes on beside it, the asset carries the old or the new pair, and all pairs nobody names in order |
| ExternalIds.ReportedEditIsTrueExactly | public/external-ids.js:943-960 | a reported edit means new present and old absent in every possible run if and only if the old pair's removal is expressible as a path or the path it becomes answers no DELETE with success |
| ExternalIds.OutOfSyncExactly | public/external-ids.js:858-941 | a step leaves the shown list behind the server if and only if it is an applied add that failed without a re-read, or the arrival of an overtaken re-read |
| ExternalIds.ListStaysInSync | public/external-ids.js:858-1003 | over any run without either, overlapping as it may, a usable list is the server's once every operation is done |
| ExternalIds.UnnamedPairsKeepOrder | public/external-ids.js:898-1003 | over any run of adds, edits and removals, overlapping as they may, the pairs nobody named keep their order |
| ExternalIds.AddGoesWell | public/external-ids.js:924-960 | an add that goes well is reported as added, and the list shows the server with the pair |
| ExternalIds.EditGoesWell | public/external-ids.js:924-960 | an edit that goes well is reported as edited, the new pair is there and the old is gone |
| ExternalIds.RemovalGoesWell | public/external-ids.js:968-1003 | a confirmed removal that goes well is reported as removed, a declined one sends nothing |
| ExternalIds.FailuresExactly | public/external-ids.js:931-1000 | how each failed write is reported, when the list is read again and when the controls are retired |
| ExternalIds.ControlsExactly | public/external-ids.js:810-874 | the block is drawn anew when a re-read arrives or an edit changed nothing, with controls exactly if changes are allowed and the list is usable |
| ExternalIds.RefusedForever | public/external-ids.js:934-937 | once refused and redrawn, no add, edit or removal ever begins again |
| CollectionEdit.NormaliseTagRows | public/collection-edit.js:216-228 | the loop keeps each trimmed, non-empty row once |
| CollectionEdit.NormalTagsExactly | public/collection-edit.js:216-228 | the tags are distinct, exactly the non-empty texts some row trims to, and the rows themselves if they are that already |
| CollectionEdit.NormalTagsSnoc | public/collection-edit.js:216-228 | one more row adds its trimmed text at the end unless that is blank or was there |
| CollectionEdit.CustomPairsToObject | public/collection-edit.js:243-264 | the loop builds the object and the first duplicate key |
| CollectionEdit.ConvertFacts | public/collection-edit.js:243-264 | a duplicate is reported if and only if two rows name one field; otherwise there is one field per named row with that row's value |
| CollectionEdit.DuplicateIsShared | public/collection-edit.js:246-253 | the duplicate reported is the first field that an earlier row names |
| CollectionEdit.RefusedExactly | public/collection-edit.js:560-575 | saving is refused exactly when two rows name the same field |
| CollectionEdit.RetypedSavesText | public/collection-edit.js:254-261 | a row that was retyped or renamed, or names no stored field, saves its text |
| CollectionEdit.SameStringArray | public/collection-edit.js:268-272 | true exactly for equal lists |
| CollectionEdit.SameObject | public/collection-edit.js:274-282 | true exactly for equal objects, in whatever key order |
| CollectionEdit.CollectionEditPatchBody | public/collection-edit.js:302-324 | the body holds each drafted field that differs, normalised |
| CollectionEdit.PatchAchievesDraft | public/collection-edit.js:302-324 | applied wholesale it yields the drafted description and fields, and as tags the distinct non-empty texts the drafted rows trim to; id, name and members are untouched |
| CollectionEdit.PatchIsSmallest | public/collection-edit.js:284-324 | any body with the same outcome carries every field of this one |
| CollectionEdit.EmptyExactly | public/collection-edit.js:302-324 | the body is empty if and only if nothing differs |
| Text.StrippedFixesOneLine | public/key-value-rows.js:59 | a text box leaves a value alone exactly when it has no line break |
| CollectionEdit.LineFeedsFacts | public/collection-edit.js:439-443 | a text area leaves a value alone exactly when it has no carriage return |
| CollectionEdit.LinesStay | public/collection-edit.js:439-443 | a text area reads each line break back as one line feed and changes nothing else |
| CollectionEdit.UntouchedKeepsExactly | public/collection-edit.js:243-264 | a row nobody retyped saves the stored value, of whatever type, if and only if its text has no line break; a break is lost |
| CollectionEdit.UneditedSendsNothingExactly | public/collection-edit.js:426-507 | opening and saving sends nothing if and only if description, tags, keys and shown values are as this form would store them, line breaks included |
| CollectionEdit.ReopenedSavesNothing | public/collection-edit.js:499-600 | after any save of what boxes can hold, re-opening and saving unedited sends nothing |
| CollectionEdit.RetypedRowChangesOnlyItself | public/collection-edit.js:243-264 | retyping one row saves the typed text there, and leaves another field alone if and only if its text has no line break |
| CommentDrafts.DraftMap.constructor | public/comments-panel.js:480-482 | no drafts at first |
| CommentDrafts.DraftMap.DeleteKey | public/comments-panel.js:494-498 | one key goes, the others keep their order |
| CommentDrafts.DraftMap.InsertNew | public/comments-panel.js:499 | a new key goes to the end |
| CommentDrafts.DraftMap.Evict | public/comments-panel.js:500-504 | exactly the oldest surplus entries go |
| CommentDrafts.DraftMap.SetDraft | public/comments-panel.js:489-505 | one write of the recency list, within the bound |
| CommentDrafts.DraftMap.DeleteDraft | public/comments-panel.js:703 | an accepted comment's draft goes |
| CommentDrafts.DraftMap.PeekDraft | public/comments-panel.js:508-510 | the text last written under the key, or none |
| CommentDrafts.DraftMap.Replay | public/comments-panel.js:480-510 | the map agrees with the recency list over any writes and clears |
| CommentDrafts.AlwaysBounded | public/comments-panel.js:489-505 | never more than twenty entries, one per key, none empty and unfocused |
| CommentDrafts.JustWrittenSurvives | public/comments-panel.js:498-504 | the key just written is the last entry and reads back |
| CommentDrafts.WriteExactly | public/comments-panel.js:489-505 | a draft without text and focus leaves nothing behind, one with either is kept |
| CommentDrafts.WriteLeavesOthers | public/comments-panel.js:489-505 | every other draft that is kept reads as before, and none goes while there is room |
| CommentDrafts.OnlyTheOldestGo | public/comments-panel.js:500-504 | the map is always the most recent end of an unbounded one |
| CommentDrafts.RecencyListAgrees | public/comments-panel.js:480-510 | both hold from the start over every run |
| CommentDrafts.DraftSurvives | public/comments-panel.js:489-505 | a draft outlives every run that writes fewer than twenty other keys |
| CommentRepo.InMemoryCommentRepository.constructor | src/data/comment-repo.ts:35-36 | an empty store |
| CommentRepo.InMemoryCommentRepository.Create | src/data/comment-repo.ts:38-48 | one comment is appended, and the copy returned is not the one stored |
| CommentRepo.InMemoryCommentRepository.ListByAsset | src/data/comment-repo.ts:50-58 | the asset's comments, oldest first, as fresh copies |
| CommentRepo.Clones | src/data/comment-repo.ts:57 | fresh copies with the given values |
| CommentRepo.CopiesAreDetached | src/data/comment-repo.ts:47-57 | overwriting a returned copy changes no later listing |
| CommentRepo.ListedBeforePreorder | src/data/comment-repo.ts:53-56 | time then id orders any two comments consistently |
| CommentRepo.ListingExactly | src/data/comment-repo.ts:50-58 | exactly the asset's comments, as often as created, by creation time and then by id |
| CommentRepo.InsertionOrderExactly | src/data/comment-repo.ts:50-58 | the listing is in insertion order if and only if the comments were created in comparator order |
| CommentRepo.ListingIsInsertionOrder | src/data/comment-repo.ts:50-58 | which a clock that never goes back and increasing ids guarantee |
| CommentRepo.CreateAppends | src/data/comment-repo.ts:38-58 | a create then appends to its own listing, and never touches another's |
| CommentRepo.CreateAddsOne | src/data/comment-repo.ts:38-58 | whatever the clock does, exactly the new comment joins and the rest keep their order |
| DisplayFormat.ScaleDown | public/export-action.js:452-458 | the loop keeps value times unit equal to the count |
| DisplayFormat.FormatDeliveredBytes | public/export-action.js:449-460 | the label is within 5 percent of the count, in the largest unit of which there is at least one |
| DisplayFormat.ClockParts | public/asset-clip.js:201-215 | minutes and seconds stay below 60, milliseconds below 1000 |
| DisplayFormat.ReadableExactly | public/asset-clip.js:201-203 | there is no reading exactly for negative times |
| DisplayFormat.ClockIsAccurate | public/asset-clip.js:201-215 | the reading is within one millisecond of the time |
| DisplayFormat.ClockIsMonotone | public/asset-clip.js:201-215 | a later time never reads earlier |

## Left out

- DisplayFormat.FormatDeliveredBytes: counts are reals and the digits are not printed, so float rounding and zero padding are not modelled.
- MediaSrc.MediaElement.FetchAnswered: the dotted-field lookup in the answer's body and the URL parser are not modelled; the answer is the looked-up text and the parser a parameter. An element without listener support is not modelled.
- Signature.SignatureFaithful: the printed JSON text is the tuple it prints; filter values are strings.
- PagerStore.OpsTableState.constructor: takes the initial sort already resolved; the page index of a zero page size (not a number in the source) is 0.
- JobsTable.EndDateIsInclusive: that the date parser accepts timestamps of the calendar and keeps their order is assumed of it.
- JobsTable.SortFacts: keys compare character by character; the order of characters outside the basic plane by UTF-16 unit is not modelled, nor are fields named after object prototype members.
- JobsTable.Table.EndFetch: the truncation banner is not modelled.
- CommentRepo.InMemoryCommentRepository.ListByAsset: sorts the values before it clones them, and compares lexicographically where the source uses the locale; ids and the clock are parameters.
- CollectionEdit.UneditedSendsNothingExactly: two JSON values compare by structure, and the text a non-string value is shown as is a parameter; engines' reordering of integer-like keys is covered by proving it for every key order.
- ExternalIds.EditNeverLosesBoth: no other writer on the server. Which buttons are disabled during a write is not modelled: any control of the drawn block may be used at any time, so the runs covered include ones the disabled buttons prevent. A write of unknown outcome is applied by the time its answer settles or never.
- AssetTags.EveryRequestReachesItsTag: assumes the asset id itself is not a dot segment; asset ids are minted ULIDs.
- UriPath.SurvivesExactly: the percent-spelled dots a browser also treats as dot segments are not modelled, as the encoder never writes them; strings are Unicode scalar values, so lone surrogates are absent.
- FilterBox.BoxesToRows: holds while only a box writes its own filter, which is all the controls do; nothing else calls the store's setters.
- LogsTable.WaitingRunsStayInStep: starts without a deep link; what a deep link does is in the three lemmas about it.
- AssetsRequest.LinkReproducesExactly: the URL codec is the comma-join and the parse; column choice and the page parameter's decoding are not modelled. Form-encoding of the query string is left out: a request is its list of names and values.
- Rendering, focus, copy, column visibility and row selection.
- Error classifiers other than the statuses used above, lock and delete-blocking modules, rename adapters.
- `validateClipRange`, `parseSeconds`, `checkEditCaps`, `buildAuditQuery`, `buildLogsQuery`.
- `applyClientSort`, the assets table's sort of the rows in hand.
- The CouchDB repositories, the HTTP routes, the auto-scaler and provisioning.
