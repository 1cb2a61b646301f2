# GearGuard maintenance tracker — a Dafny model

GearGuard tracks equipment and the maintenance requests raised against it.
The server keeps two tables, equipment and maintenance requests. Its route
handlers create records with a forced initial status and move a request
through its lifecycle: NEW, IN_PROGRESS, REPAIRED, SCRAP. Scrapping a request
also marks its equipment UNUSABLE. Assigning a request to a user moves it to
IN_PROGRESS. The server also answers three read queries: the request listing
(optionally filtered by the owning team), the history of one piece of
equipment (newest first) and the per-team workload statistics. On the client,
the Kanban board groups requests into four status columns and moves a dragged
card optimistically. The calendar shows scheduled preventive requests as
all-day events and creates one from a selected day slot. The dashboard sums
the workload statistics and averages them per team.

The model is organised as follows:

- `records.dfy` (module `Records`): the records, the request bodies the
  handlers read, the error results, and the rows created by the two creation
  handlers.
- `lists.dfy` (module `Lists`): the order-keeping `filter` used by the client
  components.
- `lifecycle.dfy` (module `Lifecycle`): every handler write as a pure
  transition of the two tables. Each transition preserves the cross-table
  invariant that a SCRAP request's equipment is UNUSABLE.
- `queries.dfy` (module `Queries`): the `where` filters, the selection of
  rows, the join with equipment, and the newest-first ordering of the
  history.
- `stats.dfy` (module `Stats`): the workload buckets, the counting
  dictionary and the chart data built from it.
- `server.dfy` (module `Server`): class `Store`, holding the tables and the
  id counters. Its handlers update the tables in place, and each update is
  proved equal to the matching transition. The read handlers are proved
  against the query functions. The counting loop of the statistics handler
  is a `while` loop.
- `kanban.dfy` (module `Kanban`): the columns, the decimal card ids, the
  priority badge and the optimistic move. Class `Board` holds the fetched
  rows that `OnDragEnd` replaces.
- `calendar.dfy` (module `Calendar`): the events derived from the listing
  and the body posted for a selected slot.
- `dashboard.dfy` (module `Dashboard`): the three figures and the chart
  panel.

Transport is replaced by parameters and return values. The clock becomes the
`now` parameter of `CreateRequest`. A PATCH sent by the board becomes the
`StatusPatch` that `OnDragEnd` returns. The prompt answer becomes the `title`
argument of `SlotRequest`. Dates are opaque integers that are only compared.

The database is replaced by maps. It has no schema in the repository, so only
the references the handlers visibly rely on are checked: equipment to team,
request to equipment, and request to assignee. A write that names a missing
row fails with `ForeignKeyViolation` and changes nothing. A status update or
an assignment of a missing request fails with `RecordNotFound` and changes
nothing. Ids come from per-table counters starting at 1. A query without an
ordering returns rows in ascending id order.

## Model

| member | source | states |
|---|---|---|
| Records.NewEquipment | server/index.js:34-46 | new equipment is OPERATIONAL whatever the body says; it belongs to the body's team, and its warranty end is absent when the body has none |
| Records.NewRequest | server/index.js:73-83 | a new request is NEW, unassigned, has no duration, and is stamped with the creation time; its scheduled date is absent when the body has none |
| Lifecycle.StatusWrite | server/index.js:115-126 | the status is written only when one is given and the duration only when one is given; no other field of the request changes |
| Lifecycle.AssignWrite | server/index.js:189-194 | the assignee is set and the status becomes IN_PROGRESS from any status; no other field changes |
| Lifecycle.MarkUnusable | server/index.js:129-133 | the referenced equipment becomes UNUSABLE; every other equipment record and the key set are unchanged |
| Lifecycle.AfterCreateEquipment | server/index.js:21-52 | only the new record is added; well-formedness, the SCRAP invariant and monotonicity are preserved |
| Lifecycle.AfterCreateRequest | server/index.js:69-89 | only the new NEW request is added; the SCRAP invariant and monotonicity are preserved; well-formedness is preserved when the equipment exists |
| Lifecycle.AfterUpdateStatus | server/index.js:110-140 | only request `id` is rewritten; a SCRAP update marks its equipment UNUSABLE and any other update leaves equipment unchanged; the SCRAP invariant is preserved |
| Lifecycle.AfterAssign | server/index.js:184-201 | only request `id` is rewritten and equipment is never touched; the SCRAP invariant is preserved |
| Lifecycle.MarkUnusableAgain | server/index.js:129-133 | marking already-unusable equipment changes nothing |
| Lifecycle.ScrapTwice | server/index.js:128-134 | scrapping a request twice gives the same tables as scrapping it once |
| Lifecycle.UpdateStatusKeepsReferences | server/index.js:123-133 | a status update leaves every team and assignee reference in place |
| Queries.TeamWhere | server/index.js:95-97 | with a team id, a request matches exactly when its equipment belongs to that team; without one, every request matches |
| Queries.Select | server/index.js:99-105 | every selected row is a stored request that matches the filter, and ids strictly increase |
| Queries.SelectComplete | server/index.js:99-105 | every stored request that matches the filter is selected |
| Queries.EquipmentOf | server/index.js:101-103 | the joined equipment is present exactly when the referenced record exists, and it is that record |
| Queries.WithEquipment | server/index.js:99-105 | each listed row is the selected request joined with its equipment, in selection order |
| Queries.Listing | server/index.js:92-107 | every listed row is a stored request matching the team filter, joined with its equipment, and ids increase along the listing |
| Queries.ListingExactly | server/index.js:92-107 | the listing holds exactly the stored requests of the given team (all of them without a team), each once, in id order, each with its equipment |
| Queries.ListingShowsScrapAsUnusable | server/index.js:99-105 | in any listing, a SCRAP request is shown with UNUSABLE equipment |
| Queries.CreatedRequestListed | server/index.js:69-107 | a newly created request appears in the unfiltered listing, joined with its equipment |
| Queries.InsertNewestFirst | server/index.js:145-148 | inserting adds exactly the one request and keeps every other row |
| Queries.InsertKeepsNewestFirst | server/index.js:145-148 | inserting into a newest-first sequence keeps it newest first |
| Queries.SortNewestFirst | server/index.js:145-148 | sorting keeps exactly the same rows |
| Queries.SortIsNewestFirst | server/index.js:145-148 | the sorted rows are ordered by creation time, newest first |
| Queries.HistoryExactly | server/index.js:143-150 | the history holds exactly the stored requests of the equipment, each exactly once |
| Queries.SelectOnce | server/index.js:99-105 | a selected request occurs exactly once in the selection |
| Queries.IncreasingOnce | server/index.js:99-105 | rows with strictly increasing ids hold each request once |
| Queries.SelectAllCount | server/index.js:156-162 | the unfiltered selection has one row per stored request |
| Stats.TeamLabel | server/index.js:167 | the bucket is never empty; when the equipment, its team and a non-empty team name all exist, it is that name; otherwise it is "Unassigned" |
| Stats.Labels | server/index.js:166-167 | one bucket per fetched request, in fetch order |
| Stats.Count | server/index.js:168 | the intended counting step: the key's count goes up by one (to 1 for a new key, which is appended to the key order), every other key keeps its count, and distinct keys stay distinct |
| Stats.TallyOf | server/index.js:165-169 | the dictionary's keys are distinct and are exactly the labels seen; each count is the number of occurrences of its label |
| Stats.TallyStep | server/index.js:168 | counting one more label is one counting step |
| Stats.ChartData | server/index.js:172-175 | one entry per dictionary key, in key order, with that key's count |
| Stats.ChartIgnoresOtherKeys | server/index.js:172-175 | the count of a key not in the key list does not affect the chart |
| Stats.ChartBump | server/index.js:168 | raising one key's count by one raises the chart total by one |
| Stats.ChartSumNewKey | server/index.js:168 | a first-seen key adds one entry of value 1 |
| Stats.ChartSum | server/index.js:165-175 | the chart values add up to the number of labels counted |
| Stats.ChartOfLabels | server/index.js:165-175 | the entry names are distinct; each value is its label's number of occurrences and at least 1; every label has an entry; the values add up to the number of labels |
| Stats.LabelCount | server/index.js:166-168 | a bucket's count is the number of requests in that bucket |
| Stats.LabelStep | server/index.js:166-168 | one more fetched request adds one to its own bucket's count only |
| Stats.BucketStep | server/index.js:166-168 | one more id adds that request to its own bucket only |
| Stats.LabelsCountBuckets | server/index.js:156-168 | each bucket occurs among the labels as often as it has requests |
| Stats.LabelsCoverRequests | server/index.js:156-168 | every stored request's bucket is among the labels |
| Stats.LabelsLength | server/index.js:156-168 | there is one label per stored request |
| Stats.StatsChartFacts | server/index.js:153-181 | bucket names are distinct; each value is the size of its bucket and at least 1; every request's bucket is listed; the values add up to the number of requests |
| Stats.CountAsWritten | server/index.js:168 | the handler's counting step ignores the key "__proto__" and performs the intended step for every other key |
| Stats.TallyAsWritten | server/index.js:165-169 | the dictionary as the handler builds it for team names `Object.prototype` does not define, apart from "__proto__": distinct keys, exactly the labels seen other than "__proto__", each counted by its occurrences |
| Stats.ProtoTeamVanishes | server/index.js:165-175 | one request of a team named "__proto__" yields an empty chart with total 0 as written, but the single entry ("__proto__", 1) as intended |
| Server.Store.constructor | server/index.js:6 | the store starts with the given teams and users and no equipment or requests; it is valid and satisfies the SCRAP invariant |
| Server.Store.CreateEquipment | server/index.js:21-52 | a missing team gives a foreign-key error and no change; otherwise the tables become `AfterCreateEquipment` under the next id and only the equipment counter advances; validity and the SCRAP invariant are kept |
| Server.Store.CreateRequest | server/index.js:69-89 | missing equipment gives a foreign-key error and no change; otherwise the tables become `AfterCreateRequest` under the next id, only the request counter advances, and the answer is the NEW request |
| Server.Store.UpdateStatus | server/index.js:110-140 | a missing request gives RecordNotFound and no change; otherwise the tables become `AfterUpdateStatus` and the answer is the rewritten request; the id counters never move; validity and the SCRAP invariant are kept |
| Server.Store.Assign | server/index.js:184-201 | a missing request gives RecordNotFound and a missing user a foreign-key error, each with no change; otherwise the tables become `AfterAssign` and the answer joins the user; the id counters never move |
| Server.Store.ListRequests | server/index.js:92-107 | the answer is exactly the stored requests of the team (all without a team), each once, in id order, each with its equipment |
| Server.Store.History | server/index.js:143-150 | the answer is newest first and holds exactly the equipment's stored requests, each once |
| Server.Store.Stats | server/index.js:153-181 | counting with the intended step `Stats.Count` (see the Findings section), the answer has distinct bucket names, each value the size of its bucket and at least 1, every request's bucket listed, and values adding up to the number of requests |
| Server.CountBuckets | server/index.js:165-169 | the counting loop builds exactly the dictionary `TallyOf` gives for the fetched requests' buckets, using the intended step |
| Server.CountStep | server/index.js:168 | one counting step on the dictionary, equal to the intended step `Stats.Count` |
| Lists.Filter | client/src/components/KanbanBoard.jsx:52 | the kept elements are exactly those satisfying the predicate, and there are no more of them than elements |
| Lists.FilterConcat | client/src/components/KanbanBoard.jsx:52 | filtering a concatenation concatenates the filtered parts, so order is kept |
| Lists.FilterAll | client/src/components/KanbanBoard.jsx:52 | a predicate that holds everywhere keeps every element |
| Kanban.NatToString | client/src/components/KanbanBoard.jsx:79 | the id text is a non-empty run of decimal digits |
| Kanban.LeadingDigits | client/src/components/KanbanBoard.jsx:38 | the parsed prefix is the longest run of digits at the start of the text |
| Kanban.ParseInt | client/src/components/KanbanBoard.jsx:38 | there is no number exactly when the text does not start with a digit; otherwise the number is the value of the leading digits |
| Kanban.DigitsValueOfString | client/src/components/KanbanBoard.jsx:79 | the digits of an id have that id as their value |
| Kanban.ParseIntOfString | client/src/components/KanbanBoard.jsx:38 | parsing the text of an id gives the id back |
| Kanban.CardIdMatches | client/src/components/KanbanBoard.jsx:37-39 | the comparison in the drop handler matches exactly the dragged card's id |
| Kanban.HasColumn | client/src/components/KanbanBoard.jsx:5-10 | a status has a column exactly when it is the id of one of the four columns |
| Kanban.ColumnsAreDistinct | client/src/components/KanbanBoard.jsx:5-10 | no two columns show the same status |
| Kanban.ByStatus | client/src/components/KanbanBoard.jsx:52 | a column holds exactly the rows in its status |
| Kanban.OnBoard | client/src/components/KanbanBoard.jsx:61-72 | the rows some column shows are exactly those whose status has a column |
| Kanban.ByStatusCons | client/src/components/KanbanBoard.jsx:52 | a column of a longer list is the head if it has that status, followed by the column of the rest |
| Kanban.OnBoardCons | client/src/components/KanbanBoard.jsx:61-72 | the rows on the board of a longer list are the head if it has a column, followed by those of the rest |
| Kanban.EveryCardOnce | client/src/components/KanbanBoard.jsx:61-72 | the four column counters add up to the number of rows whose status has a column |
| Kanban.AllCardsShown | client/src/components/KanbanBoard.jsx:61-72 | when every status has a column, the counters add up to the number of rows |
| Kanban.PriorityBadge | client/src/components/KanbanBoard.jsx:93-95 | red exactly for HIGH, yellow exactly for MEDIUM, green for anything else |
| Kanban.EquipmentCaption | client/src/components/KanbanBoard.jsx:89 | the card shows the equipment's name, even an empty one, or "Unknown Equipment" when there is none |
| Kanban.MoveCard | client/src/components/KanbanBoard.jsx:38 | the dragged card gets the new status; every other row is unchanged |
| Kanban.WithStatus | client/src/components/KanbanBoard.jsx:37-39 | the length is kept, and each row is moved by `MoveCard` in place |
| Kanban.MoveEmptiesOtherColumns | client/src/components/KanbanBoard.jsx:37-40 | after a drop, every other column shows what it showed before, less the dragged card |
| Kanban.MoveFillsTarget | client/src/components/KanbanBoard.jsx:37-40 | after a drop, the target column keeps its cards and gains the dragged card in its new status |
| Kanban.MoveKeepsCardCount | client/src/components/KanbanBoard.jsx:37-40 | a drop onto a column keeps every card on the board |
| Queries.SelectAllAfterWrite | server/index.js:123-126 | rewriting one request changes the unfiltered selection only at that request |
| Kanban.OptimisticMatchesServer | client/src/components/KanbanBoard.jsx:36-44 | after a successful status update the moved rows have the requests a refetch would return, row for row, and for any target but SCRAP they are exactly the refetched rows; "row for row" rests on the listing query returning rows in id order, which the model assumes for an unordered query |
| Kanban.Board.constructor | client/src/components/KanbanBoard.jsx:13 | the board starts with no rows |
| Kanban.Board.RequestsByStatus | client/src/components/KanbanBoard.jsx:52 | a column's cards are exactly the board's rows in that status, and there are no more of them than rows |
| Kanban.Board.Fetched | client/src/components/KanbanBoard.jsx:20-27 | the fetched listing replaces the rows |
| Kanban.Board.OnDragEnd | client/src/components/KanbanBoard.jsx:30-49 | a drop outside every column changes nothing and sends nothing; a drop on a column moves the parsed card to it and sends that status for the card |
| Calendar.EquipmentLabel | client/src/components/MaintenanceCalendar.jsx:35 | a present, non-empty equipment name is the label; with no equipment the label is "Unknown"; any other label is the equipment's name; it is never empty |
| Calendar.EventTitle | client/src/components/MaintenanceCalendar.jsx:35 | the event title starts with the request's title and ends with the equipment label in parentheses, so both can be read back |
| Calendar.CalendarEvents | client/src/components/MaintenanceCalendar.jsx:32-40 | one event per preventive row with a scheduled date, in listing order; each is all-day, starts and ends on that date, carries the row and is titled with the row's title and equipment label |
| Calendar.EventsOf | client/src/components/MaintenanceCalendar.jsx:34-40 | one event per shown row, in order; each is all-day, starts and ends on the row's scheduled date, is titled by `EventTitle` and carries the row |
| Calendar.CalendarShowsExactly | client/src/components/MaintenanceCalendar.jsx:32-33 | a row has an event exactly when it is preventive and scheduled |
| Calendar.SlotRequest | client/src/components/MaintenanceCalendar.jsx:47-60 | nothing is posted for a cancelled or empty title; otherwise a MEDIUM preventive request for equipment 1, scheduled at the slot start and described "Scheduled via Calendar" |
| Calendar.SlotShowsOnCalendar | client/src/components/MaintenanceCalendar.jsx:47-62 | once created, a slot's request appears on the refreshed calendar as an all-day event on the slot's day, titled with the entered title and the equipment's label |
| Dashboard.Reduce | client/src/components/Dashboard.jsx:22 | the left fold from `acc` adds the sum of the values, summed from the right, to `acc` |
| Dashboard.TotalRequests | client/src/components/Dashboard.jsx:22 | the total is the sum of the values, and 0 for no entries |
| Dashboard.Average | client/src/components/Dashboard.jsx:56 | 0 for no teams; otherwise total / teams rounded to the nearest integer, with halves rounded up |
| Dashboard.FiguresOf | client/src/components/Dashboard.jsx:42-56 | the team count is the number of entries, and the total and the average are as above |
| Dashboard.PanelOf | client/src/components/Dashboard.jsx:72 | the placeholder is shown exactly when there are no entries; otherwise the chart shows the entries |
| Dashboard.ValuesAtLeastOne | client/src/components/Dashboard.jsx:22 | entries of value at least 1 add up to at least their number |
| Dashboard.DashboardOfStats | client/src/components/Dashboard.jsx:22-72 | fed the workload chart counted with the intended step `Stats.Count`, the total is the number of requests, there are no more teams than requests, the placeholder shows exactly when there are no requests, and otherwise the average is at least 1 |

## Left out

- HTTP transport, CORS, status codes, JSON encoding and `listen` (server/index.js:2-10, 203-206), and the client's axios wrapper: transport only.
- GET /teams and GET /equipment (server/index.js:15-18, 55-66): plain reads of a table with no logic of their own. The request count GET /equipment includes (server/index.js:60-62) is not modelled.
- The database engine: tables are maps, ids come from counters, and an unordered query returns rows in id order. The engine may skip ids after a failed insert, and it enforces constraints the repository does not show; neither is modelled.
- The `assignedTo` join of the request listing (server/index.js:103): `ListedRequest` carries only the equipment.
- Store.UpdateStatus: the second write of a SCRAP update cannot fail, because `Valid` guarantees the equipment exists. The handler's failure after its first write is therefore not modelled. The two writes are sequential, and concurrency between requests is not modelled.
- The lenient `parseInt` of body fields, path ids, the team query parameter and durations (server/index.js:44, 80, 96, 119, 124, 146, 190, 192): these inputs are already integers or `Option`s. An absent team parameter is `None`.
- Kanban.ParseInt: leading whitespace, a sign, a `0x` prefix and the `NaN`-producing inputs beyond "no leading digit" are not modelled. Card ids are always produced by `String` of a natural number.
- Date parsing and conversion (server/index.js:41-42, 82; client/src/components/MaintenanceCalendar.jsx:36-37): dates are opaque integers.
- Dashboard.Average: integer arithmetic stands in for floating-point division and `Math.round`. The two agree while values stay within exact double precision.
- Server.Store.Stats: the store counts with the intended step `Stats.Count`, and so do `Server.CountBuckets` and `Server.CountStep`; the handler's own step, which drops a team named "__proto__", is, for names `Object.prototype` does not define, `Stats.CountAsWritten` and `Stats.TallyAsWritten` (see the Findings section). For that input the store's answer differs from the handler's.
- Server.CountBuckets: the loop counts with the intended step, not the handler's step, which drops a team named "__proto__" (see the Findings section).
- Server.CountStep: it performs the intended step `Stats.Count`; the `__proto__` setter behaviour of the handler's object literal is modelled only by `Stats.CountAsWritten`.
- Dashboard.DashboardOfStats: proved for the chart counted with the intended step. Fed the handler's answer as written, one request of a team named "__proto__" gives a total of 0 instead of 1 (`Stats.ProtoTeamVanishes`).
- Stats.Count: the order of `Object.keys` is first-seen order. JavaScript lists integer-like keys (a team named "7") first, in ascending order; that is not modelled.
- Stats.CountAsWritten, Stats.TallyAsWritten: only "__proto__" is modelled as a special key. Other names inherited from `Object.prototype`, such as "constructor" or "toString", make the handler compute a string instead of a count; that is not modelled.
- The revert-on-error refetch of the board (client/src/components/KanbanBoard.jsx:47), `alert` and `prompt`, and all rendering, styling and drag-and-drop libraries.
- client/src/components/EquipmentForm.jsx, client/src/components/EquipmentList.jsx, client/src/App.jsx and server/prisma/seed.js: presentation and one-off data setup.

## Findings

| source | as written | input that shows it | evidently intended | confidence | as-written member | corrected member |
|---|---|---|---|---|---|---|
| server/index.js:168 | the workload counts live in a plain object literal; for the team name "__proto__", reading the key gives the prototype and assigning a string to it is ignored, so no entry is made | one request whose equipment belongs to a team named "__proto__": the chart is empty and its total is 0 instead of 1 | every request is counted in its team's bucket, so the values add up to the number of requests | high; not executed | Stats.ProtoTeamVanishes | Stats.StatsChartFacts |
