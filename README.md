# HospGuardian core in Dafny

This project models the logic layer of HospGuardian, a hospital-asset dashboard
(equipment inventory, daily checklist, service orders (OS), stock, preventive
maintenance schedule, event log). The model covers:

- **The entity store** (`services/storage.ts`). It keeps keyed lists of assets,
  checklist items, orders, stock, schedule tasks, telemetry and events. The
  event log is capped at 500. An offline sync queue fills while offline and is
  emptied on reconnect. `getSystemStats` recomputes its counts from the lists.
  - `StoreSpec.Db` is the store as a value, with one pure transition function
    per writer.
  - `Storage.Store` is the same store as a class whose methods update its
    fields in place. Each method is proved equal to the matching transition.
- **The page and component handlers** that read and write the store:
  - the Assets, Stock, Checklist, Orders, Reports, Scanner and WorkSchedule
    pages;
  - the AssetModal, OSQuickForm and WorkScheduleForm components.

  A handler that maps over the displayed list and calls the store once per
  matching row is a method with a loop. Its store effect is stated as a fold of
  that per-row effect over the list (`StoreSpec.Replay`).
- **The search and threshold rules**: the three-step fuzzy matcher, the
  case-insensitive filters, the health and maintenance-alert day bands, the
  stock floor and its low-stock alert.
- **Role gating**: the route table with its `ProtectedRoute` guards, and the
  sidebar's navigation table.

Some inputs come from outside the program and are parameters here:

- `now` is milliseconds since the epoch.
- Day numbers are days since the epoch.
- `today` is a day number (an `int`) for the checklist, the asset pages and the dashboard counts (StoreSpec.CompanionItem, StoreSpec.AddAsset, StoreSpec.SystemStats, Storage.Store.AddAsset, AssetsPage.HandleCreateAsset). It is a calendar `Date` on the schedule path (StoreSpec.TaskOf, StoreSpec.CreateWorkScheduleTask, Storage.Store.CreateWorkScheduleTask and the ScheduleForm members), where months are stepped.
- Generated ids are the random or serial part of the id (`code`, `year`/`serial`).
- The connectivity state is the `online` flag.

Module by module:

| file | module | source |
|---|---|---|
| types.dfy | Types | types.ts (records, enums, role names) |
| text.dfy | Text | lower-casing, whitespace, trimming, `sanitize` |
| lists.dfy | Lists | `findIndex`, `filter`, upsert, stable sort |
| dates.dfy | Dates | `setMonth` month arithmetic, occurrences |
| storespec.dfy | StoreSpec | services/storage.ts, as transitions on a value |
| storage.dfy | Storage | services/storage.ts, as a class updated in place |
| lookup.dfy | AssetLookup | asset lookup by id and by scanned text |
| assets.dfy | AssetsPage | pages/Assets.tsx |
| stock.dfy | StockPage | pages/Stock.tsx |
| grouping.dfy | Grouping | category set and per-category tallies |
| checklist.dfy | ChecklistPage | pages/Checklist.tsx |
| reports.dfy | ReportsPage | pages/Reports.tsx |
| orders.dfy | OrdersPage | pages/Orders.tsx |
| scanner.dfy | ScannerPage | pages/Scanner.tsx |
| workschedule.dfy | WorkSchedulePage | pages/WorkSchedule.tsx |
| asset_modal.dfy | AssetModal | components/AssetModal.tsx |
| os_quick_form.dfy | OSQuickForm | components/OSQuickForm.tsx |
| schedule_form.dfy | ScheduleForm | components/WorkScheduleForm.tsx |
| access.dfy | Access | App.tsx, components/Sidebar.tsx |

## Model

| member | source | states |
|---|---|---|
| Text.Sanitize | services/storage.ts:52-55 | The stored text is a block of the input with its angle brackets removed, cut out by whitespace alone, and with no whitespace at either end; an empty (falsy) message stays empty |
| Text.RemoveAnglesIsFilter | services/storage.ts:54 | `replace(/[<>]/g, '')` keeps exactly the characters other than `<` and `>`, in their order |
| Text.TrimmedUnique | services/storage.ts:54 | Only one block of a string is both cut out by whitespace alone and free of whitespace at its ends, and it is `trim`'s result, so Sanitize's contract fixes its result |
| Text.SanitizeKeepsInnerText | services/storage.ts:52-55 | Text without brackets and with non-blank ends, wrapped in any mix of whitespace and brackets, is stored as exactly that text |
| Text.SanitizeIdempotent | services/storage.ts:52-55 | Sanitizing twice is the same as sanitizing once |
| Text.SanitizeClean | services/storage.ts:52-55 | Text already free of angle brackets and outer whitespace is stored unchanged |
| Text.ToLower | pages/Assets.tsx:50-51 | Lower-casing keeps the length and maps each character on its own (ASCII and Latin-1 capitals) |
| Text.StripSpaces | pages/Assets.tsx:51 | Removing `\s` keeps exactly the non-whitespace characters of the query |
| Text.StripSpacesIsFilter | pages/Assets.tsx:51 | `replace(/\s/g, '')` is the query's non-whitespace characters, in their order |
| Text.Words | pages/Assets.tsx:70 | `split(/\s+/).filter(w => w.length > 0)`: every word is non-empty and has no whitespace |
| Text.WordsOfBlank | pages/Assets.tsx:70 | A query of whitespace only has no words |
| Text.WordsCons | pages/Assets.tsx:70 | After leading whitespace, a maximal non-blank run is the first word and the rest follow from what comes after it; with WordsOfBlank this fixes the words of every query |
| Text.WordsCount | pages/Assets.tsx:70 | There are exactly as many words as maximal non-blank runs in the query |
| Text.WordsConcat | pages/Assets.tsx:50-70 | The words of the query, put back together, are the query with its whitespace removed |
| Text.ContainsIffOccurs | pages/Assets.tsx:53 | `includes` holds exactly when the query occurs at some position of the text |
| Text.EmptyFilterMatches | pages/Orders.tsx:49-52 | An empty filter is contained in every text, whatever its case |
| Text.NatToString | services/storage.ts:192 | `toString` of a natural number: decimal digits whose value is the number, with no leading zero |
| Lists.IndexOf | services/storage.ts:133 | `findIndex`: -1 exactly when no entry has the id, otherwise the first entry that has it |
| Lists.FindIndex | services/storage.ts:150 | The scanning loop returns the same index as `findIndex` |
| Lists.Upsert | services/storage.ts:114-119 | An existing id's entry is replaced in place; a new id is appended; every other entry stays |
| Lists.Filter | pages/Stock.tsx:52-55 | A filter keeps exactly the entries that satisfy its test, never more than it was given |
| Lists.SortBy | pages/Reports.tsx:45 | The sort returns a permutation of its input, ordered by the key |
| Lists.SortByStable | pages/Reports.tsx:45 | The sort is stable: the entries with any one key come out in their input order |
| Dates.AddMonths | services/storage.ts:238 | `setMonth(getMonth() + k)` gives a valid date k months on, or one month further when the day does not exist in the target month; a day up to 28 is kept exactly; exactly, the result is the target month on the same day when that day exists there, and otherwise the following month on the day less the target month's length |
| Dates.Occurrences | services/storage.ts:234-240 | The n occurrences are the start date advanced 0, 1, ... n-1 times by the interval |
| Dates.BuildOccurrences | services/storage.ts:235-239 | The loop that pushes the current date and advances it builds exactly those occurrences |
| Dates.NthOccurrenceExact | services/storage.ts:236-239 | From a start day up to 28, the k-th occurrence is exactly k times the interval months after the start, on the same day |
| Dates.QuarterlyFromMidJanuary | services/storage.ts:236-239 | Every 3 months from 15 January 2024 gives 15 January, April, July and October |
| Dates.MonthlyFromJanuaryThirtyFirst | services/storage.ts:238 | Monthly from 31 January 2023 spills into March (3 March, then 3 April), as the browser's Date does |
| Dates.DayKeyOrder | pages/WorkSchedule.tsx:33 | The day key orders valid dates exactly as time does (year, then month, then day) |
| StoreSpec.Reconnect | services/storage.ts:34-41 | Reconnecting sets the store online with an empty queue and changes nothing else |
| StoreSpec.SyncQueueCount | services/storage.ts:17-20 | The pending count is the queue length; an offline write raises it by one, an online write leaves it |
| StoreSpec.PushQueue | services/storage.ts:22-31 | `pushToCloud` keeps the queued entries and appends `{type, data, timestamp}` exactly when offline |
| StoreSpec.ReplayNone | pages/Assets.tsx:79 | When no row of the mapped list acts, the store is left as it was |
| StoreSpec.ReplaySingle | pages/Assets.tsx:79 | When exactly one row acts, the mapped handler's effect is that row's effect alone |
| StoreSpec.UserRole | services/storage.ts:66-69 | The current role is the stored one, or Técnico when none is stored |
| StoreSpec.SetUserRole | services/storage.ts:71-74 | After saving a role it is the current role; the change is queued when offline |
| StoreSpec.StoredEvents | services/storage.ts:92-105 | With nothing stored, the log reads as the single bootstrap event `EV-INIT` with severity security; a stored list, even an empty one, reads as itself |
| StoreSpec.NewEvent | services/storage.ts:77-85 | The new event carries the current role, the kind, severity and time given, and the sanitized message |
| StoreSpec.LogEvent | services/storage.ts:76-90 | The new event goes first; the log grows by one up to 500 entries; the older events follow in their order, the oldest dropped; only the log and the queue change |
| StoreSpec.LogEventBounded | services/storage.ts:86-87 | A log of at most 500 entries stays at most 500 after a write |
| StoreSpec.LogTwice | services/storage.ts:76-90 | Two writes put the second event first and the first event second, followed by a prefix of the old log, the whole capped at 500 |
| StoreSpec.UpdateTelemetry | services/storage.ts:112-123 | Telemetry is an upsert by reading id; nothing else but the queue changes |
| StoreSpec.SanitizedItem | services/storage.ts:133 | Saving a checklist item changes only its observations, which become their sanitized text and so lose every angle bracket |
| StoreSpec.SaveChecklistItem | services/storage.ts:130-141 | A known id's item is replaced in place with the sanitized item; an unknown id is appended; other items are unchanged |
| StoreSpec.SaveAsset | services/storage.ts:148-156 | An unknown id changes nothing (not even the queue); a known id replaces that asset only |
| StoreSpec.UpdateAssetStatus | services/storage.ts:158-166 | An unknown id changes nothing; a known id changes only that asset's status |
| StoreSpec.CompanionItem | services/storage.ts:174-183 | The companion checklist item is `CHK-` plus the asset id, labelled with the asset's name and category, OK, with no observations |
| StoreSpec.AddAsset | services/storage.ts:168-187 | The new asset is prepended with id `AST-` plus the code, and its companion checklist item is upserted |
| StoreSpec.AddAssetCompanion | services/storage.ts:168-187 | For a new code the asset list and the checklist each grow by exactly one, and the appended item is the new asset's companion |
| StoreSpec.Pad3 | services/storage.ts:192 | `padStart(3, '0')` of a serial below 1000 is three digits whose decimal value is the serial |
| StoreSpec.OrderOf | services/storage.ts:191-196 | The created order has the given id and time, no evidence photo and status OPEN unless the draft sets one; every other field (asset, name, location, service type, requester, technician, priority, waiting-for-purchase flag, deadline, description) is the draft's |
| StoreSpec.OrderCode | services/storage.ts:192 | Order ids read `OS-<year>-<serial>`: the year in decimal without leading zeros and the serial as three digits, both recoverable from the id |
| StoreSpec.CreateOrder | services/storage.ts:189-201 | The new order is prepended; nothing else but the queue changes |
| StoreSpec.Merge | services/storage.ts:207 | The merge changes exactly the fields the patch gives |
| StoreSpec.UpdatedOrder | services/storage.ts:203-213 | The result is null exactly when no order has the id; otherwise it is the first order with that id merged with the patch |
| StoreSpec.UpdateOrderIdempotent | services/storage.ts:203-213 | Sending the same update twice leaves the orders as sending it once |
| StoreSpec.UpdateOrder | services/storage.ts:203-213 | An unknown id changes nothing; a known id replaces only that order with its merged copy |
| StoreSpec.MaintenanceHistory | services/storage.ts:220-223 | The history lists exactly the asset's completed orders |
| StoreSpec.TaskOccurrences | services/storage.ts:233-240 | With a start date and a non-zero interval there are exactly 4 occurrences, the k-th advanced k times; otherwise there are none |
| StoreSpec.TaskOf | services/storage.ts:241-252 | The new task defaults its interval to 3, its status to Planejado and its start date to today; the other fields come from the draft |
| StoreSpec.CreateWorkScheduleTask | services/storage.ts:230-257 | The new task is prepended; nothing else but the queue changes |
| StoreSpec.TaskOccurrencesEvenlySpaced | services/storage.ts:234-240 | From a start day up to 28, the occurrences are exactly k times the interval months apart, on the start day |
| StoreSpec.SaveStockItem | services/storage.ts:264-272 | An unknown id changes nothing; a known id replaces only that item |
| StoreSpec.AddStockItem | services/storage.ts:274-282 | The new item is appended with id `STK-` plus the code |
| StoreSpec.SystemStats | services/storage.ts:284-300 | Each count is the size of its filter: items checked today, assets per status (critical, operational, in maintenance), security events in the log, readings outside their range; open and completed orders add up to all orders; the recent activity is the first min(10, total) events; the sync flag is the connectivity |
| StoreSpec.StatsCoverAssets | services/storage.ts:290-297 | The dashboard's critical, operational and maintenance counts plus the retired assets are all the stored assets |
| StoreSpec.AssetStatusCounts | services/storage.ts:290-297 | The four per-status asset counts add up to the number of assets |
| StoreSpec.CancelledCountsAsOpen | services/storage.ts:291 | A cancelled order counts as open |
| StoreSpec.TelemetryAlarm | services/storage.ts:298 | The telemetry alarm count is zero exactly when every reading lies within its range |
| Storage.Store.constructor | services/storage.ts:125-128 | With nothing stored every list reads as empty and the log as absent; the connectivity is given |
| Storage.Store.PushToCloud | services/storage.ts:22-31 | Returns true exactly when online, and queues the entry when offline |
| Storage.Store.GoOnline | services/storage.ts:34-41 | The online handler empties the queue |
| Storage.Store.GoOffline | services/storage.ts:57 | Losing connectivity changes only the online flag |
| Storage.Store.SetUserRole | services/storage.ts:71-74 | Stores the role as the transition does |
| Storage.Store.LogEvent | services/storage.ts:76-90 | Returns the new event and updates the log as the capped-log transition does |
| Storage.Store.UpdateTelemetry | services/storage.ts:112-123 | In-place upsert equal to the transition |
| Storage.Store.SaveChecklistItem | services/storage.ts:130-141 | In-place upsert of the sanitized item, which it also returns |
| Storage.Store.SaveAsset | services/storage.ts:148-156 | In-place replacement equal to the transition |
| Storage.Store.UpdateAssetStatus | services/storage.ts:158-166 | In-place status change equal to the transition |
| Storage.Store.AddAsset | services/storage.ts:168-187 | Prepends the asset, upserts its companion item and returns the asset |
| Storage.Store.CreateOrder | services/storage.ts:189-201 | Prepends the order and returns it |
| Storage.Store.UpdateOrder | services/storage.ts:203-213 | Returns null or the merged order, and updates the list as the transition does |
| Storage.Store.CreateWorkScheduleTask | services/storage.ts:230-257 | Builds the occurrences with the loop, prepends the schedule task and returns it |
| Storage.Store.SaveStockItem | services/storage.ts:264-272 | In-place replacement equal to the transition |
| Storage.Store.AddStockItem | services/storage.ts:274-282 | Appends the item and returns it |
| AssetLookup.FindAsset | components/WorkScheduleForm.tsx:28 | `find` by id: none exactly when no asset has the id, otherwise the first that has it |
| AssetLookup.ScanIndex | pages/Scanner.tsx:86 | The first asset whose id equals the scanned text or occurs in it, -1 when there is none |
| AssetLookup.FindByCode | pages/Scanner.tsx:86 | The asset found for a scanned text is that first designated asset |
| AssetLookup.ExactIdIsFound | pages/Scanner.tsx:86 | Scanning an asset's own id always finds an asset |
| AssetLookup.ShorterIdShadows | pages/Scanner.tsx:86 | A scan of `AST-12` finds an earlier `AST-1`, because the shorter id occurs in the text |
| AssetsPage.GreedyIffSubsequence | pages/Assets.tsx:56-67 | The index-walking loop succeeds exactly when the query is an in-order subsequence of the target |
| AssetsPage.FuzzyMatch | pages/Assets.tsx:49-76 | The matcher with its early returns and its loop computes the three-step rule: substring, subsequence, or all of at least two words |
| AssetsPage.FuzzyCharacterization | pages/Assets.tsx:49-76 | A match holds exactly when the stripped query is a subsequence of the target or the multi-word fallback holds (the substring step is subsumed) |
| AssetsPage.ContainsIsSubsequence | pages/Assets.tsx:53-56 | A substring is also a subsequence |
| AssetsPage.BlankQueryMatches | pages/Assets.tsx:50-54 | An empty or all-whitespace query matches every target |
| AssetsPage.SingleWordNeedsSubsequence | pages/Assets.tsx:69-75 | A one-word query that is not a subsequence does not match |
| AssetsPage.AbbreviationExample | pages/Assets.tsx:56-67 | "mnt" matches "Monitor" |
| AssetsPage.CeilDiv | pages/Assets.tsx:138-147 | `Math.ceil` of a quotient is the least integer not below it |
| AssetsPage.CalculateHealth | pages/Assets.tsx:135-143 | The health score is 20, 60 or 95 |
| AssetsPage.HealthBands | pages/Assets.tsx:135-143 | Over 180 days apart scores 20, over 90 up to 180 scores 60, up to 90 scores 95 |
| AssetsPage.HealthSymmetric | pages/Assets.tsx:137 | A date equally far in the future scores as the past one |
| AssetsPage.HealthMonotone | pages/Assets.tsx:135-143 | A date further from now never scores higher |
| AssetsPage.CheckMaintenanceAlert | pages/Assets.tsx:145-154 | ATRASADO exactly for negative days, URGENTE for 0 to 7, PRÓXIMO for 8 to 30, none beyond |
| AssetsPage.FilteredAssets | pages/Assets.tsx:156-164 | An empty filter keeps the list; otherwise an asset is kept exactly when its name, id, location or manufacturer (missing as empty) matches |
| AssetsPage.ApplyEdit | pages/Assets.tsx:81-84 | Each of the ten edits sets exactly the field it names to the given value (a manufacturer as present) and leaves every other field, the id included, as it was |
| AssetsPage.UpdatedView | pages/Assets.tsx:79-106 | The new view replaces the rows with the id by their edited copies and keeps all others |
| AssetsPage.UpdateOneRow | pages/Assets.tsx:80-103 | One row of the map: another id does nothing; the matching row is saved, then alerted on |
| AssetsPage.HandleUpdateAsset | pages/Assets.tsx:78-107 | The loop returns the updated view, and its store effect is the per-row effect folded over the list |
| AssetsPage.MarkCriticalLogsOneAlert | pages/Assets.tsx:84-88 | Marking a uniquely identified asset CRITICAL saves that asset and logs exactly one critical ALERT naming it |
| AssetsPage.RescheduleWarnsWhenUrgent | pages/Assets.tsx:90-99 | Moving the next maintenance saves the asset, and logs one warning ALERT exactly when the new date is 0 to 7 days ahead |
| AssetsPage.PlainEditOnlySaves | pages/Assets.tsx:80-103 | Any other edit only saves the edited asset |
| AssetsPage.UnknownIdNoEffect | pages/Assets.tsx:79-106 | An id no row has changes neither the store nor the view |
| AssetsPage.HandleCreateAsset | pages/Assets.tsx:109-114 | Without a name or a location nothing is created; otherwise the asset is added to the store and prepended to the view |
| StockPage.AdjustedQuantity | pages/Stock.tsx:28 | The new quantity is `max(0, quantity + delta)`: never negative |
| StockPage.AdjustedRow | pages/Stock.tsx:27-40 | Only the row with the id changes, and only in its quantity |
| StockPage.AdjustedView | pages/Stock.tsx:26-41 | The new view keeps the order and length; each row is its adjusted copy |
| StockPage.AdjustOneRow | pages/Stock.tsx:27-40 | One row of the map: saved with the new quantity, alerted on crossing the minimum |
| StockPage.HandleAdjustQuantity | pages/Stock.tsx:25-42 | The loop returns the adjusted view, and its store effect is the per-row effect folded over the list |
| StockPage.AdjustAlertsOnCrossing | pages/Stock.tsx:30-36 | For a uniquely identified item, the low-stock warning is logged exactly when the quantity falls from at or above the minimum to below it; otherwise the item is only saved |
| StockPage.AdjustNeverNegative | pages/Stock.tsx:28 | Non-negative quantities stay non-negative after any adjustment |
| StockPage.FilteredStock | pages/Stock.tsx:52-55 | An item is kept exactly when its name or category contains the filter, case-insensitively |
| StockPage.EmptyStockFilterKeepsAll | pages/Stock.tsx:52-55 | An empty filter keeps the whole list |
| StockPage.RestockCount | pages/Stock.tsx:79 | The restock count is the number of items below their minimum |
| StockPage.RestockBadges | pages/Stock.tsx:135-140 | An item shows the "Crítico" badge exactly when it is below its minimum |
| StockPage.HandleAddSubmit | pages/Stock.tsx:44-50 | The created item is added to the store and appended at the end of the view |
| Grouping.Categories | pages/Checklist.tsx:62 | Each category appears once and every item's category appears |
| Grouping.CategoryOccurs | pages/Checklist.tsx:62 | Each listed category is the category of some item |
| Grouping.CategoriesInFirstAppearanceOrder | pages/Checklist.tsx:62 | Categories are listed in the order of their first item |
| Grouping.Bump | pages/Reports.tsx:34-37 | One item raises the total by one and exactly the counter of its status |
| Grouping.Tally | pages/Reports.tsx:30-39 | Every category's total is its OK, pending and fail counts added, and is at least 1 |
| Grouping.TallyNames | pages/Reports.tsx:30-39 | The accumulator has one entry per category, in first-appearance order |
| Grouping.TallyCounts | pages/Reports.tsx:30-39 | Each category's counts are the number of its items, of its OK items, of its pending items and of its failed items |
| Grouping.TallySum | pages/Reports.tsx:30-39 | The category totals add up to the checklist length |
| Grouping.SectionsPartitionItems | pages/Checklist.tsx:85-102 | The category sections together hold as many items as the checklist |
| ChecklistPage.ApplyCheck | pages/Checklist.tsx:18-52 | Each edit changes only its own field: status, lastChecked or observations |
| ChecklistPage.CheckedView | pages/Checklist.tsx:16-29 | The new view keeps its length; the matching row is replaced by its saved copy |
| ChecklistPage.CheckOneRow | pages/Checklist.tsx:17-28 | One row of the map: saved, and alerted on when set to FAIL |
| ChecklistPage.HandleEdit | pages/Checklist.tsx:15-60 | The loop returns the new view, and its store effect is the per-row effect folded over the list |
| ChecklistPage.UpdateStatus | pages/Checklist.tsx:15-31 | Status change through the shared loop |
| ChecklistPage.UpdateDate | pages/Checklist.tsx:33-47 | Date change through the shared loop |
| ChecklistPage.HandleNoteSave | pages/Checklist.tsx:49-60 | Note change through the shared loop |
| ChecklistPage.EditChangesOnlyItsField | pages/Checklist.tsx:15-47 | A status or date edit leaves the row otherwise as it was |
| ChecklistPage.NoteIsSanitized | pages/Checklist.tsx:49-53 | The saved note is the sanitized note, and the row is otherwise unchanged |
| ChecklistPage.FailLogsOneAlert | pages/Checklist.tsx:21-25 | Setting a uniquely identified item to FAIL saves it and logs exactly one critical ALERT |
| ChecklistPage.OtherEditsOnlySave | pages/Checklist.tsx:15-53 | Setting OK or PENDING, a date or a note only saves the item |
| ChecklistPage.UnknownItemNoEffect | pages/Checklist.tsx:16-29 | An id no row has changes neither the store nor the view |
| ChecklistPage.ManualSync | pages/Checklist.tsx:72-76 | The manual sync logs one info SYSTEM event |
| ChecklistPage.Sections | pages/Checklist.tsx:85-102 | One section per category, holding exactly the items of that category |
| ChecklistPage.EachItemInOneSection | pages/Checklist.tsx:85-102 | Every item is listed in exactly one section |
| ReportsPage.RoundPercent | pages/Reports.tsx:28-44 | `Math.round(100 * ok / total)` is the nearest integer, halves rounded up, at most 100 |
| ReportsPage.RoundPercentUnique | pages/Reports.tsx:28-44 | Only one integer meets the rounding bounds |
| ReportsPage.ComplianceIndex | pages/Reports.tsx:26-28 | The compliance index is the rounded OK share, 0 for an empty checklist, between 0 and 100 |
| ReportsPage.ComplianceExtremes | pages/Reports.tsx:26-28 | All OK gives 100; none OK gives 0 |
| ReportsPage.CategoryStatsMap | pages/Reports.tsx:30-39 | The reduce loop builds exactly the category tally |
| ReportsPage.WithPercent | pages/Reports.tsx:41-44 | A row keeps its category's counts and adds the rounded OK share |
| ReportsPage.CategoriesStats | pages/Reports.tsx:41-45 | The rows are a permutation of the per-category rows, sorted worst first |
| ReportsPage.CategoriesStatsRows | pages/Reports.tsx:41-45 | Each row is a category of the checklist with its true counts and a percent of at most 100 |
| ReportsPage.CategoriesStatsComplete | pages/Reports.tsx:41-45 | Every category has a row |
| ReportsPage.OrdersSummary | pages/Reports.tsx:56-60 | The OS summary is a prefix of the orders that are not COMPLETED, in stored order, with three of them or all when fewer |
| ReportsPage.OrdersSummaryIsFirstOpen | pages/Reports.tsx:56-60 | An order that is not COMPLETED and has fewer than three such orders before it is in the summary |
| ReportsPage.ConformitySummary | pages/Reports.tsx:61-66 | The conformity summary is a prefix of the sorted category rows, with three rows or all when fewer |
| ReportsPage.ConformitySummaryIsWorst | pages/Reports.tsx:61-66 | No category left out of the summary scores lower than one in it |
| ReportsPage.PdfRecords | pages/Reports.tsx:120-124 | Mode `assets` reports every asset; `specific_category` exactly those of the chosen category; the general report lists the events |
| OrdersPage.FilteredOrders | pages/Orders.tsx:49-53 | The kept orders are exactly those whose asset name, id or location contains the filter, case-insensitively, sorted newest first |
| OrdersPage.EmptyOrderFilterKeepsAll | pages/Orders.tsx:49-53 | An empty filter keeps every order |
| OrdersPage.OrderKpis | pages/Orders.tsx:74-77 | Abertas, Em Processo and Concluídas count their status and Aguard. Compra the waiting orders; the three status counts never exceed the list |
| OrdersPage.StatusCounts | pages/Orders.tsx:74-77 | The counts of the four statuses add up to the number of orders |
| OrdersPage.HandleFileUpload | pages/Orders.tsx:29-42 | Without a file or an active id nothing changes; otherwise the photo is merged into that order, one event logged, and the active id cleared |
| OrdersPage.AttachEvidenceOnlyThatOrder | pages/Orders.tsx:36 | The upload sets the photo of the order with the id and changes no other order |
| ScannerPage.RecentAfter | pages/Scanner.tsx:93 | The recent list starts with the scanned asset and is followed by the first two earlier scans of other ids, in their order |
| ScannerPage.RescanKeepsList | pages/Scanner.tsx:93 | Scanning the asset at the head of the list again leaves the list as it is |
| ScannerPage.RecentAfterStaysFull | pages/Scanner.tsx:93 | A full list of distinct scans stays at three |
| ScannerPage.RecentAfterDistinct | pages/Scanner.tsx:93 | The recent list never holds two scans of one id |
| ScannerPage.HandleScan | pages/Scanner.tsx:85-97 | No designated asset changes nothing; a match is shown, stops the scanner, heads the recent list and logs an info SYSTEM event |
| ScannerPage.ScanLogsOneEvent | pages/Scanner.tsx:89-94 | A match logs exactly one event and shows an asset whose id the text contains |
| WorkSchedulePage.AllEntriesMembers | pages/WorkSchedule.tsx:24-31 | The entries visited are exactly the (task, occurrence) pairs |
| WorkSchedulePage.TasksByMonth | pages/WorkSchedule.tsx:21-34 | A month card is a permutation of the entries of that month and year, sorted by date |
| WorkSchedulePage.GetTasksByMonth | pages/WorkSchedule.tsx:21-34 | The nested loops and the sort build exactly that card |
| WorkSchedulePage.CardMembership | pages/WorkSchedule.tsx:27 | An occurrence is in a card exactly when the card's month and year are its own |
| WorkSchedulePage.CardsShowYearOnce | pages/WorkSchedule.tsx:57-58 | The twelve cards together show each occurrence of the selected year exactly once |
| WorkSchedulePage.YearOptions | pages/WorkSchedule.tsx:44 | The selector offers the year before, the selected year and the year after |
| AssetModal.StatusFor | components/AssetModal.tsx:32-63 | Exactly the four known actions set a status |
| AssetModal.Acted | components/AssetModal.tsx:32-63 | A known action sets the asset's status, logs its own event, and only urgent_os prepends an order; an unknown action writes nothing |
| AssetModal.StatusWrites | components/AssetModal.tsx:32-63 | A known action's list writes: the asset takes the action's status, urgent_os alone prepends its order, the log is untouched |
| AssetModal.WriteBranch | components/AssetModal.tsx:32-63 | The writes of a known branch, in the source's order, leave the store exactly as Acted describes |
| AssetModal.HandleAction | components/AssetModal.tsx:24-67 | Returns the spoken message and the chosen status (unchanged for an unknown action), and writes the branch's effects and then the closing ALERT |
| AssetModal.ActionSetsStatus | components/AssetModal.tsx:32-63 | verify, maintenance, urgent_os and retire set OPERATIONAL, MAINTENANCE, CRITICAL and RETIRED on that asset only; an unknown action changes no asset |
| AssetModal.OnlyUrgentOpensOrder | components/AssetModal.tsx:44-56 | urgent_os prepends exactly one critical OPEN order for the asset; every other action leaves the orders |
| AssetModal.ActionEventCount | components/AssetModal.tsx:29-67 | A known action logs two events, an unknown one one; the last is an ALERT, critical exactly for urgent_os, with an empty message for an unknown action |
| AssetModal.ActionKeepsHistory | components/AssetModal.tsx:20 | No quick action changes an asset's completed-order history |
| OSQuickForm.QrMatch | components/OSQuickForm.tsx:66-73 | A scanned text that designates an asset fills in the first such asset's id and location and closes the scanner; otherwise nothing changes |
| OSQuickForm.SelectAsset | components/OSQuickForm.tsx:174-177 | The chosen id is set; the location becomes the asset's when it has one, otherwise it stays |
| OSQuickForm.SubmitDraft | components/OSQuickForm.tsx:94-111 | The order carries the asset's name or the general-service name, no asset id for an empty one, status OPEN, and the form's other fields |
| OSQuickForm.HandleSubmit | components/OSQuickForm.tsx:92-117 | Creates the order and logs one OS event, critical for a critical order and a warning otherwise |
| OSQuickForm.SubmitOpensOneOrder | components/OSQuickForm.tsx:92-117 | A submit prepends exactly one OPEN order and logs one OS event, critical exactly when the priority is Crítica |
| OSQuickForm.SelectThenSubmit | components/OSQuickForm.tsx:94-177 | Selecting an asset and submitting gives an order with that asset's id, name and location |
| OSQuickForm.QrThenSubmit | components/OSQuickForm.tsx:66-98 | A QR match and a submit give an order at the designated asset's location, linked to it |
| ScheduleForm.Target | components/WorkScheduleForm.tsx:25-34 | A set and found asset id supplies the name and location; otherwise the typed ones are used |
| ScheduleForm.FormDraft | components/WorkScheduleForm.tsx:36-44 | An empty asset id is passed as undefined; the date, interval, technician and status pass through |
| ScheduleForm.HandleSubmit | components/WorkScheduleForm.tsx:22-44 | Resolves the name and location and creates the schedule task |
| ScheduleForm.InitialFormTask | components/WorkScheduleForm.tsx:12-20 | The form as it opens schedules a planned task every 3 months, four occurrences from today, with no asset |
| ScheduleForm.SubmitAddsOneTask | components/WorkScheduleForm.tsx:22-44 | A submit with a found asset prepends exactly one task carrying the asset's name and location, and changes no other list |
| Access.Protect | App.tsx:23-29 | The page renders exactly when the role is allowed; otherwise the user is sent to `/` |
| Access.Resolve | App.tsx:45-81 | A path renders exactly when it has a route whose guard is absent or admits the role |
| Access.DistinctPaths | App.tsx:46-80 | No two routes of the table share a path, so the first match is the only one |
| Access.RouteTable | App.tsx:46-80 | The four field pages are open; assets, schedule, stock and reports admit administrators and managers; security admits administrators; every other path goes home |
| Access.NoRoleIsTechnician | services/storage.ts:66-69 | With no stored role every guarded page sends the user home |
| Access.FilteredItems | components/Sidebar.tsx:53 | An item is shown exactly when its roles include the current role |
| Access.AdminItems | components/Sidebar.tsx:9-18 | Administrators see all eight items |
| Access.ManagerItems | components/Sidebar.tsx:9-18 | Managers see all but Segurança |
| Access.TechnicianItems | components/Sidebar.tsx:9-18 | Technicians see Dashboard, Scanner, Checklist and Ordens |
| Access.PrefixNames | components/Sidebar.tsx:9-18 | The first seven items are the manager pages and the first four the field pages, by name |
| Access.VisibleItems | components/Sidebar.tsx:9-18 | The item counts and names for each role |
| Access.MobileBar | components/Sidebar.tsx:59 | The mobile bar is at most the first four visible items, in table order |
| Access.MobileBarSame | components/Sidebar.tsx:59 | On the mobile bar every known role sees the same four field pages |
| Access.NavItemAgrees | components/Sidebar.tsx:9-18 | Item by item, the roles listed for a sidebar entry are the roles its route admits |
| Access.NavAgreesWithRoutes | components/Sidebar.tsx:9-18 | For each known role, an item is shown exactly when its route renders |
| Access.QueueNotice | components/Sidebar.tsx:103-107 | The pending badge shows, with the count, exactly when something is queued |
| Access.ReconnectClearsBadge | components/Sidebar.tsx:158-162 | After reconnecting no badge shows |
| Access.OfflineChangeShows | components/Sidebar.tsx:158-162 | Each offline change raises the badge by one |

## Left out

- Persistence and notification: `localStorage` and JSON serialisation, `BroadcastChannel` delivery and the `window` listeners are not modelled. The store is held in memory. A notification is the queue entry it produces when offline; online it produces nothing.
- Clock, randomness and time zone: `Date.now`, `new Date()`, `Math.random` ids and `getLocalDate` are parameters (`now`, `today`, `code`, `year`/`serial`). Each handler uses one `now` for all of its writes.
- All dates are taken in UTC. In a time zone west of UTC, a `YYYY-MM-01` occurrence parsed as UTC midnight falls in the previous local month, so the schedule page would show it one card earlier. Local-time `setMonth` also differs across daylight-saving changes.
- `toLocaleDateString` and `toLocaleString` output is a parameter (`dateText`) or left out.
- `toLowerCase` is modelled for ASCII and Latin-1 capitals only. Other scripts and multi-character case mappings are not.
- Strings are sequences of Unicode code points, not of UTF-16 code units as in JavaScript. `length`, indexing, `includes` and the fuzzy matcher's character-by-character walk (AssetsPage.FuzzyMatch, Text.Contains) therefore differ from the source on characters outside the Basic Multilingual Plane: the source can match half of a surrogate pair (the query "😀" is found in "😁🈀" by its code units), the model cannot.
- `Math.round` of a float is modelled as exact rounding to nearest, halves up. Binary floating point could round a result that should be exactly `x.5` the other way. The telemetry value is a real number.
- `Object.keys` puts integer-like keys (a category named `"12"`) first, in numeric order. The model keeps insertion order for every category, which changes only the order before the sort. Category names that clash with prototype members (`constructor`, `__proto__`) are not modelled.
- `ScheduleTask.occurrences` is modelled as dates, not their ISO strings. The `createdAt` of an order and of a task, and the `timestamp` of a logged event (`SystemEvent.timestamp`), are the clock reading `now` in milliseconds, standing for the ISO string `new Date().toISOString()` (the orders page compares these by `getTime`). `ChecklistItem.lastChecked` is a day number. A start date that is not a valid calendar date (for which the browser throws) is excluded by a precondition.
- A `NaN` interval from an empty number input is not modelled. An interval of 0 is modelled, and defaults to 3.
- AssetsPage.ApplyEdit, AssetsPage.UpdateOneRow: a cleared date input sends `""`, which the source stores as `nextMaintenance` and for which its day difference is `NaN`, so no warning is logged. The model's dates are always day numbers, so this input state is not represented.
- StockPage.HandleAddSubmit, StockPage.AdjustedQuantity: an emptied quantity or minimum field stores `parseInt("")`, which is `NaN`, and every later `Math.max` and `<` on that item then behaves as `NaN` does. The model's quantities are always integers, so this input state is not represented.
- StoreSpec.Merge, StoreSpec.UpdateOrder: the patch covers only `status`, `technician`, `isWaitingPurchase` and `evidencePhoto`. `updateOrder` spreads any `Partial<OS>`, so in the source a caller could also change the priority, description, deadline, asset name, location, service type or any other field. The only caller, the evidence upload of the orders page, sends just the photo.
- Voice playback, AI calls (services/gemini.ts), camera capture and QR decoding, and device sniffing (services/device.ts) are not modelled. Only the lookup rule a decoded text goes through is.
- The PDF, CSV and WhatsApp text formatting of the reports page is not modelled; only the record selection and the top-3 selections are.
- Timers and polling (`setTimeout` latency, `setInterval` re-reads) are not modelled. Transient flags such as `isSyncing` and `loading` are not modelled either. Each handler is modelled as if its timer had fired.
- The file read of an uploaded photo is not modelled: the data URL is a parameter.
- The Dashboard and Security pages, and constants.tsx, are not part of this model. `window.location.reload` after a role change is not modelled either.
- The optional OS fields `equipmentReplacement`, `partsUsed`, `materialNeeds`, `completedAt` and `cost` are not in the model's `Order`, `OrderDraft` or quick-form state. `createOrder` spreads whatever the caller passes, so the real stored order does carry the three purchase texts the quick form sends; the model drops them because no modelled rule reads them. The default deadline is a parameter.
- Access.Resolve: paths are matched as exact strings. React Router also matches a path that differs in letter case or ends with a trailing slash (`/Assets`, `/assets/`), which the model sends to the `*` fallback instead.
- Access.NavAgreesWithRoutes: stated for the three known roles only; a stored role outside them sees no guarded item and no guarded page, which the lemma does not cover.
