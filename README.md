# Vehicle inventory (al-Barimi) — a Dafny model

This project models the logic of a vehicle-inventory application. The application keeps a
catalogue of vehicles: manufacturer, category, colours, status, import type, location and
chassis number. It has a REST API over two interchangeable stores and a React client with
card views, list editors and settings pages.

What is modelled:

- **The in-memory store `MemStorage`** (`server/storage.ts`).
  - It is a class with an id-keyed vehicle table and an id-keyed manufacturer table, each with
    its id counter, and methods that change them in place.
  - Each table lists its values in insertion order, as a JavaScript `Map` does. Since ids are
    handed out in increasing order, that order is ascending id order.
  - Its methods are create, update, delete, search and filter of vehicles; `markAsSold`,
    `reserveItem` and `transferItem`; the three statistics; manufacturer CRUD and the seeded
    sample data.
- **The database store `DatabaseStorage`.**
  - It is a class over the `inventory_items` rows, whose unique chassis-number constraint is
    part of its invariant, and the appended `location_transfers` log.
  - Search, filter, the three statistics and the stock-level check are the TypeScript that runs
    over the rows `db.select()` returns.
  - Create, update, delete, the transfer rule, selling, reserving and cancelling are the row
    writes (`insert`, `update ... set`, `delete`) and the log append they issue.
- **Route logic** (`server/routes.ts`):
  - the id and required-field guards in front of each storage call;
  - the filter object built from the query string;
  - the sell field trio;
  - the case-insensitive duplicate-manufacturer check;
  - the chassis-number clean-up;
  - the defaults put into a voice-command result.
- **Client logic:**
  - the option-list editor (`list-manager.tsx`);
  - grouping by manufacturer and expand/collapse (`card-view.tsx`, `card-view-new.tsx`);
  - the add-option state machine of the editable select;
  - colour-scheme, preset and logo-map updates on the appearance page;
  - the logo-upload checks and state;
  - the status colours and the CSV text of `lib/utils.ts`.

Modules: `Items` holds the records, `Tables` the id-keyed tables, `Queries` search and filter,
`Stats` and `LocationStats` the aggregations, and `StockLevels` the stock check. `MemStore` and
`DbStore` are the two stores and `Routes` the HTTP layer. `ListManager`, `CardView`,
`CardViewNew`, `EditableSelect`, `Appearance`, `LogoUpload` and `Utils` are the client. `Text`
and `Seqs` are JavaScript string semantics and sequence helpers, and `Wrappers` holds `Option`.

The model follows the code in these places, where a reader might expect otherwise:

- The in-memory store does not refuse a duplicate chassis number on create.
- No store refuses a change of chassis number on update.
- PATCH `/api/inventory/:id` does not translate the unique-constraint error. A duplicate chassis
  number there answers 500, not a duplicate-chassis error.
- The voice result's action falls back to the model's raw intent, which can be absent, and not
  to the `"unknown"` default.
- Each source quirk is kept as it is and stated in a lemma:
  - the in-memory inventory total counts sold vehicles;
  - the in-memory location statistics spell maintenance `"صيانة"`;
  - the filter ignores `location`;
  - `markAsSold` leaves the status alone;
  - the in-memory manufacturer statistics read "sold" off the status, not the flag.

## Model

| member | source | states |
|---|---|---|
| MemStore.MemStorage.constructor | server/storage.ts:122-240 | the store starts with the seven sample vehicles under ids 1 to 7 in order, counter 8, and no manufacturers |
| MemStore.MemStorage.SeedInventory | server/storage.ts:237-239 | creating the drafts in order into an empty table stores the i-th under id i+1 and leaves the counter at n+1 |
| MemStore.MemStorage.GetAllInventoryItems | server/storage.ts:259-261 | the result is the table's records in key order |
| MemStore.MemStorage.GetInventoryItem | server/storage.ts:263-265 | a record is returned exactly when the id is present, and it carries that id |
| MemStore.MemStorage.CreateInventoryItem | server/storage.ts:267-280 | the record with the defaults is stored under the old counter value, an id above every id already present; it is appended to the listing; the counter grows by one; nothing else changes |
| MemStore.MemStorage.UpdateInventoryItem | server/storage.ts:282-289 | an absent id gives undefined and changes nothing; otherwise only that id's record becomes the merge of the old record and the update |
| MemStore.MemStorage.DeleteInventoryItem | server/storage.ts:291-293 | reports whether the id was present; removes exactly that key and keeps the order of the rest |
| MemStore.MemStorage.SearchInventoryItems | server/storage.ts:295-307 | the result is the in-memory search over the listing |
| MemStore.MemStorage.FilterInventoryItems | server/storage.ts:309-324 | the result is the criteria filter over the listing |
| MemStore.MemStorage.GetInventoryStats | server/storage.ts:326-349 | the result is the in-memory counts over all vehicles, sold ones included |
| MemStore.MemStorage.GetManufacturerStats | server/storage.ts:351-379 | the result is the manufacturer statistics over the vehicles whose status is not sold |
| MemStore.MemStorage.MarkAsSold | server/storage.ts:381-388 | an existing vehicle gets the sold flag and the date with its status unchanged; an absent id gives false and changes nothing |
| MemStore.MemStorage.ReserveItem | server/storage.ts:390-397 | an existing vehicle gets the reserved status and the date, nothing else; an absent id gives false and changes nothing |
| MemStore.MemStorage.GetLocationStats | server/storage.ts:399-422 | the result is the in-memory location statistics over all vehicles |
| MemStore.MemStorage.TransferItem | server/storage.ts:424-431 | an existing vehicle gets the new location and nothing is logged; an absent id gives false and changes nothing |
| MemStore.MemStorage.GetAllManufacturers | server/storage.ts:490-492 | the result is the manufacturer records in key order |
| MemStore.MemStorage.GetManufacturer | server/storage.ts:494-496 | a record is returned exactly when the id is present |
| MemStore.MemStorage.CreateManufacturer | server/storage.ts:498-507 | the record is stored under the old counter value, above every existing id, and appended to the listing; the vehicle table is untouched |
| MemStore.MemStorage.UpdateManufacturer | server/storage.ts:509-516 | an absent id gives undefined and changes nothing; otherwise only that record is merged with the update |
| MemStore.MemStorage.DeleteManufacturer | server/storage.ts:518-520 | reports whether the id was present and removes exactly that key |
| Items.NewItemDefaults | server/storage.ts:267-280 | a new vehicle has the given id and entry date and the draft's chassis number; it is unsold without `isSold`, has no images without `images`, and has null notes for absent or empty notes |
| Items.ApplyKeepsIdentity | server/storage.ts:286 | an update never changes the id or the entry date, and the empty update changes nothing |
| Items.ApplyMerge | server/storage.ts:286 | two updates in a row equal the single update `{...p, ...q}` |
| Items.ApplyIdempotent | server/storage.ts:286 | repeating an update changes nothing more |
| Tables.TableInsert | server/storage.ts:268-278 | storing under the counter and incrementing it keeps the table valid and appends the value to the listing |
| Tables.TableReplace | server/storage.ts:286-287 | overwriting a present key with a record of the same id keeps the table valid |
| Tables.TableDelete | server/storage.ts:291-293 | deleting a key keeps the table valid |
| Tables.Remove | server/storage.ts:292 | the key order afterwards holds exactly the other keys |
| Tables.RemoveAscending | server/storage.ts:292 | deleting keeps the listing in ascending id order |
| Queries.SearchMem | server/storage.ts:295-307 | a vehicle is found exactly when the lowercased query occurs in one of its eight lowercased fields |
| Queries.SearchDb | server/storage.ts:575-592 | a vehicle is found exactly when it matches in those fields, the location, non-empty notes, or the year's decimal text |
| Queries.SearchMemWithinDb | server/storage.ts:579-591 | the database search finds everything the in-memory search finds |
| Queries.SearchFindsChassis | server/storage.ts:587 | searching for a vehicle's own chassis number finds it in both stores |
| Queries.SearchEmptyQuery | server/storage.ts:296-306 | the empty query returns every vehicle, in order |
| Queries.SearchLocationOnlyInDb | server/storage.ts:588 | a match on the location alone is found by the database store only |
| Queries.FilterItems | server/storage.ts:603-610 | the result is no longer than the input and holds exactly the vehicles meeting every present criterion |
| Queries.FilterItemsExact | server/storage.ts:316-323 | a vehicle passes exactly when it equals every present, truthy criterion, with 0 and NaN years ignored |
| Queries.FilterNoCriteria | server/storage.ts:316-323 | without criteria every vehicle is returned, in order |
| Queries.FilterIgnoresLocation | server/storage.ts:309-323 | the location criterion never changes the result |
| Queries.FilterFindsSelf | server/storage.ts:316-323 | the criteria made of a vehicle's own fields select it |
| Stats.CountsOverBounded | server/storage.ts:340-347 | the status counters, and separately the import-type counters, add up to at most the total |
| Stats.DbInventoryStatsSound | server/storage.ts:626-638 | in the database variant total + sold equals the number of vehicles, with the counters bounded by the total |
| Stats.MemInventoryStatsSound | server/storage.ts:337-348 | in the in-memory variant sold is at most the total, with the counters bounded by the total |
| Stats.InventoryStatsVariants | server/storage.ts:626-629 | the in-memory total is the database total plus the sold count; with nothing sold the two variants agree on every counter |
| Stats.SoldAvailableCountedByMemOnly | server/storage.ts:339-340 | a sold vehicle still marked available is counted by the in-memory variant only |
| Stats.FindManufacturer | server/storage.ts:368 | a record is found exactly when one has the name, and the one found has it |
| Stats.FindManufacturerFirst | server/storage.ts:368 | the record found is the first with the name |
| Stats.StatsFor | server/storage.ts:366-378 | one entry per name, in order, each that name's counts |
| Stats.ManufacturerStatsSound | server/storage.ts:653-669 | entries have distinct names and cover every counted vehicle; none is empty; import-type counts stay within the total; totals add up to the counted vehicles |
| Stats.DbManufacturerTotalsMatch | server/storage.ts:653-658 | the database manufacturer totals add up to the database inventory total |
| Stats.ManufacturerStatsVariants | server/storage.ts:362 | where the sold flag and the sold status agree, the two stores report the same manufacturer statistics |
| Stats.SoldFlagIgnoredByMem | server/storage.ts:362 | a vehicle flagged sold without the sold status still counts in memory but not in the database |
| Stats.MemLocationStatsFor | server/storage.ts:411-421 | one entry per location, in order, each that location's independent counts |
| Stats.MemLocationStatsSound | server/storage.ts:407-421 | entries have distinct locations and cover every vehicle; status counts and sold each stay within the total; totals add up to the vehicle count |
| Stats.MemMaintenanceSpelling | server/storage.ts:418 | a vehicle under maintenance, spelled as stored, is not counted as maintenance in memory |
| LocationStats.ComputeLocationStats | server/storage.ts:689-717 | the accumulator loop returns the entries of the map of per-location counters, in first-seen order |
| LocationStats.EntriesFor | server/storage.ts:714-717 | one entry per location, in order, each with that location's counters |
| LocationStats.TallyOfCounts | server/storage.ts:700-711 | the total counts the location's vehicles, sold the sold ones, and each status counter the unsold ones with that status |
| LocationStats.TallyOfBounded | server/storage.ts:701-711 | the four sub-counters add up to at most the total |
| LocationStats.DbLocationStatsSound | server/storage.ts:689-717 | entries have distinct locations and cover every vehicle; sub-counts stay within each total; totals add up to the vehicle count |
| LocationStats.LocationStatsVariants | server/storage.ts:703-711 | both stores list the same locations in the same order with the same totals and sold counts |
| LocationStats.SoldTakesPrecedence | server/storage.ts:703-706 | a single sold vehicle, whatever its status, gives one entry counting it in the total and as sold, and in no status counter |
| DbStore.ChassisUniqueWrite | server/routes.ts:331-336 | writing a row whose chassis number no other row has keeps the unique constraint |
| DbStore.ReservationRecorded | server/storage.ts:753-764 | a reservation sets the reserved status, who and when, and the note only when non-empty; id, location, sold flag and chassis stay |
| DbStore.CancelIdempotent | server/storage.ts:766-777 | cancelling twice equals cancelling once |
| DbStore.CancelUndoesReservation | server/storage.ts:766-777 | cancelling after reserving equals cancelling alone, and restores an available, unreserved row exactly |
| DbStore.LogTransferGrows | server/storage.ts:726-735 | the log keeps its prefix and grows by one record, from the old to the new location, exactly on a real move |
| DbStore.TransferTwiceLogsOnce | server/storage.ts:726-735 | a second transfer to the same location logs nothing more |
| DbStore.DatabaseStorage.GetAllInventoryItems | server/storage.ts:542-546 | the result is the rows in ascending id order |
| DbStore.DatabaseStorage.GetInventoryItem | server/storage.ts:548-551 | a row is returned exactly when the id is present |
| DbStore.DatabaseStorage.CreateInventoryItem | server/storage.ts:553-559 | a chassis number already stored fails with no row changed; otherwise the new row gets the next serial id and is appended; either way the serial id is used up, as a PostgreSQL sequence is |
| DbStore.DatabaseStorage.UpdateInventoryItem | server/storage.ts:561-568 | an absent id is not found; a chassis number another row has fails; otherwise only that row becomes the merge; a failure changes nothing |
| DbStore.DatabaseStorage.DeleteInventoryItem | server/storage.ts:570-573 | reports whether a row was deleted and removes exactly that key |
| DbStore.DatabaseStorage.SearchInventoryItems | server/storage.ts:575-592 | the result is the database search over the rows |
| DbStore.DatabaseStorage.FilterInventoryItems | server/storage.ts:594-611 | the result is the criteria filter over the rows |
| DbStore.DatabaseStorage.GetInventoryStats | server/storage.ts:613-639 | the result is the counts over the unsold rows, sold counted over all |
| DbStore.DatabaseStorage.GetManufacturerStats | server/storage.ts:641-670 | the result is the manufacturer statistics over the unsold rows |
| DbStore.DatabaseStorage.GetLocationStats | server/storage.ts:672-718 | the result is the location statistics of the accumulator loop |
| DbStore.DatabaseStorage.TransferItem | server/storage.ts:720-743 | an absent id gives false and changes nothing; otherwise a record is logged only on a real move, then the location is set |
| DbStore.DatabaseStorage.MarkAsSold | server/storage.ts:745-751 | an existing row gets the sold flag and the date with its status unchanged; an absent id changes nothing |
| DbStore.DatabaseStorage.ReserveItem | server/storage.ts:753-764 | an existing row becomes the reserved row; an absent id changes nothing |
| DbStore.DatabaseStorage.CancelReservation | server/storage.ts:766-777 | an existing row becomes the cancelled row; an absent id changes nothing |
| DbStore.DatabaseStorage.CheckStockLevels | server/storage.ts:916-967 | the alerts table afterwards is the stock check over the rows, with each setting's lookup scoped to its manufacturer and category |
| StockLevels.CountStock | server/storage.ts:919-927 | the counting loop gives each key the number of unsold vehicles with that key, and zero by default |
| StockLevels.StockOfIsGroupSize | server/storage.ts:922-927 | a key's stock is the size of its group among the unsold vehicles |
| StockLevels.StockKeysCanCollide | server/storage.ts:924 | two different manufacturer and category pairs can share a key |
| StockLevels.LevelForRanges | server/storage.ts:936-943 | out of stock exactly at 0, critical up to the critical threshold, low up to the low threshold, no alert above both; only the last is falsy |
| StockLevels.LevelForMonotone | server/storage.ts:936-943 | more stock never gives a more severe level |
| StockLevels.AlertsAfterExtends | server/storage.ts:945-961 | the check only appends alerts: the old ones stay in place |
| StockLevels.UnreadKept | server/storage.ts:947-952 | an unread alert for a key stays after more alerts are appended |
| StockLevels.AlertsAfterCovers | server/storage.ts:945-961 | with the scoped lookup, every setting at an alert level has an unread alert for its key afterwards |
| StockLevels.UnscopedLookupSuppressesAlert | server/storage.ts:947-950 | as written, an unread alert for another key stops an out-of-stock setting from getting its alert |
| StockLevels.CheckStockLevels | server/storage.ts:932-963 | the settings loop yields the alerts table of the scoped check |
| Routes.SanitizeEmpty | server/routes.ts:95-98 | the result is empty exactly for the empty text, the "not found" answer, text of at most five UTF-16 units, or text with no kept character |
| Routes.SanitizeOutput | server/routes.ts:97 | the result is no longer than the text, holds only `[A-Z0-9-]`, and is the kept characters upper-cased |
| Routes.SanitizeIdempotent | server/routes.ts:97 | cleaning a clean chassis number longer than five characters changes nothing |
| Routes.SanitizeCanBeShort | server/routes.ts:95-97 | a text that passes the length test can come out shorter than six |
| Routes.ChassisResultsAgree | server/routes.ts:100-101 | the image extractor and the route agree, except that no chassis number is null in one and `""` in the other |
| Routes.FindNameIgnoringCase | server/routes.ts:433-435 | a manufacturer is found exactly when one has the name ignoring case, and the one found has it |
| Routes.FindNameFirst | server/routes.ts:433-435 | the manufacturer found is the first match |
| Routes.CreateManufacturerRoute | server/routes.ts:425-459 | a name equal to an existing one ignoring case is refused with `duplicate_name` and nothing changes; otherwise one record is appended; names stay distinct ignoring case |
| Routes.BuildCriteria | server/routes.ts:192-197 | the conditionally assigned filter object is the one built field by field |
| Routes.QueryCriteriaFields | server/routes.ts:192-197 | a field is present exactly when its parameter is non-empty, and then holds it (the year parsed) |
| Routes.QueryWithoutParameters | server/routes.ts:180-199 | a request without parameters returns every vehicle |
| Routes.QueryOfOwnFields | server/routes.ts:192-199 | the query made of a vehicle's own fields returns it |
| Routes.QueryYearNotANumber | server/routes.ts:194 | a year that parses to NaN imposes nothing |
| Routes.SellPatchSells | server/routes.ts:379-383 | the sell update sets status, flag and date together, leaving the vehicle consistently sold and the rest unchanged |
| Routes.MarkAsSoldLeavesStatus | server/routes.ts:259 | the POST sell route leaves a vehicle flagged sold with another status; the PUT route does not |
| Routes.SellRoute | server/routes.ts:372-391 | a bad id answers 400 with nothing changed, an absent one 404; otherwise the row becomes the sold update of itself |
| Routes.MarkSoldRoute | server/routes.ts:252-268 | a bad id answers 400 with nothing changed; success exactly for a present id, which gets the flag and the date |
| Routes.SearchRoute | server/routes.ts:166-178 | a missing or empty query is refused before the store is read; otherwise the result is the database search |
| Routes.TransferRoute | server/routes.ts:226-249 | the id is checked, then the location, both before the store changes; then success exactly for a present id, which is moved and logged |
| Routes.PostTransferRoute | server/routes.ts:587-602 | a missing location is refused with nothing changed; a non-numeric or absent id answers 404 |
| Routes.ReserveRoute | server/routes.ts:271-293 | the id, then who reserves, are checked before the store changes; success exactly for a present id |
| Routes.CancelReservationRoute | server/routes.ts:296-312 | a bad id answers 400; success exactly for a present id, which is cancelled |
| Routes.CreateItemRoute | server/routes.ts:315-341 | a stored chassis number answers `DUPLICATE_CHASSIS_NUMBER` with the rows unchanged; otherwise the new row is appended; the transfer log never changes |
| Routes.UpdateItemRoute | server/routes.ts:345-369 | a bad id answers 400, an absent one 404, a taken chassis number 500, each with the rows unchanged; a present id with a free chassis number always succeeds and merges that row only; the transfer log never changes |
| Routes.DeleteItemRoute | server/routes.ts:397-413 | a bad id answers 400; success exactly for a present id, which is removed; the transfer log never changes |
| Routes.VoiceDefaultsApplied | server/routes.ts:50-56 | intent, entities, confidence and content always come out truthy; each field keeps a truthy value or takes its default, and the action falls back to the raw intent |
| Routes.VoiceDefaultsStable | server/routes.ts:50-56 | applying the defaults again changes nothing but a falsy action |
| Routes.VoiceEmptyAnswer | server/routes.ts:49-56 | an empty answer gets intent "unknown" and no action; a confidence of 0 becomes 0.5 |
| Text.TrimIdempotent | client/src/components/list-manager.tsx:79 | trimming a trimmed text changes nothing |
| Text.IncludesIff | server/storage.ts:298-305 | `includes` holds exactly when the query occurs at some position |
| Text.ParseIntToString | server/routes.ts:194 | parsing a number's decimal text gives the number back |
| ListManager.AddRefusesBlank | client/src/components/list-manager.tsx:60-67 | a blank value is refused with the message and nothing is saved |
| ListManager.AddedIff | client/src/components/list-manager.tsx:59-86 | a value is added exactly when its trimmed text is non-blank and not listed, as the old list plus that text; a listed one is refused as a duplicate |
| ListManager.AddKeepsNoDup | client/src/components/list-manager.tsx:70-80 | adding keeps a list free of duplicates |
| ListManager.AddTwiceRefused | client/src/components/list-manager.tsx:70-77 | the same value added twice in a row is refused the second time |
| ListManager.EditItem | client/src/components/list-manager.tsx:88-116 | the copy-and-assign handler gives the decision of `Edited` |
| ListManager.CopyWith | client/src/components/list-manager.tsx:108-109 | the copied array with one position assigned is the list with that position replaced |
| ListManager.EditReplacesOnlyIndex | client/src/components/list-manager.tsx:90-110 | an edit is saved exactly when the trimmed value is non-blank and not listed elsewhere; it changes that position only and keeps the length |
| ListManager.EditSameValue | client/src/components/list-manager.tsx:99-106 | saving an entry unchanged is allowed and gives the same list |
| ListManager.EditKeepsNoDup | client/src/components/list-manager.tsx:99-110 | editing keeps a list free of duplicates |
| ListManager.Deleted | client/src/components/list-manager.tsx:122-124 | deleting an index in range shortens the list by one; any other index changes nothing |
| ListManager.DeletedShifts | client/src/components/list-manager.tsx:123 | entries before the index stay and entries after it move up by one |
| ListManager.DeleteUndoesAdd | client/src/components/list-manager.tsx:79-123 | deleting the entry just added gives the list back |
| ListManager.DeleteKeepsNoDup | client/src/components/list-manager.tsx:123 | deleting keeps a list free of duplicates |
| CardView.GroupByManufacturer | client/src/pages/card-view.tsx:20-26 | the reduce loop's keys are the distinct manufacturers in first-seen order, and each group holds that manufacturer's vehicles in order |
| CardView.GroupingPartitions | client/src/pages/card-view.tsx:20-26 | each vehicle is in its manufacturer's group and no other; no group is empty; the sizes add up to the number of vehicles |
| CardView.GroupKeepsOrder | client/src/pages/card-view.tsx:24 | grouping a concatenation concatenates the groups |
| CardView.Toggled | client/src/pages/card-view.tsx:28-36 | the name is in the new set exactly when it was not before; other members are unchanged |
| CardView.ToggleTwice | client/src/pages/card-view.tsx:28-36 | toggling the same name twice restores the set |
| CardView.TogglesCommute | client/src/pages/card-view.tsx:28-36 | toggles of two names commute |
| CardViewNew.AvailableItemsExact | client/src/pages/card-view-new.tsx:41 | the shown list holds exactly the unsold vehicles, in input order |
| CardViewNew.GroupAvailable | client/src/pages/card-view-new.tsx:44-53 | one group per manufacturer of an unsold vehicle, holding its unsold vehicles in order, with a null logo |
| CardViewNew.GroupsHoldUnsold | client/src/pages/card-view-new.tsx:44-53 | a group holds exactly its manufacturer's unsold vehicles and is never empty |
| CardViewNew.EmptyStateIff | client/src/pages/card-view-new.tsx:285 | the empty state shows exactly when every vehicle is sold |
| CardViewNew.ManufacturerLogo | client/src/pages/card-view-new.tsx:56-59 | undefined exactly when no entry has the name; otherwise the logo of an entry with the name |
| CardViewNew.ManufacturerLogoFirst | client/src/pages/card-view-new.tsx:57 | the logo given is that of the first entry with the name |
| CardViewNew.StatusColorCases | client/src/pages/card-view-new.tsx:62-73 | the three known statuses get their styles and exactly the other statuses get the slate default |
| CardViewNew.AvailableBadge | client/src/pages/card-view-new.tsx:199 | the available count never exceeds the group size |
| CardViewNew.AvailableBadgeCounts | client/src/pages/card-view-new.tsx:199 | the badge counts exactly the unsold vehicles of the manufacturer whose status is available |
| EditableSelect.AddedOption | client/src/components/editable-select.tsx:27-34 | an option is added exactly when `onAddOption` is present and the text is not blank, and it is the trimmed text |
| EditableSelect.AddedOptionClean | client/src/components/editable-select.tsx:28-61 | an added option is non-blank and trimmed; the add button is disabled exactly when a click would add nothing |
| EditableSelect.Select.constructor | client/src/components/editable-select.tsx:24-25 | the field starts closed and empty, with nothing handed to the parent |
| EditableSelect.Select.StartAdding | client/src/components/editable-select.tsx:94-103 | the plus button opens the field and changes nothing else |
| EditableSelect.Select.Type | client/src/components/editable-select.tsx:48-50 | typing replaces the text |
| EditableSelect.Select.AddOption | client/src/components/editable-select.tsx:27-34 | a successful add passes the same trimmed text to both callbacks, then clears and closes the field; otherwise nothing changes |
| EditableSelect.Select.KeyPress | client/src/components/editable-select.tsx:36-43 | Enter adds as the button does; Escape closes and clears without adding; other keys change nothing |
| EditableSelect.Select.Cancel | client/src/components/editable-select.tsx:65-72 | cancel closes and clears without adding |
| EditableSelect.Select.SelectValue | client/src/components/editable-select.tsx:82 | picking an entry passes it to `onValueChange` only |
| Appearance.WithColorChangesOnlyKey | client/src/pages/appearance.tsx:161-166 | a colour change sets the chosen key and leaves the other eight |
| Appearance.WithColorOverwrite | client/src/pages/appearance.tsx:161-166 | a second change of a key overrides the first; setting a key to its value is a no-op |
| Appearance.ApplyPresetEffect | client/src/pages/appearance.tsx:168-177 | a preset sets primary, secondary and accent and leaves the other six; applying it twice is once; a later preset replaces an earlier one |
| Appearance.ResetIsInitial | client/src/pages/appearance.tsx:209-220 | the reset scheme equals the initial scheme, colour by colour |
| Appearance.WithLogoTargets | client/src/pages/appearance.tsx:185-198 | company and dashboard set only their own field; any other type sets only that manufacturer's logo and keeps the others |
| LogoUpload.Validate | client/src/components/logo-upload.tsx:17-48 | a file is accepted exactly when it is an image, within the size limit, and loads within 1024×1024 pixels |
| LogoUpload.ValidateOrder | client/src/components/logo-upload.tsx:17-48 | the type check comes first, then size, then dimensions; the first failure's message is the one shown |
| LogoUpload.DefaultLimit | client/src/components/logo-upload.tsx:13-28 | with the default limit an image over 500 KB is refused with the 500 KB message |
| LogoUpload.UploadResultCases | client/src/components/logo-upload.tsx:50-121 | a refused file passes nothing on; an accepted file of at most 100 KB passes on as read; a larger one only as the canvas output; the spinner stays on only when the resized image fails to load |
| LogoUpload.Picker.constructor | client/src/components/logo-upload.tsx:13-15 | the limit defaults to 500; nothing is uploading and there is no error |
| LogoUpload.Picker.HandleFileUpload | client/src/components/logo-upload.tsx:50-121 | no file changes nothing; otherwise the state ends as the upload outcome says and at most one value is passed on |
| LogoUpload.Picker.HandleRemove | client/src/components/logo-upload.tsx:123-126 | the empty string is passed on and the error is cleared |
| Utils.StatusColorCases | client/src/lib/utils.ts:8-19 | available is green, in transit amber, under maintenance red, and exactly the other statuses gray |
| Utils.Field | client/src/lib/utils.ts:27 | a falsy value is exported as the quoted empty string |
| Utils.Fields | client/src/lib/utils.ts:27 | one field per header, in header order |
| Utils.DataLines | client/src/lib/utils.ts:27 | one line per record, in order, its fields joined by commas |
| Utils.ExportShape | client/src/lib/utils.ts:21-28 | an empty list exports nothing; otherwise the first line is the first record's keys, then one line per record with one field per header, and missing keys export as `""` |
| Utils.LinesNoNewline | client/src/lib/utils.ts:25-28 | when the first record's keys and the structured values' texts hold no line feed, no line holds a raw line feed |
| Utils.ExportSplitsIntoLines | client/src/lib/utils.ts:25-28 | when the first record's keys and the structured values' texts hold no line feed, splitting the text at line feeds gives back exactly the header line and one line per record |

## Left out

- I/O is not modelled: the HTTP transport, Express status plumbing beyond the codes returned, bcrypt login, promises and `console` logging.
- Date and clock reads (`new Date()`) are not modelled; each timestamp is a parameter.
- The Drizzle/PostgreSQL calls are not modelled. The database is a map of rows with a serial counter, and the unique chassis-number constraint is its invariant.
- DbStore.DatabaseStorage.GetAllInventoryItems: the rows are listed in ascending id order, though SQL without `ORDER BY` promises no order.
- DbStore.DatabaseStorage.CreateInventoryItem: the column defaults are taken to be the in-memory ones (unsold, no images, null notes and logo).
- DbStore.DatabaseStorage.GetManufacturerStats: the read of the manufacturers table is a parameter.
- DbStore.DatabaseStorage.CheckStockLevels: this is the scoped lookup. The lookup as written is in Findings. The stock-settings and alerts tables are parameters in and a result out. The `try/catch` around the method is not modelled.
- Low-stock alert CRUD, stock settings, appearance settings, users, locations and `updateManufacturerLogo` are not modelled. They are thin database wrappers.
- `MemStorage`'s location and transfer-log stubs are not modelled. They invent records and store nothing.
- The OpenAI calls are not modelled: voice processing, the vision call and the legacy voice route. They are foreign network calls. Only the post-processing of their answers is modelled, and the model's answer is a parameter.
- Text.Lower: lower-casing and upper-casing are ASCII only. Full Unicode case mapping is not modelled. Arabic has no case.
- Text.ParseInt: `parseInt` is modelled on decimal and `0x` hexadecimal digits with arbitrary precision. Its rounding of very long inputs to a double is not modelled.
- Routes.PostTransferRoute: an id that is not a number (`NaN`) is modelled as an id that finds no vehicle. The store is not called with it.
- Routes.CreateManufacturerRoute: this is modelled on the in-memory store. The database store's own unique-name error path, and `zod` validation of the body, are not modelled.
- Routes.CreateItemRoute: `zod` schema validation of the body is not modelled, on this route or the update route. The drafts reaching the store are taken as valid.
- ListManager.EditItem: requires the index to be in range. The handler only receives indices of rendered entries.
- EditableSelect.Select.StartAdding: requires the closed view (and `onAddOption` present). Only that view renders the plus button.
- EditableSelect.Select.Type: requires the open view, where the input is rendered. So do KeyPress and Cancel.
- EditableSelect.Select.SelectValue: requires the closed view, where the select is rendered.
- LogoUpload.Picker.HandleFileUpload: the `catch` branch ("فشل في رفع اللوجو") is not modelled, since nothing modelled in the `try` throws. The resize arithmetic on canvas dimensions is floating point and is left out; the canvas output is a parameter.
- Appearance: the toasts, the preview and the persistence of settings are not modelled. The file reading in `handleLogoUpload` is not modelled; the data URL is a parameter.
- Utils.Field: floating-point numbers are left out, since cells are integers. Arrays, objects and dates are opaque JSON text.
- The Blob and DOM download in `exportToCSV` is not modelled.
- CardView.GroupByManufacturer: assumes manufacturer names are neither integer-like nor inherited property names of a plain object. The accumulator is a plain object. `Object.entries` lists integer-like keys such as `"2020"` first, in ascending order, not in first-seen order. A name such as `constructor` or `toString` makes `!acc[m]` false, so `acc[m].push` throws. The same holds for CardViewNew.GroupAvailable.
- Excel import, the inventory form, login, inventory table paging, the statistics card, the app shell, the seeding script and the schema file are left out. They are I/O or rendering.

## Findings

| source | as written | input that shows it | evidently intended | confidence | as-written member | corrected member |
|---|---|---|---|---|---|---|
| server/storage.ts:947-950 | `checkStockLevels` looks for an existing alert with three chained `.where(...)` calls. In Drizzle each `.where` replaces the previous condition, so only `isRead = false` remains. | One unread low alert for Toyota/Camry, plus a stock setting for another key (Nissan/Patrol) with no vehicles. The setting is out of stock, but the lookup finds the Toyota alert, so no alert is created. | Combine the three conditions with `and(...)`, so that only an unread alert for the same manufacturer and category suppresses a new one. | medium, not executed | StockLevels.UnscopedLookupSuppressesAlert | StockLevels.AlertsAfterCovers |
