# Tilrettelegging: a verified model of the record store, its router and the student page

Tilrettelegging is a desktop app in which school staff keep track of the
exam accommodations (`tilrettelegginger`) each student (`elev`) has in each
subject group (`faggruppe`). Each record has three 0/1 flags (`ekstra_tid`:
extra time, `skjermet_plass`: a screened seat, `opplest_oppgave`: the paper
read aloud) and a free-text comment. The renderer talks to the main process
through a single `api-request` channel. That process picks a handler by
method and path and runs it against a two-table SQLite store, whose schema a
versioned migration creates.

This Dafny project models that core and proves properties of it:

- `Schema` (schema.dfy): the two tables as sequences of datatypes inside a `Database` class. The class also carries the schema version, which tables exist, and whether SQLite's `sqlite_sequence` counter table exists. `RunMigrations` is the migrator (`database-migration.js`).
- `Queries` (queries.dfy): the five reads, stated as pure functions. These are the prefix search with `ORDER BY` and `LIMIT 10`, the distinct group names, a student with their records, the first record of a group, and the join by group.
- `Handler` (handler.dfy): the fourteen handlers of `database-handler.js`. Each is a method that changes the `Database` object in place and answers `Ok` or `Err`. Each write is tied to a pure function on the tables, and lemmas show that function keeps the table invariants. The invariants are unique ids, owners that exist, flags that are 0/1, and rows kept in row id order.
- `Router` (router.dfy): the `api-request` handler up to the handler call. It is a pure function from method, endpoint, params and body to a route, or to the error that handler returns.
- `Ipc` (ipc.dfy): the route followed by a handler call, with the effect of each call on the store.
- `ElevvisningPage` (elevvisning.dfy): the student page.
  - Pure functions model the list logic: the optimistic cell edit, the bulk maps, the selection toggle, the "all checked" boxes and the guards.
  - Lemmas prove that each list change equals what a fresh fetch would show after the store's own update.
  - A `Page` class holds the component state. Its methods are the handlers; `confirmDeletion` is a loop with invariants.
- `Autocomplete` (autocomplete.dfy): the suggestion box. It has a pure local filter, and a class whose two methods update `suggestions` and `loading`.
- `Wrappers`, `Text`, `Seqs`, `Js`, `Sql`: shared helpers.
  - `Option` and `Result`.
  - ASCII case mapping, splitting, decimals and code-point order.
  - `filter`, `map`, sort and limit.
  - JavaScript values and truthiness.
  - How better-sqlite3 binds values, and how SQLite stores and matches them.

How the library and engine behaviour is modelled:

- **Values and binding.** A JavaScript value is `undefined`, `null`, a boolean, an integer or a string. better-sqlite3 binds `undefined` and `null` as NULL and a number as REAL. It rejects a boolean with a TypeError.
- **Column affinity.** A TEXT column stores a number as its decimal text with `.0`. An INTEGER column stores an integral number as an integer, and text of digits only as the number it spells.
- **`LIKE sok || '%'`.** This is SQLite's default LIKE. It is an ASCII-case-insensitive prefix test.
- **Ordering.** `ORDER BY` is a stable sort on the text column, with NULL first and text in code-point order.
- **New row ids.** A new row id is one more than the largest existing id, or 1 in an empty table.
- **Scan order.** A table is a sequence in ascending row id order, the order in which SQLite scans a table without a usable index. Every write keeps that order, so a `LIMIT 1` without `ORDER BY` picks the lowest row id that matches.
- **Foreign keys.** The code never turns them on: `db.js:8` opens the file with `new Database(dbPath)`, `main.js:90-91` only runs the migrations, and no `PRAGMA foreign_keys` appears anywhere. The model assumes that the SQLite bundled with better-sqlite3 enforces foreign keys by default, as that driver's build does. Under this assumption, deleting a student cascades to their records, and an `INSERT` into `tilrettelegginger` fails with a foreign-key error when the owner is missing.
- **Library calls as parameters.** `decodeURIComponent` is the parameter `decode`: `None` where it throws. The migrator's I/O faults are the parameter `fault`. The remote reply of the suggestion box is the parameter `remote`.

Two consequences of the code worth stating:

- The prefix search ignores ASCII case, because SQLite's LIKE does.
- A store stamped above version 1 is stamped back to 1, because the migrator's guard is `===` (`Schema.MigrateNewerStore`).

## Model

| member | source | states |
|---|---|---|
| Schema.Database.constructor | database-migration.js:7-8 | a new store file has `user_version` 0, no tables and no counter table |
| Schema.RunMigrations | database-migration.js:6-68 | a store already at version 1 is untouched. A fault rolls everything back and changes nothing. Otherwise the store ends at version 1, and both tables exist when it started below 1. Rows are never touched, and for a store at version 1 or above the tables present stay as they were |
| Schema.RunMigrationsTwice | database-migration.js:12-15 | after a successful first run the second succeeds and is a no-op: the rows and the counter table are those the store started with, the version is 1, both tables exist when the store started below 1, and table presence is untouched when it started at 1 or above |
| Schema.MigrateNewerStore | database-migration.js:12-63 | a store stamped above 1 succeeds and is stamped down to 1, with no table changed |
| Sql.Bind | database-handler.js:48 | binding fails exactly for a boolean, with the TypeError's message |
| Sql.TextColumn | database-migration.js:29-44 | TEXT affinity: NULL stays NULL, text is kept, a number is stored as its text with `.0` |
| Sql.IntegerColumn | database-migration.js:29-44 | INTEGER affinity: NULL stays NULL, a number stays an integer, text of digits only becomes the number it spells, other text is kept |
| Sql.LikePrefixIsLowerStartsWith | database-handler.js:8-9 | the prefix LIKE is the same predicate as lower-casing both sides and testing `startsWith` |
| Js.Bit | database-handler.js:56 | `v ? 1 : 0` is 1 exactly when `v` is truthy and 0 exactly when it is not |
| Queries.SearchPrefix | database-handler.js:6-9 | `sok = ''` as default, then `sok + '%'`: an absent term is empty, any other value is converted to its string |
| Queries.SearchElever | database-handler.js:6-11 | at most ten students, each matching the prefix and taken from the table, in name order. The result is a sub-multiset of the matches, and no match left out sorts before a returned one; the length is the smaller of 10 and the number of matches |
| Queries.SearchEleverFacts | database-handler.js:8-9 | the ordered, limited list contains only matches, is in name order, and every match it leaves out sorts after what it keeps |
| Queries.MatchingGroupNames | database-handler.js:15-16 | a name is listed exactly when some record has it as group name and it matches the prefix (NULL never matches) |
| Queries.SearchFaggrupper | database-handler.js:13-18 | at most ten pairwise distinct group names, each matching the prefix and present in some record, in order; no matching name left out sorts before one returned |
| Queries.SearchFaggrupperFacts | database-handler.js:15-16 | the distinct, ordered, limited list has no duplicates, only present matching names, is sorted, and leaves out only names that sort after it |
| Queries.FindElev | database-handler.js:22-23 | `.get` finds a row exactly when some student has the id, and the row it finds has that id |
| Queries.ElevById | database-handler.js:20-27 | the error 'Elev ikke funnet.' exactly when no student has the id; otherwise that student and exactly the records with that `elev_id` (same multiset), ordered by group name |
| Queries.FirstOfGroup | database-handler.js:32 | the index of the first record of the group in table order, or the end when there is none |
| Queries.FaggruppeDetails | database-handler.js:31-34 | nothing exactly when no record has the group; otherwise `fagnavn`, `lærer` of the first such record in scan order |
| Queries.FaggruppeDetailsLowestId | database-handler.js:32 | on rows in row id order, the record `LIMIT 1` picks is the group's record with the lowest id |
| Queries.JoinRecord | database-handler.js:36 | the joined rows of one record are exactly its student's, and none when the record is outside the group |
| Queries.JoinGroup | database-handler.js:36 | a joined row is present exactly when a student and one of their records of the group produce it |
| Queries.EleverForFaggruppe | database-handler.js:35-38 | exactly the joined rows of the group, in name order, a permutation of the join |
| Queries.EleverForFaggruppeFacts | database-handler.js:36 | sorting the join keeps exactly its rows and puts them in name order |
| Handler.MaxOf | database-handler.js:40 | the largest id is one of the ids and bounds them all |
| Handler.NextRowId | database-handler.js:40 | the new row id exceeds every id, is 1 in an empty table and one past an existing id otherwise |
| Handler.NextElevId | database-handler.js:40 | a new student id is larger than every stored one |
| Handler.NextRecordId | database-handler.js:48 | a new record id is larger than every stored one |
| Handler.StoredText | database-handler.js:48 | what a TEXT column stores: a string as given, a number as its text with `.0`, NULL exactly for `undefined`/`null` |
| Handler.NewElev | database-handler.js:40 | the insert fails exactly for a boolean argument (bind error) or a missing name (NOT NULL); otherwise the row has a fresh id and stores name and class exactly as given, not normalised |
| Handler.InsertElevKeepsValid | database-handler.js:40 | appending a student with a fresh id keeps the tables valid |
| Handler.RemoveElev | database-handler.js:44 | exactly the students without the id remain |
| Handler.CascadeRecords | database-migration.js:45 | exactly the records of other students remain |
| Handler.DeleteElevKeepsValid | database-handler.js:44 | deleting a student with the cascade keeps the tables valid |
| Handler.ChangesOfUniqueId | database-handler.js:44 | under unique ids at most one row has the id, exactly one when it is present |
| Handler.NewRecord | database-handler.js:48 | a boolean among the four arguments gives the bind error; a missing `elev_id` gives NOT NULL; an id naming no student gives the foreign-key error. Otherwise the record has a fresh id, that owner, the three texts as stored, all flags 0 and comment `""` |
| Handler.InsertRecordKeepsValid | database-handler.js:48 | appending a fresh, owned record with 0/1 flags keeps the tables valid |
| Handler.RemoveRecord | database-handler.js:52 | exactly the records without the id remain |
| Handler.RemoveRecordKeepsValid | database-handler.js:52 | deleting a record keeps the tables valid |
| Handler.UpdateRecordsKeepsValid | database-handler.js:56-64 | a change that keeps ids and owners and 0/1 flags keeps the tables valid |
| Handler.RecordUpdate | database-handler.js:56 | fails exactly when the comment is a boolean; otherwise each flag is 1 exactly when its input is truthy, and the comment is stored as text |
| Handler.UpdateRecord | database-handler.js:56 | same length; the record with the id takes the flags and comment and keeps every other column; every other record is unchanged |
| Handler.SetFlagForElev | database-handler.js:60 | same length; every record of the student has that one flag set and everything else kept; other students' records are unchanged |
| Handler.SetKommentarForElev | database-handler.js:64 | same length; every record of the student has the comment set; other records unchanged |
| Handler.FlagColumnOf | database-handler.js:60 | the whitelist: a column exactly for the three flag names, and the column has that name |
| Handler.Capitalize | database-handler.js:68 | same length, first character upper case, the rest lower case |
| Handler.CapitalizeKeepsSpaces | database-handler.js:68 | capitalising a segment neither adds nor removes spaces |
| Handler.CapitalizeIdempotent | database-handler.js:68 | capitalising twice is capitalising once |
| Handler.FormatNameWords | database-handler.js:68 | the formatted name splits into the capitalised segments of the original, one for one (so the segment count is kept) |
| Handler.FormatName | database-handler.js:68 | each space-separated segment gets its first character upper-cased and the rest lower-cased |
| Handler.FormatNameIdempotent | database-handler.js:68 | formatting a formatted name changes nothing |
| Handler.UpdateElevRow | database-handler.js:68 | same length; the student with the id takes the new name and class; every other student unchanged |
| Handler.UpdatedElevIs | database-handler.js:68 | after `updateElev`, the row carrying the edited id holds the new name and class |
| Handler.UpdateElevRowKeepsValid | database-handler.js:68 | updating a student's name and class keeps the tables valid |
| Handler.GetElever | database-handler.js:6-11 | the table-missing error, or the prefix search of `sok` (`''` when absent) |
| Handler.GetFaggrupper | database-handler.js:13-18 | the table-missing error, or the distinct group-name search |
| Handler.GetElevById | database-handler.js:20-27 | the table-missing errors in statement order, 'Elev ikke funnet.' for an absent id, otherwise the student with their ordered records |
| Handler.GetFaggruppeDetails | database-handler.js:31-34 | the table-missing error, or the subject and teacher of the group's record with the lowest row id |
| Handler.GetEleverForFaggruppe | database-handler.js:35-38 | the table-missing errors, or the ordered join |
| Handler.AddElev | database-handler.js:39-42 | no body gives the destructuring error; otherwise the insert's error, or the new row appended and its id, name and class answered; a failure changes nothing |
| Handler.DeleteElev | database-handler.js:43-46 | the student and all their records are gone; `changes` is 1 when the id was present, 0 otherwise |
| Handler.AddTilrettelegging | database-handler.js:47-50 | no body gives the destructuring error; otherwise the insert's error with nothing changed, or exactly the new record appended and its id answered |
| Handler.DeleteTilrettelegging | database-handler.js:51-54 | the record is gone, students are untouched, `changes` is 1 or 0 |
| Handler.UpdateTilrettelegging | database-handler.js:55-58 | the bind error with nothing changed, or only the record with the id updated and `changes` 1 or 0 |
| Handler.BulkUpdateTilrettelegginger | database-handler.js:59-62 | a field off the whitelist gives 'Ugyldig felt for oppdatering.' with nothing changed; otherwise just that flag set to `value ? 1 : 0` on exactly the student's records, `changes` their number |
| Handler.BulkUpdateKommentar | database-handler.js:63-66 | only the comment of exactly the student's records changes, `changes` their number; a boolean gives the bind error |
| Handler.UpdateElev | database-handler.js:67-70 | a name or class that is not text gives the TypeError with nothing changed; otherwise the name formatted per segment and the class upper-cased, on the student with the id only |
| Handler.ClearAllData | database-handler.js:71-74 | all or nothing: succeeds exactly when both tables and the counter table exist, then both tables are empty; any failing statement leaves the store unchanged |
| Handler.ClearAllDataTolerant | database-handler.js:71-74 | the wipe without the counter-table statement succeeds exactly when both tables exist, and then empties them |
| Handler.WipeAfterMigration | database-handler.js:72 | on a freshly migrated store holding one student, the wipe as written fails on `sqlite_sequence` and the student stays |
| Handler.WipeAfterMigrationTolerant | database-handler.js:72 | on the same store, the corrected wipe succeeds and nothing remains |
| Router.MatchDigits | main.js:115 | `^prefix(\d+)$` matches exactly an endpoint of the prefix plus digits, and captures them |
| Router.MatchRest | main.js:116 | `^prefix(.+)$` matches exactly the prefix plus a non-empty rest without line terminators, and captures it |
| Router.DigitRun | main.js:119 | the longest leading run of digits |
| Router.DigitRunOfDigitsThen | main.js:119-120 | digits followed by a non-digit split exactly there |
| Router.MatchDigitsThen | main.js:119-120 | `^prefix(\d+)suffix$` matches exactly prefix, digits, suffix, and captures the digits |
| Router.Decoded | main.js:124-125 | a decode failure becomes 'URI malformed' |
| Router.HandleRequest | main.js:112-144 | every route it picks captures digit strings where an id is expected |
| Router.MissingMethodIsGet | main.js:112 | a request without a method is routed as GET |
| Router.EffectiveMethod | main.js:112 | the destructuring default: an absent method is `GET`; the reply's message names this method |
| Router.ElevPathIsNoOtherPath | main.js:115-120 | a student path matches no group, record or fixed path |
| Router.ElevByIdRoutes | main.js:115-142 | `/api/elever/<digits>` goes to `getElevById` on GET, `deleteElev` on DELETE, `updateElev` with the body on PUT |
| Router.NonDigitIdIsUnknown | main.js:115-144 | a non-digit student id does not match, and GET or PUT on it is an unknown endpoint |
| Router.SuffixesDiffer | main.js:119-120 | the two bulk paths never coincide |
| Router.BulkPathIsNoOtherPath | main.js:115-120 | because of `$`, a bulk path never matches the by-id pattern or a fixed path |
| Router.BulkPathIsNoFixedPath | main.js:126-133 | a bulk path is neither `/api/elever` nor `/api/tilrettelegging` |
| Router.BulkFlagMatch | main.js:119 | the flag bulk path captures the student's digits |
| Router.BulkKommentarMatch | main.js:120 | the comment bulk path captures the digits and is not the flag path |
| Router.BulkRoutes | main.js:129-134 | POST on the two bulk paths reaches the two bulk handlers with the captured id and the body |
| Router.NonDigitBulkIsUnknown | main.js:119-134 | a bulk path whose id does not start with a digit, such as a negative id, is an unknown endpoint on POST |
| Router.GroupPathsDiffer | main.js:116-117 | group paths match neither the student pattern nor each other |
| Router.GroupRoutes | main.js:124-125 | GET on `/api/faggrupper/<x>` and `/api/faggruppe/<x>` reaches the detail and list handlers with the decoded name, or the decode error |
| Router.FixedReadRoutes | main.js:126-127 | GET on `/api/elever` and `/api/faggrupper` reaches the two searches with `params?.sok` |
| Router.FixedWriteRoutes | main.js:130-138 | POST on `/api/elever` and `/api/tilrettelegging` adds; DELETE on `/api/database/all-data` wipes |
| Router.FixedRoutes | main.js:126-138 | the searches take `params?.sok`; POST on `/api/elever` and `/api/tilrettelegging` adds; DELETE on `/api/database/all-data` wipes |
| Router.TilretteleggingRoutes | main.js:137-141 | PUT and DELETE on `/api/tilrettelegging/<digits>` reach the record update and delete |
| Router.NonDigitRecordPathIsUnknown | main.js:118-144 | PUT and DELETE on a record path without digits are unknown endpoints |
| Router.UnknownIsNotMalformed | main.js:144-147 | the unknown-endpoint message is never the decode error |
| Router.UnknownEndpointExactly | main.js:122-144 | the answer is 'Ukjent endepunkt: <method> <endpoint>' exactly when no pattern for the (defaulted) method matches |
| Router.RequestErrors | main.js:114-148 | nothing escapes: a non-string endpoint gives the TypeError, and every other error is the decode error or the unknown endpoint |
| Ipc.RowIdOfRenderedId | main.js:115 | an id written into a path by a template literal is read back as the same id |
| Ipc.GetOnlyReads | main.js:122-128 | a GET, or a request without a method, can only reach a read |
| Ipc.DispatchRead | main.js:123-127 | each GET route's handler answer; the store as the page reads it |
| Ipc.DispatchStudentWrite | main.js:130-142 | the student routes keep the store valid and the schema, change nothing on failure, and store the update of a student |
| Ipc.DispatchBulkWrite | main.js:131-132 | the two bulk routes keep the store valid, the schema and the students; a refused body changes nothing; an accepted one sets the flag or the comment on exactly the student's records |
| Ipc.DispatchRecordWrite | main.js:133-141 | the add, delete and update routes of a record keep the store valid, the schema and the students, change nothing on failure, fail exactly when the handler refuses, and store the added, deleted or updated record |
| Ipc.Dispatch | main.js:123-142 | the handler call keeps the store valid and the schema; a failed call or a read changes nothing; the effect of each page route on the store |
| Ipc.ApiRequest | main.js:112-149 | the route, then the handler call; an unmatched request gets the router's error and changes nothing; GET never changes the store |
| ElevvisningPage.ToRow | database-handler.js:24 | the row object `SELECT *` gives for a record: one property per column, by column name |
| ElevvisningPage.StoreRows | database-handler.js:24 | the rows the fetch returns: the student's records ordered by group name, as row objects |
| ElevvisningPage.StoreRecords | frontend/src/pages/ElevvisningPage.jsx:38-41 | the fetched list holds exactly the student's records |
| ElevvisningPage.FinalValue | frontend/src/pages/ElevvisningPage.jsx:106 | a boolean becomes 1 or 0, any other value is kept, and truthiness is preserved |
| ElevvisningPage.OptimisticUpdate | frontend/src/pages/ElevvisningPage.jsx:108-110 | same length; rows with the id get `field` set to the final value and keep every other property; other rows unchanged |
| ElevvisningPage.FindById | frontend/src/pages/ElevvisningPage.jsx:113 | nothing exactly when no row has the id; otherwise the first row with it |
| ElevvisningPage.FlagRow | frontend/src/pages/ElevvisningPage.jsx:106-110 | a flag set on a record is the property set on its row |
| ElevvisningPage.KommentarRow | frontend/src/pages/ElevvisningPage.jsx:98 | a comment set on a record is the property set on its row |
| ElevvisningPage.EditedRow | frontend/src/pages/ElevvisningPage.jsx:106-110 | a cell edit of a record shows as the row with the final value |
| ElevvisningPage.FlagEditUpdate | frontend/src/pages/ElevvisningPage.jsx:106-119 | a checkbox edit read back by `updateTilrettelegging` sets that flag to the box's bit and keeps the other flags and the comment |
| ElevvisningPage.KommentarEditUpdate | frontend/src/pages/ElevvisningPage.jsx:95-119 | a comment edit read back by `updateTilrettelegging` stores the text and keeps the flags |
| ElevvisningPage.EditedRowUpdate | frontend/src/pages/ElevvisningPage.jsx:113-119 | the edited row sent as the body is accepted by `updateTilrettelegging` and stores exactly the edit |
| ElevvisningPage.SameIdSameRecord | frontend/src/pages/ElevvisningPage.jsx:113 | under unique ids the record with an id is determined |
| ElevvisningPage.StoreRowsAfterMap | frontend/src/pages/ElevvisningPage.jsx:108-110 | a change that keeps owners and groups commutes with the fetch's filter and order |
| ElevvisningPage.EditShowsAsUpdate | frontend/src/pages/ElevvisningPage.jsx:108-119 | the store's update of one record, fetched, equals the optimistic list |
| ElevvisningPage.ChangeKeepsOwnerAndGroup | database-handler.js:56 | the record update leaves owner and group alone |
| ElevvisningPage.EditOfRecordMatchesStore | frontend/src/pages/ElevvisningPage.jsx:104-120 | for a record of the store, the optimistic edit equals a fresh fetch after the PUT it sends |
| ElevvisningPage.UpdatedRowAt | frontend/src/pages/ElevvisningPage.jsx:108-110 | a row with the id becomes that row with the field set to the final value |
| ElevvisningPage.RowIdOfRecord | frontend/src/pages/ElevvisningPage.jsx:109 | a record's row object carries the record's `tilrettelegging_id`, the property the page matches rows by |
| ElevvisningPage.UpdatedIds | frontend/src/pages/ElevvisningPage.jsx:108-110 | the optimistic update of a fetched list keeps every row's id |
| ElevvisningPage.NoMatchNoChange | frontend/src/pages/ElevvisningPage.jsx:108-113 | when no row has the id, the optimistic update is the list itself |
| ElevvisningPage.FoundRowMatchesStore | frontend/src/pages/ElevvisningPage.jsx:108-119 | when a fetched row has the id, the found row sent as the body stores the edit and the optimistic list is what a refetch shows |
| ElevvisningPage.OptimisticUpdateMatchesStore | frontend/src/pages/ElevvisningPage.jsx:104-120 | for any id: without a row nothing changes; otherwise the PUT of the found row succeeds and the optimistic list is what a refetch shows |
| ElevvisningPage.GlobalFlagChange | frontend/src/pages/ElevvisningPage.jsx:124 | every row has `field` set by the value's truth and keeps every other property; the box reads checked after true, unchecked after false on a non-empty list |
| ElevvisningPage.GlobalKommentar | frontend/src/pages/ElevvisningPage.jsx:148 | every row has the comment set and keeps every other property |
| ElevvisningPage.GlobalFlagMatchesStore | frontend/src/pages/ElevvisningPage.jsx:122-131 | the optimistic bulk map equals a refetch after the store's bulk flag update |
| ElevvisningPage.GlobalKommentarMatchesStore | frontend/src/pages/ElevvisningPage.jsx:146-155 | the optimistic comment map equals a refetch after the store's bulk comment update |
| ElevvisningPage.AllChecked | frontend/src/pages/ElevvisningPage.jsx:237-239 | `every(t => t[field] === 1)`: a box reads checked when every row has the flag strictly equal to 1 |
| ElevvisningPage.FlagOfRow | frontend/src/pages/ElevvisningPage.jsx:237-239 | a flag's property on a record's row holds the record's flag |
| ElevvisningPage.AllCheckedOfStore | frontend/src/pages/ElevvisningPage.jsx:237-239 | a box reads checked exactly when every record of the student has the flag 1 (so for none) |
| ElevvisningPage.ToggleSelection | frontend/src/pages/ElevvisningPage.jsx:176-178 | a selected id is removed and nothing else; an absent id is appended |
| ElevvisningPage.ToggleKeepsNoDuplicates | frontend/src/pages/ElevvisningPage.jsx:177 | the toggle keeps the selection free of duplicates |
| ElevvisningPage.ToggleTwice | frontend/src/pages/ElevvisningPage.jsx:177 | toggling twice restores the selection as a set, and exactly when the id was absent |
| ElevvisningPage.SaveChangesRequest | frontend/src/pages/ElevvisningPage.jsx:61-70 | no request exactly when name or class is falsy |
| ElevvisningPage.AddFagRequest | frontend/src/pages/ElevvisningPage.jsx:160-166 | no request exactly without a student or with a falsy group name |
| ElevvisningPage.DeleteModalOpens | frontend/src/pages/ElevvisningPage.jsx:179-181 | the dialog opens only with a non-empty selection, and stays open if it was |
| ElevvisningPage.SaveChangesReachesUpdateElev | frontend/src/pages/ElevvisningPage.jsx:65-69 | the save request reaches `updateElev` on the page's id with the edit as body |
| ElevvisningPage.AddFagRoutes | frontend/src/pages/ElevvisningPage.jsx:163-167 | the add request is routed to `addTilrettelegging` with the form's body and the student's id |
| ElevvisningPage.NewFagBody | frontend/src/pages/ElevvisningPage.jsx:166 | `{ elev_id: elev.elev_id, ...nyttFagData }`: the form's properties over the student's id |
| ElevvisningPage.AddFagCreatesRecord | frontend/src/pages/ElevvisningPage.jsx:166 | `addTilrettelegging` on the add body creates a record for the page's student with the form's texts |
| ElevvisningPage.PathRowId | frontend/src/pages/ElevvisningPage.jsx:184 | a non-negative number in a path names that row; a negative one names none |
| ElevvisningPage.FetchedRows | frontend/src/pages/ElevvisningPage.jsx:38-41 | the fetched records, as rows, are the student's list |
| ElevvisningPage.Page.constructor | frontend/src/pages/ElevvisningPage.jsx:12-29 | every piece of state starts at its `useState` value |
| ElevvisningPage.Page.GetStudent | frontend/src/pages/ElevvisningPage.jsx:38 | the GET succeeds exactly for digits naming a stored student, then with that student's details; the store is untouched |
| ElevvisningPage.Page.FetchElevData | frontend/src/pages/ElevvisningPage.jsx:34-48 | without an id only loading ends; otherwise the message is cleared; for a stored student the page shows `getElevById`'s student (the stored row with that id), the store's list of their records, and an edit form holding their name and class; otherwise it shows 'Kunne ikke laste elevdata.' and keeps the student, list and edit form |
| ElevvisningPage.Page.ShowThenRefresh | frontend/src/pages/ElevvisningPage.jsx:73-74 | setting a message and then refetching leaves the message empty whenever the page has an id; for a stored student the page shows that student, their list and their name and class in the edit form |
| ElevvisningPage.Page.RefreshThenShow | frontend/src/pages/ElevvisningPage.jsx:73-74 | refetching first and then setting the message keeps the message; for a stored student the page shows that student, their list and their name and class in the edit form |
| ElevvisningPage.Page.SendSave | frontend/src/pages/ElevvisningPage.jsx:66-70 | the PUT succeeds exactly for a digit id, an existing table and a textual name and class; then the student row takes the formatted name and upper-cased class; a refused PUT changes nothing |
| ElevvisningPage.Page.HandleSaveChanges | frontend/src/pages/ElevvisningPage.jsx:61-79 | the empty-field error with nothing sent; a refused PUT shows 'Kunne ikke oppdatere elevdata.' and changes neither the store nor the page's data; an accepted one updates the student row as `updateElev` does, editing ends, the message is lost, and for a stored student the refetched page shows the store's list and the student with the formatted name and upper-cased class, which the edit form now holds |
| ElevvisningPage.Page.OpenCommentModal | frontend/src/pages/ElevvisningPage.jsx:82-88 | the dialog opens on the row's id and comment |
| ElevvisningPage.Page.CloseCommentModal | frontend/src/pages/ElevvisningPage.jsx:90-93 | the dialog closes and forgets the row |
| ElevvisningPage.Page.HandleUpdateTilrettelegging | frontend/src/pages/ElevvisningPage.jsx:104-120 | the list becomes the optimistic update; the students stay; the PUT of the found row updates the record the id names when the store accepts it, and changes nothing otherwise; a page that showed the store still shows it after a cell edit |
| ElevvisningPage.Page.SendUpdate | frontend/src/pages/ElevvisningPage.jsx:113-119 | `PUT /api/tilrettelegging/${id}` with the row: an accepted request updates exactly the record the path names as `updateTilrettelegging` does; a refused one changes nothing; the students stay |
| ElevvisningPage.Page.HandleSaveComment | frontend/src/pages/ElevvisningPage.jsx:95-101 | with an open row the comment edit is applied to the list and sent: the store updates that record when it accepts the row and changes nothing otherwise; the students stay; the dialog closes either way |
| ElevvisningPage.Page.SendBulkFlag | frontend/src/pages/ElevvisningPage.jsx:126-130 | for a non-negative id, an existing table and one of the three flags, every record of the student takes the value's bit; otherwise nothing changes; the students stay |
| ElevvisningPage.Page.SendRouted | frontend/src/pages/ElevvisningPage.jsx:126-154 | a request the router resolves to a route changes the store exactly as that route's handler does, keeps the store valid and its schema, and changes nothing when refused |
| ElevvisningPage.Page.SendNegativeBulk | frontend/src/pages/ElevvisningPage.jsx:126-154 | a bulk request for a negative student id reaches no route and changes nothing |
| ElevvisningPage.Page.HandleGlobalTilretteleggingChange | frontend/src/pages/ElevvisningPage.jsx:122-131 | without a student nothing happens; otherwise the bulk map on the list, the students stay, the store sets the flag on the student's records when it accepts the request and changes nothing otherwise, and a page that showed the store still shows it |
| ElevvisningPage.Page.SendBulkKommentar | frontend/src/pages/ElevvisningPage.jsx:150-154 | for a non-negative id and an existing table every record of the student takes the comment; otherwise nothing changes; the students stay |
| ElevvisningPage.Page.HandleGlobalKommentarSubmit | frontend/src/pages/ElevvisningPage.jsx:146-155 | without a student nothing happens; otherwise the comment map on the list, the students stay, the store sets the comment on the student's records when it accepts the request and changes nothing otherwise, and the page still shows the store |
| ElevvisningPage.Page.SendAddFag | frontend/src/pages/ElevvisningPage.jsx:163-167 | the POST succeeds exactly when `addTilrettelegging` accepts the body, and then appends exactly the new record; a refused POST changes nothing |
| ElevvisningPage.Page.HandleAddFagSubmit | frontend/src/pages/ElevvisningPage.jsx:160-175 | the missing-group error with nothing sent; a refused POST shows 'Kunne ikke legge til fag.' and changes neither the store, the list nor the form; an accepted one appends the new record, resets the form, loses the message, and for a stored student the refetched page shows the store |
| ElevvisningPage.Page.HandleSelectFagForDeletion | frontend/src/pages/ElevvisningPage.jsx:176-178 | the selection is toggled |
| ElevvisningPage.Page.HandleDeleteClick | frontend/src/pages/ElevvisningPage.jsx:179-181 | the dialog opens only with a non-empty selection |
| ElevvisningPage.Page.SendDelete | frontend/src/pages/ElevvisningPage.jsx:183-185 | the DELETE removes exactly the record the path names; students and schema untouched |
| ElevvisningPage.Page.ConfirmDeletion | frontend/src/pages/ElevvisningPage.jsx:182-190 | exactly the selected records are gone and every other stays; the selection is empty, the dialog closed, the page shows the store, and the message is lost |
| Autocomplete.LocalFilter | frontend/src/components/AutocompleteSearch.jsx:16-17 | a TypeError exactly when some item's field is not text; otherwise exactly the items whose lower-cased field starts with the lower-cased term, as a subsequence of the list, each as often as it occurs |
| Autocomplete.LocalFilterIgnoresTermCase | frontend/src/components/AutocompleteSearch.jsx:17 | the term in upper or lower case gives the same suggestions |
| Autocomplete.SameLowerSameSuggestions | frontend/src/components/AutocompleteSearch.jsx:17 | terms that differ only in case give the same suggestions |
| Autocomplete.ItemCaseIgnored | frontend/src/components/AutocompleteSearch.jsx:17 | items whose fields differ only in case are kept or dropped together |
| Autocomplete.LongerTermNarrows | frontend/src/components/AutocompleteSearch.jsx:16-17 | typing one more character can only remove suggestions |
| Autocomplete.SearchParams | frontend/src/components/AutocompleteSearch.jsx:22 | the params carry the term as `sok` and nothing else |
| Autocomplete.SearchRequestRoutes | frontend/src/components/AutocompleteSearch.jsx:19-23 | on `/api/elever` and `/api/faggrupper` the request reaches the two searches with the term as prefix |
| Autocomplete.AutocompleteSearch.constructor | frontend/src/components/AutocompleteSearch.jsx:6-8 | no suggestions, not loading |
| Autocomplete.AutocompleteSearch.FetchOrFilterSuggestions | frontend/src/components/AutocompleteSearch.jsx:11-32 | an empty term clears the suggestions and leaves loading as it was; otherwise the local filter's result, or the remote items, and none after a throw, an error reply or no reply; loading ends false |
| Autocomplete.AutocompleteSearch.HandleSelectSuggestion | frontend/src/components/AutocompleteSearch.jsx:39-42 | the suggestions are cleared and `onSelect`, when given, receives the suggestion |

## Left out

- Electron's lifecycle, windows, logging, the update check, the IPC bridge, the Express stub and the better-sqlite3 constructor are outside the model. So are the rest of `main.js` (lines 1-111 and 150 onwards), `electron.js`, `preload.js`, `server.js` and `db.js`.
- The spreadsheet export, the other pages, the modals and all rendering are not modelled.
- `handleEditChange`, `handleAddFagChange`, `handleElevSearchSelect`, `handleFaggruppeSelectForNewFag` and their navigation are not modelled: they copy input into state or navigate.
- Await and batching are not modelled. Each handler runs to the end in one step, a state setter takes effect at once, and the 200 ms debounce is ignored. Requests that interleave while an `await` is pending are not covered.
- SQL LIKE wildcards: `%` and `_` inside `sok` are compared literally, not as wildcards.
- Non-ASCII case: `toUpperCase`, `toLowerCase` and LIKE's case folding are ASCII-only here.
- How SQLite orders rows that tie under `ORDER BY` is implementation-defined. The model uses a stable insertion sort; the contracts promise only a sorted permutation or sorted membership.
- When the largest rowid is at the 64-bit maximum, SQLite picks a random unused rowid. This is not modelled; ids are unbounded.
- Floating-point numbers are not modelled. A number is an integer, so a REAL value with a fraction does not occur.
- Autocomplete.AutocompleteSearch.FetchOrFilterSuggestions: an error reply whose `error` is the empty string is falsy, and the code then stores the reply object itself as the suggestions. The model gives no suggestions for every error reply.
- Remote replies: the main process's reply to the suggestion box is the parameter `remote`. `SearchRequestRoutes` ties the request to the two searches, but the search rows are not converted into suggestion objects.
- ElevvisningPage.PathRowId: a negative id written into a path is not matched by `\d+`, so its DELETE is an unknown endpoint. The model states this, but it does not model non-integer ids.
- Handler.NewRecord: SQLite's INTEGER affinity also converts signed text such as "+1" and decimal text that is an exact integer such as "1.0". The model converts only text of digits, so for an `elev_id` sent in such a form it answers the foreign-key error where SQLite would store the record. The page always sends the id as a number (ElevvisningPage.jsx:166).
- Sql.IntegerColumn: the same gap; signed, decimal and exponent forms of text are kept as text.
- A SQLite build with foreign keys off by default is not modelled. On such a build the cascade and the missing-owner error would not happen, because the code never sets `PRAGMA foreign_keys`.
- The migrator's statement-level faults are the parameter `fault`. Disk-full and corruption modes are not distinguished, and every fault carries the same I/O error.

## Findings

| source | as written | input that shows it | evidently intended | confidence | as-written member | corrected member |
|---|---|---|---|---|---|---|
| database-handler.js:72 | the wipe's third statement deletes from `sqlite_sequence`. That table exists only when some table uses AUTOINCREMENT, which neither table does (database-migration.js:29,36). So on every store the migrator created the statement fails and the transaction rolls back | a store fresh from `runMigrations` with one student, then `DELETE /api/database/all-data` | the two tables are emptied | high (not executed) | Handler.WipeAfterMigration | Handler.WipeAfterMigrationTolerant |
| frontend/src/pages/ElevvisningPage.jsx:73-74 | the success messages 'Elevdata oppdatert!', 'Fag lagt til!' and 'Valgte fag er slettet!' are set just before `fetchElevData`. That function's first synchronous step is `setMessage('')` (line 37), so the message is cleared in the same update (also lines 169-171 and 186-189) | a page for student id "1": save a valid edit, add a subject or confirm a deletion | the message stays visible after the refetch | medium (not executed) | ElevvisningPage.Page.ShowThenRefresh | ElevvisningPage.Page.RefreshThenShow |
