# freeradiodata: language canonicalization, ingestion and export

freeradiodata collects radio stations from the Radio Browser directory and publishes
them grouped by language. This project is a Dafny model of the three scripts that
carry its logic, with proofs of what they guarantee:

- **fetch-stations.js** pages through the upstream station list, 1000 records per
  request, while the offset is below the reported total. It writes each record with
  `INSERT OR REPLACE` into the `stations` table. It adds the record's comma-separated
  tags and standardized languages with `INSERT OR IGNORE` to `station_tags` and
  `station_languages`. The whole run is one transaction, and a successful run writes
  a `summary` table (`last_updated`, `total_stations`).
- **process-languages.js** builds a reverse index from each canonical language to
  its spellings. It collapses the upstream language list to one entry per
  standardized name and sorts the entries by station count. `main` then prints the
  totals.
- **export-stations.js** groups the station × language join into one bucket per
  language name and drops the buckets with at most 25 stations. It writes each
  surviving bucket, sorted by votes, to `<slug>.json`. It also writes an `index.json`
  of the buckets, sorted by size, with the totals.

Both ingestion and statistics rely on `standardizeLanguage`. It lower-cases and trims a
label and looks it up in a table of 263 spellings to 78 canonical names. On a miss it
returns the label with its first character upper-cased.

Modules, leaf first:

- `Wrappers`: `Option` and `Result`.
- `Text`: trim, case mapping, split and join, decimal strings.
- `Collections`: `Distinct` and `Sum`.
- `Sorting`: the stable descending sort as a specification `SortDesc`, plus an
  in-place insertion sort proved equal to it.
- `LanguageTable`: the table, one constant per commented group of the source.
- `Canonicalizer`: `standardizeLanguage`.
- `Ingestion`: fetch-stations.js.
- `LanguageStats`: process-languages.js.
- `Export`: export-stations.js.

Code that changes state in place is imperative Dafny:

- the `StationDatabase` class, with its tables and summary as fields;
- the `LanguageProcessor` class, holding the module-level `reverseMap`;
- the sort on an `array`;
- the source's loops, as methods with invariants.

Each method is proved equal to a pure function. The properties are proved as lemmas
about those functions.

Five behaviours of the source are easy to misread. The model follows what the code does:

- **Stale associations stay.** Re-ingesting a station adds its tag and language rows
  with `INSERT OR IGNORE` and never deletes the old ones, so a tag the station has
  dropped is still associated with it. So `Upsert` unions the new rows into the old
  ones. `UpsertIdempotent` and `RunIdempotent` still hold, because the union is
  idempotent.
- **A bad record aborts the run.** A record with a null `name` or `url` violates a
  NOT NULL column, so `stmt.run` throws. Nothing catches the exception inside the
  page loop. It leaves `fetchAllStations` before `COMMIT`, and the transaction is
  abandoned. The model returns the error out of `InsertStation`, `InsertPage` and
  `WritePages`, and `FetchAllStations` restores the tables it started from.
- **Export keeps empty tags.** The exported `tags` are split and trimmed but not
  filtered, so an empty part gives an empty tag (`ExportTagsOfJoin`).
- **Counts are snapshots.** A deduplicated language keeps the count and spelling of
  its first occurrence only, because later occurrences are skipped rather than added
  (`SnapshotIsNotTotal`). It is not the total over all spellings.
- **`index.json` can replace a bucket file.** The index is written last, into the
  directory that holds the bucket files. A language whose slug is `index` has its
  file overwritten by the index. `Directory` models the directory after the run, and
  `BucketInDirectory` and `IndexEntrySound` state when this happens.

## Model

| member | source | states |
|---|---|---|
| Text.TrimShape | fetch-stations.js:570 | `trim()` removes exactly the surrounding whitespace: the result has none at either end, occurs in the input where the leading whitespace ends, and everything before and after it is whitespace |
| Text.TrimOfPadded | fetch-stations.js:438 | trimming ignores any whitespace padding added around a string |
| Text.TrimOfLower | fetch-stations.js:438 | lower-casing commutes with trimming, so `toLowerCase().trim()` equals trimming first |
| Text.LowerChar | fetch-stations.js:438 | lower-casing a character keeps whether it is whitespace and whether it is a comma |
| Text.UpperChar | fetch-stations.js:448 | upper-casing a character keeps its lower-case form, gives a character with no capital of its own, and changes exactly the characters that have one |
| Text.UpperCharIdempotent | fetch-stations.js:448 | the result of upper-casing is already upper-case |
| Text.Split | fetch-stations.js:570 | `split(',')` gives at least one part, and no part contains the separator |
| Text.JoinOfSplit | fetch-stations.js:581 | joining the parts of a split with the separator gives the input back |
| Text.SplitOfJoin | export-stations.js:57 | splitting a join of separator-free parts gives exactly those parts |
| Text.DecimalValueOfNatToString | fetch-stations.js:653 | `toString()` of a station count reads back as that count |
| LanguageTable.MapOfKeys | fetch-stations.js:15-434 | the object literal has a key iff some entry names it |
| LanguageTable.MapOfLast | fetch-stations.js:15-434 | the value of a key is that of its last entry in the literal |
| LanguageTable.LookupIsObjectValue | fetch-stations.js:441-442 | `languageMap[x]` is found iff `x` is a key of the literal, and the value returned is the one the literal holds |
| LanguageTable.LookupFindsKey | fetch-stations.js:441 | only a non-empty string can be found, as every key is non-empty |
| LanguageTable.ObjectEntriesShape | process-languages.js:437 | `Object.entries(languageMap)` lists every key of the object once, each with its value |
| Canonicalizer.StandardizeIn | fetch-stations.js:436-449 | the empty label stays empty, a non-empty label gives a non-empty name, and a comma-free label gives a comma-free name |
| Canonicalizer.Standardize | process-languages.js:445-458 | the same, for the table of the source |
| Canonicalizer.NormalizedOfPadded | fetch-stations.js:438 | whitespace around a label does not change its lookup key |
| Canonicalizer.LookupHit | fetch-stations.js:441-443 | when the lower-cased trimmed label is a key, the result is that key's canonical name whatever whitespace surrounds the label |
| Canonicalizer.FallbackShape | fetch-stations.js:447-448 | on a miss the label keeps its length and every character after the first, the first is upper-cased (changed exactly when it has a capital, and keeping its lower-case form), and nothing is trimmed |
| Canonicalizer.FallbackIsStable | fetch-stations.js:447-448 | on a miss, standardizing the result a second time changes nothing |
| Canonicalizer.FixedPoint | fetch-stations.js:436-449 | a trimmed canonical name comes back unchanged when its lower-case form maps to it, or when nothing matches and its first character is already upper-case |
| Ingestion.NonEmptyMembers | fetch-stations.js:570 | `filter(tag => tag)` keeps exactly the non-empty values |
| Ingestion.NonEmptyTrimmedMembers | fetch-stations.js:570 | a value is kept iff it is the non-empty trimmed form of some part |
| Ingestion.SegmentShape | fetch-stations.js:570 | a kept tag segment is non-empty, trimmed, comma-free and a substring of the raw field, and every non-blank comma part of the field gives one |
| Ingestion.SegmentOfRaw | fetch-stations.js:581-582 | a trimmed comma part of a raw field has no comma and occurs in the field |
| Ingestion.ParsedTagShape | fetch-stations.js:569-570 | tags are inserted only for a non-null, non-empty field, and each is non-empty, trimmed, comma-free and a substring of it |
| Ingestion.ParsedLanguageSource | fetch-stations.js:580-584 | every inserted language is `standardizeLanguage` of a non-blank trimmed comma segment of the raw field, so it is non-empty and comma-free |
| Ingestion.SegmentLanguageInserted | fetch-stations.js:580-591 | every non-blank comma segment of the raw field gives an inserted language |
| Ingestion.RowOf | fetch-stations.js:544-566 | the stations row fails iff `name` or `url` is null (their NOT NULL columns), and otherwise carries the record's id and its standardized language |
| Ingestion.Upsert | fetch-stations.js:530-597 | `insertStation` fails exactly when its row fails |
| Ingestion.UpsertStation | fetch-stations.js:532-566 | the record's id maps to its new row with the standardized language, and every other station row is unchanged |
| Ingestion.UpsertAssociations | fetch-stations.js:569-592 | old association rows are kept, and every parsed tag and language of the record is associated with its id |
| Ingestion.UpsertIdempotent | fetch-stations.js:530-597 | inserting the same record twice leaves the tables as one insert does |
| Ingestion.ApplyRecordsIsMerge | fetch-stations.js:617-619 | writing a page record by record fails with the first record's error, or else equals merging all its rows at once: last write per id, union of association rows |
| Ingestion.MergeOfAppend | fetch-stations.js:614-632 | merging two record sequences one after the other is merging their concatenation |
| Ingestion.MergeIdempotent | fetch-stations.js:614-632 | merging the same records again changes nothing |
| Ingestion.ApplyRecordsIdempotent | fetch-stations.js:617-619 | re-writing a page that was written without error changes nothing |
| Ingestion.ApplyRecordsErrorPersists | fetch-stations.js:617-619 | once a prefix of a page fails, the page fails with the same error |
| Ingestion.BatchesIsCeiling | fetch-stations.js:614 | page k is requested iff k * 1000 < total |
| Ingestion.OffsetsCoverTotal | fetch-stations.js:614-631 | every requested offset is below the total, and the pages together reach it |
| Ingestion.ProcessedStep | fetch-stations.js:622 | each page adds its length to `totalProcessed` |
| Ingestion.RunPagesIsMerge | fetch-stations.js:614-632 | the paging loop fails with the first failed request or insert, or else equals merging every record read, whatever tables it starts from |
| Ingestion.RunIdempotent | fetch-stations.js:599-669 | a second run against an unchanged source leaves the tables as the first left them |
| Ingestion.RunPagesErrorPersists | fetch-stations.js:614-632 | once a prefix of the pages fails, the run fails with that error |
| Ingestion.Summary | fetch-stations.js:648-653 | the summary table holds exactly `last_updated` (the clock's value) and `total_stations`, a decimal string whose value is the station count |
| Ingestion.StationDatabase.constructor | fetch-stations.js:456-510 | a new database has empty tables |
| Ingestion.StationDatabase.InsertTags | fetch-stations.js:569-578 | the tag loop adds one `(id, tag)` row per tag and changes nothing else |
| Ingestion.StationDatabase.InsertLanguages | fetch-stations.js:580-592 | the language loop adds one `(id, language)` row per standardized language and changes nothing else |
| Ingestion.StationDatabase.InsertAssociations | fetch-stations.js:568-592 | both association tables gain exactly the record's rows, and a null or empty field inserts none |
| Ingestion.StationDatabase.InsertStation | fetch-stations.js:530-597 | the tables become `Upsert` of the old tables on success, and on a NOT NULL error they are unchanged and the error is returned |
| Ingestion.StationDatabase.InsertPage | fetch-stations.js:617-619 | the records of a page are written in order, and the result is `ApplyRecords` of the old tables or its first error |
| Ingestion.StationDatabase.FetchPage | fetch-stations.js:615-619 | one loop iteration extends the run by one page, returning its length, or returns the run's error |
| Ingestion.StationDatabase.WritePages | fetch-stations.js:614-632 | the loop requests exactly `Offsets(total)`, leaves the tables equal to `Run` of the old tables with `totalProcessed` the sum of the page lengths, or returns `Run`'s error |
| Ingestion.StationDatabase.FetchAllStations | fetch-stations.js:599-669 | on success the tables are `Run` of the old tables and the summary is `Summary(now, station count)`; on failure the tables and summary are as before (the uncommitted transaction) and the error is returned |
| LanguageStats.ReverseKeys | process-languages.js:437-442 | the reverse index has a key for exactly the canonical names of the entries |
| LanguageStats.ReverseComplete | process-languages.js:437-442 | every entry's spelling is listed under its canonical name |
| LanguageStats.ReverseSound | process-languages.js:437-442 | every listed spelling comes from an entry with that canonical name |
| LanguageStats.ReverseSizes | process-languages.js:437-442 | the lists of the reverse index together hold one spelling per entry |
| LanguageStats.ReverseIndexOfTable | process-languages.js:434-443 | for the table: every key k is listed under `languageMap[k]`, and every listed spelling maps back to the name it is listed under |
| LanguageStats.ReverseSizesOfTable | process-languages.js:434-443 | the list lengths sum to the number of distinct keys of `languageMap` |
| LanguageStats.InitializedIdempotent | process-languages.js:435 | calling `initializeReverseMap` a second time changes nothing |
| LanguageStats.AddVariation | process-languages.js:499 | `Set.add` adds exactly the new spelling and keeps the set free of duplicates |
| LanguageStats.AggregateKeys | process-languages.js:493-512 | `languageStats` has a key exactly for the names in `processed`, so `seen` and its keys agree |
| LanguageStats.DedupNames | process-languages.js:502-512 | the output names are the distinct standardized names, in order of first occurrence |
| LanguageStats.DedupShape | process-languages.js:502-512 | the output names are duplicate-free, there are at most as many as inputs, and they are exactly the standardized input names |
| LanguageStats.DedupIsFirstOccurrence | process-languages.js:502-512 | each output entry is built from the first input with its standardized name: that input's ISO code, count and spelling |
| LanguageStats.SnapshotIsNotTotal | process-languages.js:496-510 | for two spellings of one language, the output keeps the first one's count and spelling while `languageStats` holds the sum and both spellings |
| LanguageStats.LoopStep | process-languages.js:489-515 | one iteration, stated through the keys of `languageStats` as the source tests them |
| LanguageStats.Deduplicate | process-languages.js:484-515 | the loop leaves `processed` equal to `Dedup` and `languageStats` equal to `Aggregate` of the input |
| LanguageStats.ProcessOne | process-languages.js:490-514 | one iteration extends `processed` and `languageStats` by one input, and `seen` stays the keys of `languageStats` |
| LanguageStats.AddToStats | process-languages.js:493-499 | the stat update is `Tally`, and a new name starts from the input's count and spelling alone |
| LanguageStats.CountWithStations | process-languages.js:558 | languages with stations are at most all languages |
| LanguageStats.Totals | process-languages.js:556-558 | `languagesWithStations <= totalUniqueLanguages` = the number of entries |
| LanguageStats.TotalsOfOutput | process-languages.js:556-558 | after the sort, the station total is that of the first-occurrence counts, and the unique-language total is the number of distinct standardized names |
| LanguageStats.LanguageProcessor.constructor | process-languages.js:431 | the reverse index starts empty |
| LanguageStats.LanguageProcessor.InitializeReverseMap | process-languages.js:434-443 | a non-empty index is left alone, and an empty one becomes the reverse index of `Object.entries(languageMap)` |
| LanguageStats.LanguageProcessor.IndexEntries | process-languages.js:437-442 | the `forEach` loop builds `ReverseOf` of the entries |
| LanguageStats.LanguageProcessor.AddVariant | process-languages.js:438-441 | one step pushes the spelling onto its name's list, creating the list if missing |
| LanguageStats.LanguageProcessor.ProcessLanguages | process-languages.js:480-519 | the index is initialized, and the result is the deduplicated list sorted by station count, descending and stable |
| Sorting.InsertDesc | process-languages.js:518 | inserting adds exactly one element |
| Sorting.SortDesc | process-languages.js:518 | the sorted list is a permutation of the input |
| Sorting.InsertDescSorted | process-languages.js:518 | inserting into a descending list keeps it descending |
| Sorting.SortDescSorted | process-languages.js:518 | the result is in descending key order |
| Sorting.InsertDescStable | export-stations.js:105 | an inserted element goes after the elements with its key |
| Sorting.SortDescStable | export-stations.js:105 | elements with equal keys keep their input order (the sort is stable) |
| Sorting.SortedPermutationIsUnique | export-stations.js:125 | two sorted, stable permutations of one list are equal, so a stable sort has one result |
| Sorting.StableSortIsSortDesc | export-stations.js:125 | any sorted, stable permutation of the input is `SortDesc` |
| Sorting.InsertInPlace | export-stations.js:105 | one insertion step leaves `a[..i+1]` equal to `InsertDesc` of the old `a[i]` into the old `a[..i]`, moving elements in place, and leaves the rest of the array alone |
| Sorting.SortInPlace | export-stations.js:105 | the in-place insertion sort leaves the array equal to `SortDesc` of its old contents |
| Sorting.KeySumOfSortDesc | process-languages.js:556 | sorting does not change the sum of the keys |
| Export.ExportTagsShape | export-stations.js:57 | a null or empty field gives no tags, and every exported tag is trimmed and comma-free |
| Export.ExportTagsOfJoin | export-stations.js:57 | the field is not filtered: the tags of a joined list are its parts trimmed one for one, and an empty part gives an empty tag |
| Export.Candidates | export-stations.js:42 | the candidate list is never empty; it may be `[""]`, which lands in no bucket |
| Export.PushValid | export-stations.js:47-67 | create-then-push keeps key order and map in agreement, and adds the object to exactly its bucket |
| Export.AddRowValid | export-stations.js:44-68 | the inner loop appends to each non-empty name's bucket the row's hits for it, and never creates the empty bucket |
| Export.GroupedIsOccurrences | export-stations.js:40-69 | after the grouping loops, the bucket of each non-empty name is its occurrences in row order, and no bucket is empty or is that of "" |
| Export.HitsLanguage | export-stations.js:44-68 | a row contributes to a bucket iff it names the language, and only its clean object |
| Export.OccurrencesSource | export-stations.js:40-69 | every object in a bucket is the clean object of a row naming that language, and every such row contributes |
| Export.KeptMembers | export-stations.js:72-76 | a key survives the delete loop iff its bucket has more than `limit` stations, and the key order stays duplicate-free |
| Export.DeleteFromMembers | export-stations.js:72-76 | a bucket survives iff it was not visited or has more than `limit` stations, and it keeps its stations |
| Export.DeleteFromUnvisited | export-stations.js:72-76 | a key the loop has not reached still has its bucket |
| Export.DropValid | export-stations.js:72-76 | deleting buckets keeps key order and map in agreement |
| Export.Threshold | export-stations.js:71-76 | a name keeps its bucket iff it is non-empty and occurs more than `limit` times (exactly `limit` is dropped), and the bucket is all of its occurrences |
| Export.BucketLanguage | export-stations.js:60 | every exported object has its bucket's language and comes from a row naming it |
| Export.GetStationsByLanguage | export-stations.js:16-79 | the grouping and delete loops give `StationsByLanguage(rows, limit)` |
| Export.GroupRow | export-stations.js:42-68 | the inner loop over one row's names is `AddRow` |
| Export.PushStation | export-stations.js:47-67 | creating the bucket if needed and pushing is `Push` |
| Export.DeleteSmall | export-stations.js:72-76 | the delete loop leaves the kept keys in order and removes the small buckets |
| Export.DeleteOne | export-stations.js:73-75 | one iteration advances the loop state by one key |
| Export.SlugShape | export-stations.js:101 | the slug has one character per character of the name, each in `[a-z0-9-]`: lower-case letters and digits stay, ASCII capitals are lowered, anything else becomes `-` |
| Export.SlugIdempotent | export-stations.js:101 | a slug is its own slug |
| Export.SlugIgnoresCase | export-stations.js:101 | names equal up to case have one slug, so their files collide |
| Export.FileNameInjective | export-stations.js:102 | two names share a file iff they share a slug |
| Export.FileSorted | export-stations.js:105-115 | a file's count is its bucket's size, and its stations are a permutation of the bucket sorted by votes with equal votes in bucket order |
| Export.FilesKeys | export-stations.js:97-118 | a file is written for every key, and every file written is named after some key |
| Export.FilesLastWriteWins | export-stations.js:108-115 | the file named after a key holds that key's bucket unless a later key has the same slug |
| Export.WriteBucketFiles | export-stations.js:97-118 | the export loop writes exactly `Files(order, buckets)` |
| Export.SortBucket | export-stations.js:105 | the bucket sort gives `SortDesc` by votes |
| Export.IndexSorted | export-stations.js:121-125 | the index is a permutation of the entries, with one per bucket, sorted by count descending |
| Export.IndexEntrySound | export-stations.js:121-134 | each index entry names a bucket, has its size as count, and names a file that was written; in the final directory that file is `index.json` itself exactly when the slug is `index` |
| Export.IndexComplete | export-stations.js:121-125 | every surviving bucket has an index entry |
| Export.IndexTotalStations | export-stations.js:131 | `total_stations` is the sum of the bucket sizes |
| Export.IndexTotalLanguages | export-stations.js:130 | `total_languages` is the number of buckets |
| Export.IndexFileNameClash | export-stations.js:101-128 | a language's file name is `index.json` exactly when its slug is `index` |
| Export.DirectoryContents | export-stations.js:97-134 | the directory holds the bucket files and `index.json`, and nothing else; `index.json` holds the index and every other name its bucket file |
| Export.BucketInDirectory | export-stations.js:108-134 | the file of the last key with a given slug holds that key's bucket, unless the slug is `index`, in which case the index replaced it |
| Export.ExportStations | export-stations.js:81-134 | the directory and index written are those of `StationsByLanguage(rows, 25)`, with the index under `index.json` |
| Export.TotalStationsOfRows | export-stations.js:131 | `total_stations` counts a station once per surviving bucket it is in: the sum of its names' occurrence counts |

## Left out

- deploy-stations.js is not part of this model. It copies the exported files, which is publication rather than logic.
- The HTTP calls are parameters. `fetchStationsBatch` is the function `fetch`, where `None` is a failed request. The `/stats` total is the parameter `total`. The `/languages` list is the input of `ProcessLanguages`.
- SQLite itself is not modelled: the DDL, `prepare`/`finalize`, `db.close` and the `CURRENT_TIMESTAMP` columns. The tables are a map keyed by id and two sets of pairs. `new Date().toISOString()` is the parameter `now`.
- The GROUP BY summary queries of `fetchAllStations` are not modelled, and neither is the console logging with its "top 5", "top 10" and "most variations" views. Only `summary.totalStations` reaches the database, as the number of station rows.
- `Promise.all`, `saveToFile` and the file system write nothing here. The written files are a map from file name to content, and the content is a value rather than JSON text. The directory prefix `public/stations` is dropped from the file names. Files left in that directory by an earlier run are not modelled: `Directory` holds only what one run writes.
- Floating-point fields are not modelled: `geo_lat` and `geo_long` are omitted from the row, and the printed percentages are skipped.
- `Text.LowerChar` and `Text.UpperChar` map ASCII, Latin-1 and basic Cyrillic letters only, plus the pair ÿ/Ÿ. The micro sign µ is left out, because its capital Μ lower-cases to μ, which is a different character. Full Unicode case mapping is not modelled, including characters that change length.
- `Export.Slug` counts one slug character per Dafny character, not per UTF-16 code unit.
- JavaScript object semantics are simplified. Prototype keys such as `constructor` are not modelled. Keys always enumerate in insertion order, while JavaScript lists integer-like keys first.
- A null `language` column is not modelled. In the source, `standardizeLanguage(null)` throws (fetch-stations.js:438) and the run is abandoned. The empty string stands in for the column in the model, and it inserts no language rows. Nullable pass-through columns other than `name`, `url` and `tags` are plain values, and a null station id is not modelled.
- Sorting with `b.votes - a.votes` on a null `votes` is not modelled; votes are integers.
- `Canonicalizer.Standardize`: concrete facts about the 263-entry table are not proved. These include "every canonical name maps to itself", "no spelling is listed twice" and individual lookups. The solver cannot evaluate lookups in a literal of that size. The lemmas take the table as a parameter and state the facts for any table. `LanguageTable.Groups` is the source's table.
- `Ingestion.StationDatabase.InsertPage`, `Ingestion.StationDatabase.FetchPage` and `Ingestion.StationDatabase.WritePages`: the tables after a failed insert are left unspecified. The error reaches `FetchAllStations`, which abandons the transaction and restores the tables it started from.
- Export sorts each bucket in place, and the index then reads only bucket lengths. The model sorts a copy instead, which gives the same files and index.
