# MangaDex backup migrator, modelled in Dafny

MangaDex changed its IDs. This tool takes a Tachiyomi library backup and rewrites every MangaDex manga, chapter and history URL that still carries a legacy numeric ID so that it carries the new ID. It leaves every record of another source untouched. Three engines do this, and all three are modelled here:

- **The common engine** (`MangaDexMigrator`, shared by the web and desktop front ends). It works in two passes.
  - The collect pass gathers every legacy manga ID and chapter ID into two insertion-ordered maps, each key mapped to null.
  - The maps are then filled from the legacy-mapping HTTP endpoint, in requests of at most 1000 keys.
  - The rewrite pass rewrites each record of the 41 MangaDex sources. A record is all-or-nothing for its chapters and best-effort for its history. Each counted record is listed as already migrated, missing a manga ID, missing a chapter ID, or migrated.
  - It handles the protobuf backup and the legacy JSON backup.
- **The Android view model** (`ui/MangaDexMigratorViewModel.kt`). It works in one pass and looks up each ID in the bundled database.
  - The proto path counts only favourites, folds broken sources into the sources and broken history into the history.
  - Each counted record ends with `incrementProcessedCount`, which switches to FINISHING when the count reaches the total.
  - `processBackup` resets the screen, dispatches on the file name, and catches every exception.
- **The older view model** beside `MangaDexMigratorActivity`. It examines only the English MangaDex source, counts every such record, rewrites only `/api/` chapter URLs, keeps one list of skipped titles, leaves history alone and catches nothing.
- **The result arithmetic** of `MigrationResult.kt`: the totals of both result kinds and `totalMigratedManga`.
- **The positional legacy JSON record** of `TachiLegacyBackup.kt`. This covers the `data` and `history` views over JSON arrays, `copyWith`, the `categories` getter and the decoding defaults.

## How the model is built

- **Modules** follow the program:
  - `Wrappers`: Option, Result, and the exceptions the code throws.
  - `KotlinText`: `split`, `replace`, `startsWith`, `endsWith`, `toInt`/`toLong` and `toString`, following the Kotlin standard library except that digits are ASCII only (see Left out).
  - `SourceIds`, `FullBackup`, `LegacyBackup` and `GsonBackup`: the data.
  - `IdMaps`: the LinkedHashMap and `convertMapping`.
  - `MigratorSteps`, `MigratorProto` and `MigratorJson`: the common engine.
  - `MigrationResult`.
  - `ViewModel`, with `MigrationLoop` and `ViewModelProperties`.
  - `ActivityViewModel` and `ActivityProperties`.
- **`String.split`** keeps empty fields, so `"/manga/123"` splits into `""`, `"manga"`, `"123"`.
- **Exceptions** are `Result` values. Reading a URL segment that is not there, `toInt` on a non-number, a failed lookup, a bad version and an unknown suffix each end the run with the exception the code throws.
- **Imperative code is imperative here.**
  - Each loop of every engine is a `method` with a `while` loop and invariants.
  - Each method is proved equal to a recursive function that describes the same loop.
  - Lemmas state what the loop achieves through that function.
- **The two Android view models are classes.** Their fields are the view model's fields, and each method states the new fields as a function of the old ones.
- **Kotlin `Int` and `Long`** are the subset types `Int32` and `Int64`. `toInt` and `toLong` fail outside them.
- **Parameters and values.** `isUUID` is a function parameter in every engine. The Room database is a pair of maps (`MangaDexDao.Dao`). The HTTP request of `convertMapping` is a function parameter (`IdMaps.MappingApi`) that returns the pairs, or None when the request throws.

Where the prose description of the system and the code disagree, the model follows the code:

- A chapter URL such as `/api/v1/chapter/6789` has `chapter` as its segment 3, not `6789`. The common engine's `toInt` therefore throws and ends the run.
- After a chapter is migrated, the common engine sets its key in the chapter map back to null (`MangaDexMigrator.kt` line 182). A history entry naming that same chapter in the same record therefore keeps its legacy URL. `MigratorSteps.HistoryOfMigratedChapterKept` states this.

## Model

| member | source | states |
|---|---|---|
| KotlinText.Split | src/commonMain/kotlin/xyz/ivaniskandar/ayunda/MangaDexMigrator.kt:98 | `split` gives at least one field, and no field contains the delimiter |
| KotlinText.JoinSplit | src/commonMain/kotlin/xyz/ivaniskandar/ayunda/MangaDexMigrator.kt:98 | joining the fields of `split` with the delimiter gives the text back: nothing is lost, empty fields included |
| KotlinText.FirstField | app/src/main/java/xyz/ivaniskandar/ayunda/ui/MangaDexMigratorViewModel.kt:475-477 | the first field is the text up to the first delimiter; a second field exists exactly when the delimiter occurs |
| KotlinText.Segment | src/commonMain/kotlin/xyz/ivaniskandar/ayunda/MangaDexMigrator.kt:98 | `split("/")[k]` succeeds exactly when there are more than k fields, throws IndexOutOfBounds otherwise, and never holds a '/' |
| KotlinText.SegmentsOfPath | src/commonMain/kotlin/xyz/ivaniskandar/ayunda/MangaDexMigrator.kt:163 | the URL `/<kind>/<id>` the engines write splits into `""`, kind and id |
| KotlinText.ReplaceAbsent | src/commonMain/kotlin/xyz/ivaniskandar/ayunda/MangaDexMigrator.kt:215 | `replace` leaves a text without the target unchanged |
| KotlinText.ReplaceSuffix | src/commonMain/kotlin/xyz/ivaniskandar/ayunda/MangaDexMigrator.kt:215 | replacing a suffix that occurs nowhere earlier rewrites only that suffix |
| KotlinText.DeleteCharShortens | app/src/main/java/xyz/ivaniskandar/ayunda/ui/MangaDexMigratorViewModel.kt:478 | deleting a character never lengthens a text, and shortens it when the character occurs |
| KotlinText.ToInt | src/commonMain/kotlin/xyz/ivaniskandar/ayunda/MangaDexMigrator.kt:103 | `toInt` succeeds exactly when the text is a sign and digits within the Int range |
| KotlinText.ToLong | src/commonMain/kotlin/xyz/ivaniskandar/ayunda/model/TachiLegacyBackup.kt:37 | `toLong` succeeds exactly when the text is a sign and digits within the Long range |
| KotlinText.ParseIntToString | src/commonMain/kotlin/xyz/ivaniskandar/ayunda/MangaDexMigrator.kt:103 | printing a number in range and parsing it back gives the number |
| KotlinText.IntRoundTrip | src/commonMain/kotlin/xyz/ivaniskandar/ayunda/MangaDexMigrator.kt:103 | `n.toString().toInt() == n` for every Int |
| KotlinText.LongRoundTrip | src/commonMain/kotlin/xyz/ivaniskandar/ayunda/model/TachiLegacyBackup.kt:37 | `n.toString().toLong() == n` for every Long |
| SourceIds.ContainsBeforeIsMembership | src/commonMain/kotlin/xyz/ivaniskandar/ayunda/MangaDexMigrator.kt:91 | the `contains` scan over the first n IDs finds a source exactly when it is one of them |
| SourceIds.IsMangaDexIsMembership | src/commonMain/kotlin/xyz/ivaniskandar/ayunda/MangaDexMigrator.kt:31-73 | the source test used everywhere is exactly membership in the 41-entry `tachiyomiSourceIds` |
| SourceIds.EnglishSourceIsMangaDex | app/src/main/java/xyz/ivaniskandar/ayunda/MangaDexMigratorActivity.kt:506 | the older engine's one source is among the 41, and the list has 41 entries |
| IdMaps.Put | src/commonMain/kotlin/xyz/ivaniskandar/ayunda/MangaDexMigrator.kt:103 | `map[k] = v`: k reads v, every other key reads as before, the key set grows by k, an existing key keeps its place, and validity is kept |
| IdMaps.Chunks | src/commonMain/kotlin/xyz/ivaniskandar/ayunda/MangaDexMigrator.kt:383 | `chunked(1000)`: every chunk holds 1 to 1000 keys, and every chunk but the last holds exactly 1000 |
| IdMaps.ChunksFlatten | src/commonMain/kotlin/xyz/ivaniskandar/ayunda/MangaDexMigrator.kt:383 | the chunks put back together are the key list, in order |
| IdMaps.PutAll | src/commonMain/kotlin/xyz/ivaniskandar/ayunda/MangaDexMigrator.kt:395-397 | storing the returned pairs keeps the map valid |
| IdMaps.PutAllAppend | src/commonMain/kotlin/xyz/ivaniskandar/ayunda/MangaDexMigrator.kt:384-397 | storing two batches in turn is storing their concatenation |
| IdMaps.PutAllGet | src/commonMain/kotlin/xyz/ivaniskandar/ayunda/MangaDexMigrator.kt:395-397 | after storing, a key holds the last value returned for it, or its old value when none was returned; the returned legacy IDs join the keys |
| IdMaps.ConvertFromResponses | src/commonMain/kotlin/xyz/ivaniskandar/ayunda/MangaDexMigrator.kt:384-404 | the chunk loop fails exactly when one request fails; otherwise it is the input map overwritten with every returned pair in order |
| IdMaps.StorePairs | src/commonMain/kotlin/xyz/ivaniskandar/ayunda/MangaDexMigrator.kt:395-397 | the `forEach` over the results stores every pair, as PutAll |
| IdMaps.ConvertMapping | src/commonMain/kotlin/xyz/ivaniskandar/ayunda/MangaDexMigrator.kt:375-407 | `convertMapping` returns what the specification function Converted says: null when a request fails, else the map with every pair stored |
| IdMaps.ConvertedSpec | src/commonMain/kotlin/xyz/ivaniskandar/ayunda/MangaDexMigrator.kt:375-407 | requests carry 1 to 1000 keys and together are the map's keys in order; the lookup fails exactly when a request does; when every request answers, each key holds the last value returned for it or its old one |
| MigratorSteps.UrlKeysMember | src/commonMain/kotlin/xyz/ivaniskandar/ayunda/MangaDexMigrator.kt:105-125 | a legacy chapter ID is collected exactly when some URL not under `/chapter/` carries it in segment 3 |
| MigratorSteps.CollectUrlsSpec | src/commonMain/kotlin/xyz/ivaniskandar/ayunda/MangaDexMigrator.kt:105-125 | the chapter/history loop of the collect pass fails exactly when a URL not yet migrated has no readable segment-3 Int; otherwise it adds exactly those IDs as keys, all mapped to null |
| MigratorSteps.CollectChapterIds | src/commonMain/kotlin/xyz/ivaniskandar/ayunda/MangaDexMigrator.kt:106-114 | the loop method computes CollectUrls |
| MigratorSteps.MangaKey | src/commonMain/kotlin/xyz/ivaniskandar/ayunda/MangaDexMigrator.kt:98-103 | a record contributes a manga key exactly when segment 2 exists, is no UUID and parses as an Int, and then the key is that Int |
| MigratorSteps.CollectRecordSpec | src/commonMain/kotlin/xyz/ivaniskandar/ayunda/MangaDexMigrator.kt:98-125 | one record's collect step fails exactly when it is not collectable; otherwise it adds exactly its manga key and chapter keys, all null, and keeps both maps valid |
| MigratorSteps.CollectRecordIds | src/commonMain/kotlin/xyz/ivaniskandar/ayunda/MangaDexMigrator.kt:98-125 | the method for one record computes CollectRecord |
| MigratorSteps.ChaptersFrom | src/commonMain/kotlin/xyz/ivaniskandar/ayunda/MangaDexMigrator.kt:165-183 | the chapter loop keeps the number of chapters, and a missing chapter is one of the chapters |
| MigratorSteps.ChaptersFromSpec | src/commonMain/kotlin/xyz/ivaniskandar/ayunda/MangaDexMigrator.kt:165-183 | the chapter loop throws only on an unmigrated URL without a readable segment-3 Int, and cannot throw when every one has it; it only ever clears values; when every chapter is found, each URL not under `/chapter/` becomes `/chapter/<new ID>` from the map as it was and its key is cleared; when one is missing, that chapter is unmigrated, its key holds null, and every earlier unmigrated chapter had a new ID |
| MigratorSteps.MigrateChapterUrls | src/commonMain/kotlin/xyz/ivaniskandar/ayunda/MangaDexMigrator.kt:166-183 | the chapter loop method computes ChaptersFrom |
| MigratorSteps.HistoryFrom | src/commonMain/kotlin/xyz/ivaniskandar/ayunda/MangaDexMigrator.kt:192-205 | the history loop keeps the number of entries |
| MigratorSteps.HistoryFromSpec | src/commonMain/kotlin/xyz/ivaniskandar/ayunda/MangaDexMigrator.kt:192-205 | the history loop fails exactly when an unmigrated URL has no readable segment-3 Int; otherwise each entry becomes `/chapter/<new ID>` where the map holds one, stays as it was where not, and nothing is dropped |
| MigratorSteps.MigrateHistoryUrls | src/commonMain/kotlin/xyz/ivaniskandar/ayunda/MangaDexMigrator.kt:192-205 | the history loop method computes HistoryFrom |
| MigratorSteps.LookupOrThrow | src/commonMain/kotlin/xyz/ivaniskandar/ayunda/MangaDexMigrator.kt:129-135 | `convertMapping(...) ?: throw`: succeeds exactly when the lookup does, with its map, and otherwise throws IllegalStateException("try again plz") |
| MigratorSteps.Lookup | src/commonMain/kotlin/xyz/ivaniskandar/ayunda/MangaDexMigrator.kt:129-135 | the lookup method computes LookupOrThrow |
| MigratorSteps.RewriteRecord | src/commonMain/kotlin/xyz/ivaniskandar/ayunda/MangaDexMigrator.kt:148-209 | the outcome of one record fits it: a missing chapter's index names one of its chapters, and a migrated record keeps its numbers of chapters and history entries |
| MigratorSteps.RewriteRecordSpec | src/commonMain/kotlin/xyz/ivaniskandar/ayunda/MangaDexMigrator.kt:148-209 | what each outcome means: already migrated iff segment 2 is a UUID; missing manga iff its ID has no new ID; a missing chapter names an unmigrated chapter without a new ID; migrated gives `/manga/<new ID>`, every chapter rewritten and cleared, each history URL rewritten from the map as left by the chapters |
| MigratorSteps.CollectableRewrites | src/commonMain/kotlin/xyz/ivaniskandar/ayunda/MangaDexMigrator.kt:148-205 | a record the collect pass could read cannot make the rewrite pass throw |
| MigratorSteps.RewriteRecordUrls | src/commonMain/kotlin/xyz/ivaniskandar/ayunda/MangaDexMigrator.kt:148-209 | the method for one record computes RewriteRecord |
| MigratorSteps.HistoryOfMigratedChapterKept | src/commonMain/kotlin/xyz/ivaniskandar/ayunda/MangaDexMigrator.kt:182 | a history entry naming a chapter the same record just migrated keeps its legacy URL |
| MigratorSteps.MigratedUrlIsAlreadyMigrated | src/commonMain/kotlin/xyz/ivaniskandar/ayunda/MangaDexMigrator.kt:148-155 | idempotence: a rewritten manga URL whose new ID is a UUID reads as already migrated on the next run, and rewritten chapter URLs are left alone |
| MigratorProto.ApplyKeeps | src/commonMain/kotlin/xyz/ivaniskandar/ayunda/MangaDexMigrator.kt:207-209 | a migrated proto record differs only in its URLs (source, title, favourite, broken history, chapter names, read times and lengths kept); any other outcome keeps the record exactly |
| MigratorProto.ProtoMangaKey | src/commonMain/kotlin/xyz/ivaniskandar/ayunda/MangaDexMigrator.kt:98-103 | a proto record contributes segment 2 as its manga key exactly when it has a MangaDex source and that segment is a non-UUID Int |
| MigratorProto.ProtoChapterKey | src/commonMain/kotlin/xyz/ivaniskandar/ayunda/MangaDexMigrator.kt:105-125 | a proto record contributes the segment-3 Int of each unmigrated chapter and history URL, when it is a MangaDex record with a non-UUID segment 2 |
| MigratorProto.CollectSpec | src/commonMain/kotlin/xyz/ivaniskandar/ayunda/MangaDexMigrator.kt:89-126 | the collect pass fails exactly when a MangaDex record has an unreadable legacy ID; otherwise the manga and chapter map keys are exactly the records' keys, all mapped to null |
| MigratorProto.CollectIds | src/commonMain/kotlin/xyz/ivaniskandar/ayunda/MangaDexMigrator.kt:89-126 | the collect loop method computes Collect |
| MigratorProto.CollectFailureStops | src/commonMain/kotlin/xyz/ivaniskandar/ayunda/MangaDexMigrator.kt:89-126 | once the collect pass throws, the later records cannot undo it |
| MigratorProto.RewriteUpTo | src/commonMain/kotlin/xyz/ivaniskandar/ayunda/MangaDexMigrator.kt:144-210 | after n iterations the list keeps its length and n records have been handled |
| MigratorProto.RewriteRecords | src/commonMain/kotlin/xyz/ivaniskandar/ayunda/MangaDexMigrator.kt:144-210 | the rewrite loop method computes the report of Rewrite |
| MigratorProto.RewriteFailureStops | src/commonMain/kotlin/xyz/ivaniskandar/ayunda/MangaDexMigrator.kt:144-210 | once the rewrite pass throws, later iterations change nothing |
| MigratorProto.AppliedKeepsSourceAndFavourite | src/commonMain/kotlin/xyz/ivaniskandar/ayunda/MangaDexMigrator.kt:163-209 | the rewrite never changes a record's source or favourite flag |
| MigratorProto.EntriesCount | src/commonMain/kotlin/xyz/ivaniskandar/ayunda/MangaDexMigrator.kt:144-210 | each favourite of a MangaDex source lands in exactly one of the three lists or is migrated, so the list sizes and the migrated count add up to the proto total |
| MigratorProto.ProcessProtoBackup | src/commonMain/kotlin/xyz/ivaniskandar/ayunda/MangaDexMigrator.kt:75-220 | `processProtoBackup` computes Process: the collect pass, both lookups, then the rewrite pass |
| MigratorProto.RewriteUpToOk | src/commonMain/kotlin/xyz/ivaniskandar/ayunda/MangaDexMigrator.kt:144-210 | after a successful collect pass the rewrite pass cannot throw, whatever the lookups returned |
| MigratorProto.RewriteSpec | src/commonMain/kotlin/xyz/ivaniskandar/ayunda/MangaDexMigrator.kt:144-210 | pass-through: the output keeps length and order, a record of another source is untouched, a MangaDex record is itself with its outcome applied; the lists hold the favourites' entries with each outcome and cover every counted record once; the proto total is unchanged |
| MigratorProto.RewriteOutcomeOf | src/commonMain/kotlin/xyz/ivaniskandar/ayunda/MangaDexMigrator.kt:144-210 | the outcome of record i is the one-record rewrite with the chapter map the earlier records left |
| MigratorProto.ProcessSpec | src/commonMain/kotlin/xyz/ivaniskandar/ayunda/MangaDexMigrator.kt:75-220 | the run fails exactly on a decoding failure (its own error), an unreadable legacy ID, or a failed lookup (IllegalStateException "try again plz"); on success sources and broken sources are untouched, the name is rewritten, the list keeps its length, records of other sources are untouched, the proto total is unchanged and `totalMigratedManga` is never negative |
| MigratorProto.ProcessMigratedCount | src/commonMain/kotlin/xyz/ivaniskandar/ayunda/model/MigrationResult.kt:47-48 | on a successful run `totalMigratedManga` is exactly the number of favourites of a MangaDex source that the rewrite pass migrated |
| MigratorProto.ProtoOutputNameOfStem | src/commonMain/kotlin/xyz/ivaniskandar/ayunda/MangaDexMigrator.kt:215 | `x.proto.gz` becomes `x_modified.proto.gz` when the suffix occurs nowhere earlier |
| MigratorProto.ProtoOutputNameWithoutSuffix | src/commonMain/kotlin/xyz/ivaniskandar/ayunda/MangaDexMigrator.kt:215 | a name without `.proto.gz` is kept |
| MigratorJson.ApplyKeeps | src/commonMain/kotlin/xyz/ivaniskandar/ayunda/MangaDexMigrator.kt:348-352 | a migrated JSON record reads back with the new manga URL and the rest of its `data` view, the rewritten chapter and history URLs with everything else kept, and its tracks untouched; any other outcome keeps the record exactly |
| MigratorJson.JsonChapterKey | src/commonMain/kotlin/xyz/ivaniskandar/ayunda/MangaDexMigrator.kt:252-272 | a JSON record contributes the segment-3 Int of each unmigrated chapter and history URL, when its `data` is of a MangaDex source with a non-UUID segment 2 |
| MigratorJson.CollectSpec | src/commonMain/kotlin/xyz/ivaniskandar/ayunda/MangaDexMigrator.kt:238-273 | the JSON collect pass fails exactly when a `data` view is unreadable or a MangaDex record has an unreadable ID or `history` view; otherwise the keys are exactly the records' keys, all null |
| MigratorJson.CollectIds | src/commonMain/kotlin/xyz/ivaniskandar/ayunda/MangaDexMigrator.kt:238-273 | the JSON collect loop method computes Collect |
| MigratorJson.CollectFailureStops | src/commonMain/kotlin/xyz/ivaniskandar/ayunda/MangaDexMigrator.kt:238-273 | once the JSON collect pass throws, the later records cannot undo it |
| MigratorJson.RewriteRecords | src/commonMain/kotlin/xyz/ivaniskandar/ayunda/MangaDexMigrator.kt:290-353 | the JSON rewrite loop method computes the report of Rewrite |
| MigratorJson.RewriteFailureStops | src/commonMain/kotlin/xyz/ivaniskandar/ayunda/MangaDexMigrator.kt:290-353 | once the JSON rewrite pass throws, later iterations change nothing |
| MigratorJson.AppliedKeepsSource | src/commonMain/kotlin/xyz/ivaniskandar/ayunda/MangaDexMigrator.kt:306-352 | the JSON rewrite never changes what `data` says about a record's source |
| MigratorJson.EntriesCount | src/commonMain/kotlin/xyz/ivaniskandar/ayunda/MangaDexMigrator.kt:290-353 | every MangaDex record, favourite or not, lands in exactly one list or is migrated, so the sizes add up to the JSON total |
| MigratorJson.ProcessJsonBackup | src/commonMain/kotlin/xyz/ivaniskandar/ayunda/MangaDexMigrator.kt:222-363 | `processJsonBackup` computes Process: the version check, two passes and two lookups |
| MigratorJson.RewriteUpToOk | src/commonMain/kotlin/xyz/ivaniskandar/ayunda/MangaDexMigrator.kt:290-353 | after a successful collect pass the JSON rewrite pass cannot throw |
| MigratorJson.RewriteSpec | src/commonMain/kotlin/xyz/ivaniskandar/ayunda/MangaDexMigrator.kt:290-353 | pass-through for JSON: length and order kept, other sources untouched, MangaDex records replaced by themselves with the outcome applied, lists cover each MangaDex record once, JSON total unchanged |
| MigratorJson.RewriteOutcomeOf | src/commonMain/kotlin/xyz/ivaniskandar/ayunda/MangaDexMigrator.kt:290-353 | the outcome of JSON record i is the one-record rewrite of its `data` view with the chapter map the earlier records left |
| MigratorJson.ProcessSpec | src/commonMain/kotlin/xyz/ivaniskandar/ayunda/MangaDexMigrator.kt:222-363 | fails exactly on a decoding failure, a version other than 2 ("Unknown backup version"), an unreadable legacy ID or a failed lookup ("try again plz"); on success version, categories and extensions are untouched, the name is rewritten, the list keeps its length and JSON total, and the migrated count is never negative |
| MigratorJson.ProcessMigratedCount | src/commonMain/kotlin/xyz/ivaniskandar/ayunda/model/MigrationResult.kt:47-48 | on a successful run the JSON `totalMigratedManga` exists and is exactly the number of MangaDex records that the rewrite pass migrated |
| MigratorJson.JsonOutputNameOfStem | src/commonMain/kotlin/xyz/ivaniskandar/ayunda/MangaDexMigrator.kt:358 | `x.json` becomes `x_modified.json` when the suffix occurs nowhere earlier |
| MigrationResult.ProtoTotalDexManga | src/commonMain/kotlin/xyz/ivaniskandar/ayunda/model/MigrationResult.kt:20-22 | the proto total counts favourites of a MangaDex source and never exceeds the number of records |
| MigrationResult.JsonTotalDexManga | src/commonMain/kotlin/xyz/ivaniskandar/ayunda/model/MigrationResult.kt:36 | the JSON total, when the `data` views can be read, never exceeds the number of records |
| MigrationResult.ProtoTotalAppend | src/commonMain/kotlin/xyz/ivaniskandar/ayunda/model/MigrationResult.kt:20-22 | the proto total of two lists together is the sum of their totals |
| MigrationResult.ProtoTotalOnlyReadsSourceAndFavourite | src/commonMain/kotlin/xyz/ivaniskandar/ayunda/model/MigrationResult.kt:20-22 | the proto total depends only on each record's source and favourite flag |
| MigrationResult.DexTotalOk | src/commonMain/kotlin/xyz/ivaniskandar/ayunda/model/MigrationResult.kt:36 | the count over the `data` views succeeds exactly when every view can be read |
| MigrationResult.JsonTotalOk | src/commonMain/kotlin/xyz/ivaniskandar/ayunda/model/MigrationResult.kt:36 | the JSON total is computed exactly when every record's `data` view can be read |
| MigrationResult.DexTotalOnlyReadsSource | src/commonMain/kotlin/xyz/ivaniskandar/ayunda/model/MigrationResult.kt:36 | the count over the views depends only on each view's source |
| MigrationResult.JsonTotalOnlyReadsSource | src/commonMain/kotlin/xyz/ivaniskandar/ayunda/model/MigrationResult.kt:36 | the JSON total depends only on each record's `data.source` |
| LegacyBackup.ElementAt | src/commonMain/kotlin/xyz/ivaniskandar/ayunda/model/TachiLegacyBackup.kt:35 | `array[i]` succeeds exactly for an index in range |
| LegacyBackup.DataView | src/commonMain/kotlin/xyz/ivaniskandar/ayunda/model/TachiLegacyBackup.kt:33-40 | `data` succeeds exactly when `_data` has five elements of the right kinds, and reads url, title, source, viewer flags and chapter flags from positions 0 to 4 |
| LegacyBackup.HistoryOf | src/commonMain/kotlin/xyz/ivaniskandar/ayunda/model/TachiLegacyBackup.kt:42-48 | `history` succeeds exactly when every `[url, lastRead]` array reads, and then holds one entry per array, in order |
| LegacyBackup.HistoryArrays | src/commonMain/kotlin/xyz/ivaniskandar/ayunda/model/TachiLegacyBackup.kt:63-68 | `copyWith` writes one history array per entry, in order |
| LegacyBackup.StringElementRoundTrip | src/commonMain/kotlin/xyz/ivaniskandar/ayunda/model/TachiLegacyBackup.kt:57-58 | a string written into the array reads back as itself |
| LegacyBackup.IntElementRoundTrip | src/commonMain/kotlin/xyz/ivaniskandar/ayunda/model/TachiLegacyBackup.kt:60-61 | an Int written into the array reads back as itself |
| LegacyBackup.LongElementRoundTrip | src/commonMain/kotlin/xyz/ivaniskandar/ayunda/model/TachiLegacyBackup.kt:59 | a Long written into the array reads back as itself |
| LegacyBackup.DataRoundTrip | src/commonMain/kotlin/xyz/ivaniskandar/ayunda/model/TachiLegacyBackup.kt:56-62 | `copyWith(newData = d).data == d` |
| LegacyBackup.HistoryRoundTrip | src/commonMain/kotlin/xyz/ivaniskandar/ayunda/model/TachiLegacyBackup.kt:63-68 | `copyWith(newHistory = h).history == h`, same length and order |
| LegacyBackup.CopyWithRoundTrip | src/commonMain/kotlin/xyz/ivaniskandar/ayunda/model/TachiLegacyBackup.kt:50-75 | with explicit data and history, both views read back the values passed, `_data` has exactly 5 elements and every history array 2, and chapters and track are the ones passed or kept |
| LegacyBackup.CopyWithDefaults | src/commonMain/kotlin/xyz/ivaniskandar/ayunda/model/TachiLegacyBackup.kt:50-54 | `copyWith()` succeeds exactly when both views read, and then keeps data, chapters, track and history |
| LegacyBackup.DecodeMangas | src/commonMain/kotlin/xyz/ivaniskandar/ayunda/model/TachiLegacyBackup.kt:27-31 | the manga list decodes exactly when every element does, one record per element in order |
| LegacyBackup.DecodingDefaults | src/commonMain/kotlin/xyz/ivaniskandar/ayunda/model/TachiLegacyBackup.kt:14 | an absent `version` reads as 1 and absent `chapters`, `track` or `history` as empty lists; present members are kept |
| LegacyBackup.CategoriesAsWrittenAlwaysThrows | src/commonMain/kotlin/xyz/ivaniskandar/ayunda/model/TachiLegacyBackup.kt:19-23 | the `categories` getter as written throws for every backup |
| LegacyBackup.CategoriesAsWrittenCounterexample | src/commonMain/kotlin/xyz/ivaniskandar/ayunda/model/TachiLegacyBackup.kt:19-23 | for the categories `[["Default", 0]]` the getter as written throws, while the corrected reading gives `Default`, order 0 |
| LegacyBackup.Categories | src/commonMain/kotlin/xyz/ivaniskandar/ayunda/model/TachiLegacyBackup.kt:19-23 | the corrected getter reads every `[name, order]` array, succeeding exactly when each does |
| LegacyBackup.CategoriesOf | src/commonMain/kotlin/xyz/ivaniskandar/ayunda/model/TachiLegacyBackup.kt:19-23 | each category array read in order, failing exactly when one does |
| LegacyBackup.CategoriesRoundTrip | src/commonMain/kotlin/xyz/ivaniskandar/ayunda/model/TachiLegacyBackup.kt:19-23 | categories written as `[name, order]` arrays read back as the same categories, in order |
| ViewModel.MigrateMangaUrl | app/src/main/java/xyz/ivaniskandar/ayunda/ui/MangaDexMigratorViewModel.kt:450-454 | throws exactly when segment 2 is missing; gives `/manga/<new ID>` exactly when the database knows segment 2, null otherwise |
| ViewModel.MigrateChapterUrl | app/src/main/java/xyz/ivaniskandar/ayunda/ui/MangaDexMigratorViewModel.kt:456-465 | null for any URL not under `/api/`; for one under it, throws exactly when segment 3 is missing and gives `/chapter/<new ID>` exactly when the database knows segment 3 |
| ViewModel.MigratedUrlSegment | app/src/main/java/xyz/ivaniskandar/ayunda/ui/MangaDexMigratorViewModel.kt:453 | a URL the engine writes carries the new ID in segment 2 |
| ViewModel.RewrittenChapterUrlIsMigrated | app/src/main/java/xyz/ivaniskandar/ayunda/ui/MangaDexMigratorViewModel.kt:461 | a rewritten chapter URL starts with `/chapter/`, so every later run leaves it alone |
| ViewModel.ScanChapters | app/src/main/java/xyz/ivaniskandar/ayunda/ui/MangaDexMigratorViewModel.kt:239-254 | the chapter loop keeps the number of chapters, and a missing chapter is one of them |
| ViewModel.ScanChaptersAll | app/src/main/java/xyz/ivaniskandar/ayunda/ui/MangaDexMigratorViewModel.kt:239-254 | the chapter loop completes exactly when every URL is under `/chapter/` or resolves, and then holds each URL's rewrite |
| ViewModel.ScanChaptersStops | app/src/main/java/xyz/ivaniskandar/ayunda/ui/MangaDexMigratorViewModel.kt:239-254 | when the chapter loop breaks, the chapter it stops at has no new ID and every earlier one resolved; when it throws, the exception is that of a URL reached after a run of resolved ones |
| ViewModel.MigrateChapters | app/src/main/java/xyz/ivaniskandar/ayunda/ui/MangaDexMigratorViewModel.kt:239-254 | the chapter loop method computes ScanChapters |
| ViewModel.ScanHistory | app/src/main/java/xyz/ivaniskandar/ayunda/ui/MangaDexMigratorViewModel.kt:270-281 | the history loop keeps the number of entries |
| ViewModel.ScanHistorySpec | app/src/main/java/xyz/ivaniskandar/ayunda/ui/MangaDexMigratorViewModel.kt:270-281 | the history loop throws exactly when a lookup throws; otherwise every resolvable entry is rewritten and the others kept |
| ViewModel.MigrateHistory | app/src/main/java/xyz/ivaniskandar/ayunda/ui/MangaDexMigratorViewModel.kt:270-281 | the history loop method computes ScanHistory |
| ViewModel.AsWrittenOneLetterStem | app/src/main/java/xyz/ivaniskandar/ayunda/ui/MangaDexMigratorViewModel.kt:474-482 | as written, a one-letter stem is removed from the whole rest of the name |
| ViewModel.ModifiedOutputNameSpec | app/src/main/java/xyz/ivaniskandar/ayunda/ui/MangaDexMigratorViewModel.kt:474-482 | corrected: `_modified` goes before the first dot and the extension is kept whole |
| ViewModel.ModifiedOutputNameAsWrittenDropsLetters | app/src/main/java/xyz/ivaniskandar/ayunda/ui/MangaDexMigratorViewModel.kt:478 | the code as written and the corrected function differ on every one-letter stem that recurs, e.g. `p.proto.gz` |
| ViewModel.ModifiedOutputNameWithoutDot | app/src/main/java/xyz/ivaniskandar/ayunda/ui/MangaDexMigratorViewModel.kt:476-481 | a name with a single field is returned unchanged, by the code as written and by the corrected function |
| ViewModel.ModifiedOutputNameAsWrittenAgrees | app/src/main/java/xyz/ivaniskandar/ayunda/ui/MangaDexMigratorViewModel.kt:474-482 | when the stem does not occur again after the first dot, the code as written inserts `_modified` before that dot and keeps the extension whole, as the corrected function does |
| ViewModel.BrokenAsHistory | app/src/main/java/xyz/ivaniskandar/ayunda/ui/MangaDexMigratorViewModel.kt:268 | each broken history entry becomes `BackupHistory(url, lastRead)`, in order |
| ViewModel.BrokenAsSources | app/src/main/java/xyz/ivaniskandar/ayunda/ui/MangaDexMigratorViewModel.kt:192-197 | each broken source becomes `BackupSource(name, sourceId)`, in order |
| ViewModel.ProtoFate | app/src/main/java/xyz/ivaniskandar/ayunda/ui/MangaDexMigratorViewModel.kt:215-289 | the proto loop body never treats a MangaDex record as another source |
| ViewModel.JsonFate | app/src/main/java/xyz/ivaniskandar/ayunda/ui/MangaDexMigratorViewModel.kt:354-413 | the JSON loop body never treats a MangaDex record as another source |
| ViewModel.JsonTotalDexItems | app/src/main/java/xyz/ivaniskandar/ayunda/ui/MangaDexMigratorViewModel.kt:343 | the JSON total never exceeds the number of records |
| ViewModel.ProtoFateMigrated | app/src/main/java/xyz/ivaniskandar/ayunda/ui/MangaDexMigratorViewModel.kt:225-285 | a migrated proto record has a non-UUID known ID and gets `/manga/<new ID>`, every chapter resolved (names kept), and the history followed by the broken history with each resolvable entry rewritten; source, title, favourite, broken history kept |
| ViewModel.ChapterStepThrows | app/src/main/java/xyz/ivaniskandar/ayunda/ui/MangaDexMigratorViewModel.kt:456-459 | the chapter step only throws IndexOutOfBounds |
| ViewModel.HistoryStepThrows | app/src/main/java/xyz/ivaniskandar/ayunda/ui/MangaDexMigratorViewModel.kt:270-281 | the history step only throws IndexOutOfBounds |
| ViewModel.ProtoFateCases | app/src/main/java/xyz/ivaniskandar/ayunda/ui/MangaDexMigratorViewModel.kt:215-262 | already migrated exactly when segment 2 is a UUID; manga missing exactly when not and unknown; a missing chapter is the first that does not resolve; an exception is IndexOutOfBounds |
| ViewModel.ProtoFateSecondRun | app/src/main/java/xyz/ivaniskandar/ayunda/ui/MangaDexMigratorViewModel.kt:215-223 | idempotence: a record migrated to a UUID is already migrated on the next run |
| ViewModel.JsonFateMigrated | app/src/main/java/xyz/ivaniskandar/ayunda/ui/MangaDexMigratorViewModel.kt:363-413 | a migrated JSON entry gets the new manga URL, every chapter resolved, and each resolvable history entry rewritten |
| ViewModel.JsonFateCases | app/src/main/java/xyz/ivaniskandar/ayunda/ui/MangaDexMigratorViewModel.kt:354-394 | a JSON entry is already migrated or misses its manga exactly as a proto record does |
| ViewModel.MigrateProtoRecord | app/src/main/java/xyz/ivaniskandar/ayunda/ui/MangaDexMigratorViewModel.kt:215-285 | the proto loop body computes ProtoFate |
| ViewModel.MigrateJsonEntry | app/src/main/java/xyz/ivaniskandar/ayunda/ui/MangaDexMigratorViewModel.kt:354-413 | the JSON loop body computes JsonFate |
| ViewModel.MigratorViewModel.constructor | app/src/main/java/xyz/ivaniskandar/ayunda/ui/MangaDexMigratorViewModel.kt:51-135 | the fields start IDLE, empty and zero, with no name and no file |
| ViewModel.MigratorViewModel.IncrementProcessedCount | app/src/main/java/xyz/ivaniskandar/ayunda/ui/MangaDexMigratorViewModel.kt:467-472 | adds one to the count, and switches to FINISHING exactly when the count reaches the total; no other field changes |
| ViewModel.MigratorViewModel.ProcessBackup | app/src/main/java/xyz/ivaniskandar/ayunda/ui/MangaDexMigratorViewModel.kt:139-174 | the new fields are ProcessBackupSpec of the old: nothing without a document, and any exception leaves no file and IDLE |
| ViewModel.MigratorViewModel.TryProcessBackup | app/src/main/java/xyz/ivaniskandar/ayunda/ui/MangaDexMigratorViewModel.kt:142-165 | the try block: name, reset, dispatch, with the exception it throws |
| ViewModel.MigratorViewModel.ClearProgress | app/src/main/java/xyz/ivaniskandar/ayunda/ui/MangaDexMigratorViewModel.kt:146-153 | resets name-independent fields: current manga, file, both counts, total and the three lists |
| ViewModel.MigratorViewModel.ProcessFile | app/src/main/java/xyz/ivaniskandar/ayunda/ui/MangaDexMigratorViewModel.kt:155-165 | `.proto.gz` goes to the proto pass, `.json` to the JSON pass, anything else throws IllegalArgumentException("Invalid file selected") |
| ViewModel.MigratorViewModel.Absorb | app/src/main/java/xyz/ivaniskandar/ayunda/ui/MangaDexMigratorViewModel.kt:210-289 | one record's bookkeeping once its fate is known, as the loop step Step says, keeping the FINISHING rule |
| ViewModel.MigratorViewModel.Tally | app/src/main/java/xyz/ivaniskandar/ayunda/ui/MangaDexMigratorViewModel.kt:219-220 | one counted record adds its entry to its list, or one to the migrated count, then increments the processed count |
| ViewModel.MigratorViewModel.WriteOutputFile | app/src/main/java/xyz/ivaniskandar/ayunda/ui/MangaDexMigratorViewModel.kt:292-306 | FINISHING, then the output file under the name `getModifiedOutputName` gives as written, then IDLE |
| ViewModel.MigratorViewModel.MigrateProtoAt | app/src/main/java/xyz/ivaniskandar/ayunda/ui/MangaDexMigratorViewModel.kt:207-289 | one proto loop iteration is the loop step Step of its visit; other sources are passed over |
| ViewModel.MigratorViewModel.MigrateJsonAt | app/src/main/java/xyz/ivaniskandar/ayunda/ui/MangaDexMigratorViewModel.kt:348-415 | one JSON loop iteration is the loop step Step of its visit |
| ViewModel.MigratorViewModel.RunProtoLoop | app/src/main/java/xyz/ivaniskandar/ayunda/ui/MangaDexMigratorViewModel.kt:206-290 | the proto loop leaves the fields as RunUpTo over all records says |
| ViewModel.MigratorViewModel.RunJsonLoop | app/src/main/java/xyz/ivaniskandar/ayunda/ui/MangaDexMigratorViewModel.kt:347-416 | the JSON loop leaves the fields as RunUpTo over all records says |
| ViewModel.MigratorViewModel.ProcessProtoBackup | app/src/main/java/xyz/ivaniskandar/ayunda/ui/MangaDexMigratorViewModel.kt:178-307 | the fields and the exception are ProtoPass of the old fields |
| ViewModel.MigratorViewModel.ProcessJsonBackup | app/src/main/java/xyz/ivaniskandar/ayunda/ui/MangaDexMigratorViewModel.kt:310-434 | the fields and the exception are JsonPass of the old fields |
| MigrationLoop.Step | app/src/main/java/xyz/ivaniskandar/ayunda/ui/MangaDexMigratorViewModel.kt:206-290 | one iteration keeps the number of records |
| MigrationLoop.RunStops | app/src/main/java/xyz/ivaniskandar/ayunda/ui/MangaDexMigratorViewModel.kt:206-290 | once an exception is thrown, later records change nothing |
| MigrationLoop.RunBalanced | app/src/main/java/xyz/ivaniskandar/ayunda/ui/MangaDexMigratorViewModel.kt:467-472 | each count lands in exactly one list or the migrated count, so a balanced start stays balanced |
| MigrationLoop.RunFails | app/src/main/java/xyz/ivaniskandar/ayunda/ui/MangaDexMigratorViewModel.kt:206-290 | the loop throws exactly when some record's body throws, and with that exception |
| MigrationLoop.StepCounts | app/src/main/java/xyz/ivaniskandar/ayunda/ui/MangaDexMigratorViewModel.kt:286-289 | one iteration without an exception adds one to the processed count of a counted record and nothing else |
| MigrationLoop.StepLists | app/src/main/java/xyz/ivaniskandar/ayunda/ui/MangaDexMigratorViewModel.kt:219-258 | one iteration without an exception adds its entry to the list of its fate only |
| MigrationLoop.RunCounts | app/src/main/java/xyz/ivaniskandar/ayunda/ui/MangaDexMigratorViewModel.kt:206-290 | without an exception the processed and migrated counts grow by the counted and the migrated records |
| MigrationLoop.RunLists | app/src/main/java/xyz/ivaniskandar/ayunda/ui/MangaDexMigratorViewModel.kt:206-290 | without an exception each list grows by exactly the entries of the counted records of its fate, in order |
| MigrationLoop.RunRecords | app/src/main/java/xyz/ivaniskandar/ayunda/ui/MangaDexMigratorViewModel.kt:283-285 | records not yet reached are untouched; without an exception record j is the migrated record where the body migrated it and the original everywhere else |
| ViewModelProperties.ProtoCountIsTotal | app/src/main/java/xyz/ivaniskandar/ayunda/ui/MangaDexMigratorViewModel.kt:202 | the records the proto loop counts are the favourites of a MangaDex source that `totalDexItems` counts |
| ViewModelProperties.JsonCountIsTotal | app/src/main/java/xyz/ivaniskandar/ayunda/ui/MangaDexMigratorViewModel.kt:343 | the records the JSON loop counts are the MangaDex records that `totalDexItems` counts |
| ViewModelProperties.ProtoPassSucceeds | app/src/main/java/xyz/ivaniskandar/ayunda/ui/MangaDexMigratorViewModel.kt:206-290 | a decoded proto pass completes exactly when a name is recorded and no MangaDex record's body throws; the only exceptions are NullPointer and IndexOutOfBounds |
| ViewModelProperties.JsonPassSucceeds | app/src/main/java/xyz/ivaniskandar/ayunda/ui/MangaDexMigratorViewModel.kt:347-416 | a JSON pass of version 2 with a manga array completes exactly when a name is recorded and no MangaDex entry's body throws; the only exceptions are NullPointer and IndexOutOfBounds |
| ViewModelProperties.JsonPassRefuses | app/src/main/java/xyz/ivaniskandar/ayunda/ui/MangaDexMigratorViewModel.kt:311-330 | an unparsable document throws IllegalArgumentException("try again plz"), another version (absent meaning 1) "Unknown backup version", no manga array NullPointerException; a refused pass leaves the output file as it was |
| ViewModelProperties.AfterRunTallies | app/src/main/java/xyz/ivaniskandar/ayunda/ui/MangaDexMigratorViewModel.kt:206-290 | a loop without exception advances counts and lists by the counted records and stays balanced |
| ViewModelProperties.ProtoPassTallies | app/src/main/java/xyz/ivaniskandar/ayunda/ui/MangaDexMigratorViewModel.kt:202-306 | after a proto pass: IDLE, the total, `processedCount` grown by the total, lists grown by their entries, and the balance kept |
| ViewModelProperties.JsonPassTallies | app/src/main/java/xyz/ivaniskandar/ayunda/ui/MangaDexMigratorViewModel.kt:343-433 | after a JSON pass: IDLE, the total, `processedCount` grown by the total, lists grown by their entries, and the balance kept |
| ViewModelProperties.ProtoPassOutput | app/src/main/java/xyz/ivaniskandar/ayunda/ui/MangaDexMigratorViewModel.kt:292-303 | the output file has the name `getModifiedOutputName` gives as written, sources followed by the broken sources converted, and each record migrated or kept |
| ViewModelProperties.JsonPassOutput | app/src/main/java/xyz/ivaniskandar/ayunda/ui/MangaDexMigratorViewModel.kt:409-430 | the output file has the name `getModifiedOutputName` gives as written and each entry migrated or kept |
| ViewModelProperties.ProcessBackupSettles | app/src/main/java/xyz/ivaniskandar/ayunda/ui/MangaDexMigratorViewModel.kt:139-174 | after `processBackup` with a document: IDLE, the name recorded, and a file exactly when nothing was thrown |
| ViewModelProperties.ProcessProtoBackupCounts | app/src/main/java/xyz/ivaniskandar/ayunda/ui/MangaDexMigratorViewModel.kt:146-306 | after a successful proto run from a reset: `processedCount == totalDexItems ==` migrated plus the three list sizes |
| ViewModelProperties.ProcessJsonBackupCounts | app/src/main/java/xyz/ivaniskandar/ayunda/ui/MangaDexMigratorViewModel.kt:146-433 | after a successful JSON run from a reset: `processedCount == totalDexItems ==` migrated plus the three list sizes |
| ViewModelProperties.ProcessBackupRefusesName | app/src/main/java/xyz/ivaniskandar/ayunda/ui/MangaDexMigratorViewModel.kt:143-173 | no name throws IllegalStateException("try again plz"); an unknown suffix throws IllegalArgumentException("Invalid file selected") after the reset, with a zero count; either way `processBackup` ends with no file and IDLE |
| ActivityViewModel.ScanApiChapters | app/src/main/java/xyz/ivaniskandar/ayunda/MangaDexMigratorActivity.kt:375-388 | the older chapter loop keeps the number of chapters |
| ActivityViewModel.ScanApiChaptersSpec | app/src/main/java/xyz/ivaniskandar/ayunda/MangaDexMigratorActivity.kt:375-388 | the loop completes exactly when every `/api/` URL resolves; other URLs are kept and are no failure; each `/api/` URL becomes `/chapter/<new ID>`; an exception is IndexOutOfBounds |
| ActivityViewModel.MigrateApiChapters | app/src/main/java/xyz/ivaniskandar/ayunda/MangaDexMigratorActivity.kt:374-388 | the chapter loop method computes ScanApiChapters |
| ActivityViewModel.ProtoOutcome | app/src/main/java/xyz/ivaniskandar/ayunda/MangaDexMigratorActivity.kt:361-399 | the proto body never treats a record of the source as another source |
| ActivityViewModel.JsonOutcome | app/src/main/java/xyz/ivaniskandar/ayunda/MangaDexMigratorActivity.kt:439-478 | the JSON body never treats a record of the source as another source |
| ActivityViewModel.ProtoOutcomeConverted | app/src/main/java/xyz/ivaniskandar/ayunda/MangaDexMigratorActivity.kt:369-393 | a converted proto record gets `/manga/<new ID>` and every chapter resolved, names kept; everything else, history included, is kept |
| ActivityViewModel.JsonOutcomeConverted | app/src/main/java/xyz/ivaniskandar/ayunda/MangaDexMigratorActivity.kt:447-472 | a converted JSON entry gets `/manga/<new ID>` and every chapter resolved; its history is untouched |
| ActivityViewModel.ProtoOutcomeCases | app/src/main/java/xyz/ivaniskandar/ayunda/MangaDexMigratorActivity.kt:362-399 | converted exactly when segment 2 is no UUID, is known, and every `/api/` chapter resolves; a UUID or unknown ID is skipped; an exception is IndexOutOfBounds |
| ActivityViewModel.JsonOutcomeCases | app/src/main/java/xyz/ivaniskandar/ayunda/MangaDexMigratorActivity.kt:440-478 | the same cases for a JSON entry |
| ActivityViewModel.ProtoOutcomeSecondRun | app/src/main/java/xyz/ivaniskandar/ayunda/MangaDexMigratorActivity.kt:362-367 | a record converted to a UUID is skipped by the next run |
| ActivityViewModel.Step | app/src/main/java/xyz/ivaniskandar/ayunda/MangaDexMigratorActivity.kt:357-400 | one iteration keeps the number of records |
| ActivityViewModel.RunStops | app/src/main/java/xyz/ivaniskandar/ayunda/MangaDexMigratorActivity.kt:357-400 | once an exception is thrown, later records change nothing |
| ActivityViewModel.RunFails | app/src/main/java/xyz/ivaniskandar/ayunda/MangaDexMigratorActivity.kt:357-400 | the loop throws exactly when some record's body throws, with that exception |
| ActivityViewModel.RunTallies | app/src/main/java/xyz/ivaniskandar/ayunda/MangaDexMigratorActivity.kt:357-400 | without an exception, `processedItems` grows by the converted records and `skippedItems` by the skipped titles, which together are every examined record |
| ActivityViewModel.RunRecords | app/src/main/java/xyz/ivaniskandar/ayunda/MangaDexMigratorActivity.kt:390-393 | record j of the result is the converted record where the body converted it, the original everywhere else |
| ActivityViewModel.ProtoDexItems | app/src/main/java/xyz/ivaniskandar/ayunda/MangaDexMigratorActivity.kt:353 | the count never exceeds the number of records |
| ActivityViewModel.JsonDexItems | app/src/main/java/xyz/ivaniskandar/ayunda/MangaDexMigratorActivity.kt:431 | the count never exceeds the number of records |
| ActivityViewModel.ConvertProtoRecord | app/src/main/java/xyz/ivaniskandar/ayunda/MangaDexMigratorActivity.kt:358-399 | the proto body computes ProtoOutcome |
| ActivityViewModel.ConvertJsonEntry | app/src/main/java/xyz/ivaniskandar/ayunda/MangaDexMigratorActivity.kt:436-478 | the JSON body computes JsonOutcome |
| ActivityViewModel.MigratorViewModel.constructor | app/src/main/java/xyz/ivaniskandar/ayunda/MangaDexMigratorActivity.kt:290-297 | the fields start IDLE, empty and zero |
| ActivityViewModel.MigratorViewModel.ProcessBackup | app/src/main/java/xyz/ivaniskandar/ayunda/MangaDexMigratorActivity.kt:309-332 | the new fields and the exception are ProcessBackupSpec of the old fields; nothing is caught |
| ActivityViewModel.MigratorViewModel.ClearProgress | app/src/main/java/xyz/ivaniskandar/ayunda/MangaDexMigratorActivity.kt:315-319 | clears the current manga, the converted backup, both counts and the skip list |
| ActivityViewModel.MigratorViewModel.ProcessFile | app/src/main/java/xyz/ivaniskandar/ayunda/MangaDexMigratorActivity.kt:321-331 | `.proto.gz` to the proto pass, `.json` to the JSON pass, anything else IllegalArgumentException("Invalid file selected") |
| ActivityViewModel.MigratorViewModel.Absorb | app/src/main/java/xyz/ivaniskandar/ayunda/MangaDexMigratorActivity.kt:361-399 | one record's bookkeeping once its outcome is known, as Step says |
| ActivityViewModel.MigratorViewModel.ConvertProtoAt | app/src/main/java/xyz/ivaniskandar/ayunda/MangaDexMigratorActivity.kt:358-399 | one proto iteration is Step of its visit |
| ActivityViewModel.MigratorViewModel.ConvertJsonAt | app/src/main/java/xyz/ivaniskandar/ayunda/MangaDexMigratorActivity.kt:436-478 | one JSON iteration is Step of its visit |
| ActivityViewModel.MigratorViewModel.RunProtoLoop | app/src/main/java/xyz/ivaniskandar/ayunda/MangaDexMigratorActivity.kt:357-400 | the proto loop leaves the fields as RunUpTo says |
| ActivityViewModel.MigratorViewModel.RunJsonLoop | app/src/main/java/xyz/ivaniskandar/ayunda/MangaDexMigratorActivity.kt:435-479 | the JSON loop leaves the fields as RunUpTo says |
| ActivityViewModel.MigratorViewModel.ProcessProtoBackup | app/src/main/java/xyz/ivaniskandar/ayunda/MangaDexMigratorActivity.kt:335-404 | the fields and the exception are ProtoPass of the old fields |
| ActivityViewModel.MigratorViewModel.ProcessJsonBackup | app/src/main/java/xyz/ivaniskandar/ayunda/MangaDexMigratorActivity.kt:406-484 | the fields and the exception are JsonPass of the old fields |
| ActivityProperties.ProtoSeenIsTotal | app/src/main/java/xyz/ivaniskandar/ayunda/MangaDexMigratorActivity.kt:353 | the records the proto loop examines are those `totalDexItems` counts, favourite or not |
| ActivityProperties.JsonSeenIsTotal | app/src/main/java/xyz/ivaniskandar/ayunda/MangaDexMigratorActivity.kt:431 | the records the JSON loop examines are those `totalDexItems` counts |
| ActivityProperties.ProtoPassSucceeds | app/src/main/java/xyz/ivaniskandar/ayunda/MangaDexMigratorActivity.kt:357-400 | a decoded proto pass throws exactly when a record's body throws, with IndexOutOfBounds and status PROCESSING |
| ActivityProperties.JsonPassSucceeds | app/src/main/java/xyz/ivaniskandar/ayunda/MangaDexMigratorActivity.kt:435-479 | the same for a JSON document of version 2 with a manga array |
| ActivityProperties.PassRefuses | app/src/main/java/xyz/ivaniskandar/ayunda/MangaDexMigratorActivity.kt:338-422 | an unreadable stream sets IDLE and throws IllegalStateException("try again plz"); a decoding failure, another JSON version (absent meaning 1) or no manga array (NullPointerException) throws with the screen PREPARING |
| ActivityProperties.AfterRunTallies | app/src/main/java/xyz/ivaniskandar/ayunda/MangaDexMigratorActivity.kt:357-400 | a loop without exception advances the count by the converted and the skip list by the skipped records, which together are every examined record |
| ActivityProperties.ProtoPassOutcome | app/src/main/java/xyz/ivaniskandar/ayunda/MangaDexMigratorActivity.kt:353-403 | after a proto pass: IDLE, `processedItems + |skippedItems|` grown by `totalDexItems`, converted records in place, other records and all sources as they were |
| ActivityProperties.JsonPassOutcome | app/src/main/java/xyz/ivaniskandar/ayunda/MangaDexMigratorActivity.kt:431-483 | after a JSON pass: IDLE, the same accounting, the same document with its manga array converted, version kept |
| ActivityProperties.ProcessBackupRefusesName | app/src/main/java/xyz/ivaniskandar/ayunda/MangaDexMigratorActivity.kt:312-331 | no name throws IllegalStateException("try again plz") with the name cleared; an unknown suffix throws IllegalArgumentException("Invalid file selected") after the reset |
| ActivityProperties.ProcessProtoBackupAccounts | app/src/main/java/xyz/ivaniskandar/ayunda/MangaDexMigratorActivity.kt:315-403 | after a successful proto run: `processedItems + |skippedItems| == totalDexItems`, IDLE, the name recorded |
| ActivityProperties.ProcessJsonBackupAccounts | app/src/main/java/xyz/ivaniskandar/ayunda/MangaDexMigratorActivity.kt:315-483 | after a successful JSON run: `processedItems + |skippedItems| == totalDexItems`, IDLE, the name recorded |

## Left out

- **Codecs.** Gzip, base64, ProtoBuf and the two JSON codecs are library calls. The engines take the decoded backup (or its decoding failure) as input, and the re-encoded bytes are not modelled; `TachiBackup.kt` is not part of this model.
- **Gson inside the Android view models.** The JSON tree is modelled as the decoded `(manga, chapters, history)` triples; the `toJsonTree` re-serialisation of a record is the record replaced in place. A per-record Gson decoding failure is not modelled.
- **Android plumbing.** Content resolvers, files, Toasts, `delay`, coroutines and `getDisplayName` are I/O or timing. The display name and file contents are fields of the document handed in; the output file holds the backup rather than its bytes; `exportBackup` and `onCleared` are not modelled.
- **Databases and network.** The Room database is a pair of maps and the HTTP request a function parameter, because both are outside the program.
- **`isUUID`** is a parameter, because it delegates to a UUID parser not shown.
- **Progress callbacks and `toPercentageString`** are left out: they only report progress and use floating point.
- **The MIME types** are the constants `MigrationResult.ProtoMimeType` and `MigrationResult.JsonMimeType`, with no property beyond their values.
- **Counter overflow.** `processedCount`, `migratedCount` and the totals are unbounded integers; a Kotlin `Int` could only wrap after 2^31 records.
- **Source test.** `SourceIds.IsMangaDex` is the list spelled out as 41 comparisons, to keep proofs cheap; `SourceIds.IsMangaDexIsMembership` proves it equals `contains` on the list.
- **`currentManga` timing.** In the Android view models `currentManga` is set in the same step as the outcome bookkeeping rather than before the segment read; what the screen shows after each record is the same.
- KotlinText.ToInt / KotlinText.ToLong: digits are ASCII only; Kotlin also accepts the other Unicode decimal digits (Arabic-Indic, for instance), so a legacy ID written with them is rejected by the model's collect pass where the app would read it.
- ViewModel.MigratorViewModel.ProcessBackup: the `status` it leaves after an exception is IDLE and the file null, as the code says, but the Toast with the message is not modelled.

## Findings

| source | as written | input that shows it | evidently intended | confidence | as-written member | corrected member |
|---|---|---|---|---|---|---|
| src/commonMain/kotlin/xyz/ivaniskandar/ayunda/model/TachiLegacyBackup.kt:19-23 | the getter reads elements 0 and 1 of `_categories` through `jsonPrimitive`, but each element is itself a JSON array, so it throws for every backup (an index error when the list is empty) | a backup whose categories are `[["Default", 0]]` | each `[name, order]` array read as a category | not executed | LegacyBackup.CategoriesAsWrittenCounterexample | LegacyBackup.CategoriesRoundTrip |
| app/src/main/java/xyz/ivaniskandar/ayunda/ui/MangaDexMigratorViewModel.kt:478 | `originalName.replace(nameWithoutExtension, "")` removes every occurrence of the stem, not only the leading one | `p.proto.gz` becomes `p_modified.roto.gz` | `_modified` inserted before the first dot, the extension kept whole | not executed | ViewModel.ModifiedOutputNameAsWrittenDropsLetters | ViewModel.ModifiedOutputNameSpec |

The view model itself writes the output file under the name the code gives as written, as the app does; `ViewModel.ModifiedOutputName` is the corrected function, and `ViewModel.ModifiedOutputNameAsWrittenAgrees` shows the two coincide whenever the stem does not recur.
