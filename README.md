# ElderlyCareAssistant in Dafny

A Dafny model of the logic in the ElderlyCareAssistant Android app:

- **Medication reminders** (`MedicationViewModel`). The view model keeps the name and time fields and the list of scheduled `MedSchedule(name, time, workId)` entries. It computes the WorkManager delay, appends an entry on schedule, and filters entries out by `workId` on delete.
- **Notes and patient information** (`NotesViewModel`, `PatientInfoViewModel`). Each has a guard that refuses blank fields before inserting, a projection of every query emission, and a delete it forwards to the DAO. The DAO is a log of the insert and delete requests the view model launches, in launch order.
- **The forms** (`MedicationScreen`, `NotesScreen` and `PatientInfoScreen` in `MainActivity.kt`). The model covers the state each screen remembers, each submit handler (which message it shows, which view-model calls it makes, which fields it clears), and the `enabled` predicate of each submit button.
- **The database** (`AppDatabase`). The database is a map from table name to columns and rows. The model covers:
  - the three migrations, written as the SQL statements they issue;
  - how Room chains registered migrations from the file's version to version 4;
  - the destructive fallback, used when no chain exists;
  - the first open, inside a transaction that rolls back on error;
  - the `getDatabase` singleton.

The code uses three pieces of `java.time`, modelled in `JavaTime`:

- `LocalTime.isAfter`;
- `plus(n, ChronoUnit.HOURS)`, which moves the hour round the clock;
- `ChronoUnit.MILLIS.between`, which truncates toward zero.

`JavaTime` also models `LocalTime.parse(s, ofPattern("HH:mm"))`. That parse takes exactly two digits, `:` and two digits. It refuses a minute above 59. Under the default SMART resolver, `"24:00"` is read as midnight, and every other hour above 23 is refused.

The modules are:

- `Wrappers`: Option and Result.
- `Chars`: Kotlin `isEmpty` and `isBlank`, and ASCII digits.
- `JavaTime`.
- `Medication`.
- `Dao`: the request log.
- `Notes`.
- `PatientInfo`.
- `Sqlite`: the effect of each statement the migrations issue.
- `AppDb`.
- `Screens`.

Two things the code takes from outside become parameters: the clock (`now`) and the fresh UUID (`workId`).

The delay is modelled as the code computes it. When the target time is not after now, `time.plus(24, ChronoUnit.HOURS)` returns `time` itself. The delay is then zero or negative. It is not the time until the target's next occurrence, which the `+24 hours` branch evidently intends (for now 23:50 and target 00:05, 15 minutes). The model follows the code. `MedicationViewModel.ScheduleNotification` enqueues this as-written delay. The intended delay is defined and proved separately (see Findings). When the target is ahead, the delay is at least 0 but not always positive: a target less than one millisecond ahead truncates to 0.

## Model

| member | source | states |
|---|---|---|
| JavaTime.IsAfterIffLater | app/src/main/java/com/example/elderlycareassistant/MedicationViewModel.kt:35 | `time.isAfter(now)` (hour, then minute, second, nano) holds exactly when `time` is later in the day than `now` |
| JavaTime.IsAfter | app/src/main/java/com/example/elderlycareassistant/MedicationViewModel.kt:35 | when `a.isAfter(b)` holds, `b` compares before `a` and the two times differ |
| JavaTime.PlusHours | app/src/main/java/com/example/elderlycareassistant/MedicationViewModel.kt:38 | adding hours keeps minute, second and nano, and moves the hour by the amount added modulo 24 |
| JavaTime.PlusWholeDays | app/src/main/java/com/example/elderlycareassistant/MedicationViewModel.kt:38 | adding any whole number of days in hours to a `LocalTime` gives the same time back, so `plus(24, HOURS)` is the identity |
| JavaTime.MillisBetween | app/src/main/java/com/example/elderlycareassistant/MedicationViewModel.kt:35-39 | `MILLIS.between` is the nanosecond difference divided by 10^6 and truncated toward zero: bounds for both signs |
| JavaTime.ParseHHmm | app/src/main/java/com/example/elderlycareassistant/MainActivity.kt:127 | an accepted text has the shape two digits, `:`, two digits, and yields a time with zero seconds and nanos |
| JavaTime.FormatThenParse | app/src/main/java/com/example/elderlycareassistant/MainActivity.kt:127 | printing any time as "HH:mm" and parsing it gives back its hour and minute |
| JavaTime.ParseThenFormat | app/src/main/java/com/example/elderlycareassistant/MainActivity.kt:127 | every accepted text except the end-of-day "24:00" prints back unchanged |
| JavaTime.ParseEdgeCases | app/src/main/java/com/example/elderlycareassistant/MainActivity.kt:295 | "24:00" is accepted as midnight; "24:30", "23:60", "9:30" and "" are refused; "14:30" is 14:30 |
| JavaTime.ParseAcceptsExactly | app/src/main/java/com/example/elderlycareassistant/MainActivity.kt:127 | a text is accepted exactly when it has the "HH:mm" shape, its minute is at most 59, and its hour is at most 23 or the text is "24:00" |
| Medication.DelayWhenAfter | app/src/main/java/com/example/elderlycareassistant/MedicationViewModel.kt:35-36 | a target ahead of now gives the gap in milliseconds truncated: at least 0, under one day, 0 exactly when the gap is under 1 ms |
| Medication.Delay | app/src/main/java/com/example/elderlycareassistant/MedicationViewModel.kt:35-39 | the as-written delay lies strictly between minus one day and one day, and is positive only when the target is after now |
| Medication.DelayWhenNotAfter | app/src/main/java/com/example/elderlycareassistant/MedicationViewModel.kt:37-38 | a target not ahead of now gives minus the lag in milliseconds, truncated: at most 0, and 0 when target equals now |
| Medication.PastTargetDelayExample | app/src/main/java/com/example/elderlycareassistant/MedicationViewModel.kt:37-38 | now 23:50, target 00:05 gives -85,500,000 ms |
| Medication.NanosUntilNext | app/src/main/java/com/example/elderlycareassistant/MedicationViewModel.kt:35-39 | the time to the next occurrence of the target lies in (0, one day] |
| Medication.NextOccurrenceDelay | app/src/main/java/com/example/elderlycareassistant/MedicationViewModel.kt:35-39 | the intended delay, to the next occurrence of the target, lies between 0 and one day |
| Medication.NextOccurrenceDelayIsWraparoundGap | app/src/main/java/com/example/elderlycareassistant/MedicationViewModel.kt:35-39 | the intended delay is the wrap-around gap truncated to milliseconds, between 0 and one day, and equals the as-written delay whenever the target is ahead |
| Medication.NextOccurrenceDelayExample | app/src/main/java/com/example/elderlycareassistant/MedicationViewModel.kt:35-39 | now 23:50, target 00:05 gives 900,000 ms (15 minutes) under the intended rule |
| Medication.Without | app/src/main/java/com/example/elderlycareassistant/MedicationViewModel.kt:69 | the filter keeps exactly the entries whose `workId` differs, and is no longer than its input |
| Medication.WithoutAppend | app/src/main/java/com/example/elderlycareassistant/MedicationViewModel.kt:69 | filtering a concatenation filters each part, so the kept entries stay in order |
| Medication.WithoutSingleton | app/src/main/java/com/example/elderlycareassistant/MedicationViewModel.kt:69 | a one-entry list is emptied exactly when its `workId` matches |
| Medication.WithoutAbsent | app/src/main/java/com/example/elderlycareassistant/MedicationViewModel.kt:69 | deleting an absent `workId` leaves the list unchanged |
| Medication.WithoutIdempotent | app/src/main/java/com/example/elderlycareassistant/MedicationViewModel.kt:69 | deleting the same entry twice is deleting it once |
| Medication.WithoutSplice | app/src/main/java/com/example/elderlycareassistant/MedicationViewModel.kt:69 | an entry whose `workId` appears nowhere else is cut out, with its neighbours kept in order |
| Medication.WithoutRemovesExactlyOne | app/src/main/java/com/example/elderlycareassistant/MedicationViewModel.kt:69 | with distinct ids, deleting entry i leaves `s[..i] + s[i+1..]` |
| Medication.ScheduleThenDelete | app/src/main/java/com/example/elderlycareassistant/MedicationViewModel.kt:55-69 | scheduling a fresh entry and then deleting it restores the list |
| Medication.AppendFreshKeepsDistinct | app/src/main/java/com/example/elderlycareassistant/MedicationViewModel.kt:55-61 | appending an entry with a fresh `workId` keeps the ids pairwise distinct |
| Medication.WithoutKeepsDistinct | app/src/main/java/com/example/elderlycareassistant/MedicationViewModel.kt:69 | deleting keeps the ids pairwise distinct |
| Medication.MedicationViewModel.constructor | app/src/main/java/com/example/elderlycareassistant/MedicationViewModel.kt:15-23 | both fields start empty and the list starts empty |
| Medication.MedicationViewModel.UpdateMedicationName | app/src/main/java/com/example/elderlycareassistant/MedicationViewModel.kt:25-27 | sets the name; the time, the list and the work log are unchanged |
| Medication.MedicationViewModel.UpdateMedicationTime | app/src/main/java/com/example/elderlycareassistant/MedicationViewModel.kt:29-31 | sets the time text; the name, the list and the work log are unchanged |
| Medication.MedicationViewModel.ScheduleNotification | app/src/main/java/com/example/elderlycareassistant/MedicationViewModel.kt:33-62 | enqueues one request with the as-written delay, the current name and the fresh id as tag; appends exactly one entry built from the current name and time strings; keeps ids distinct when the id is fresh |
| Medication.MedicationViewModel.DeleteMedication | app/src/main/java/com/example/elderlycareassistant/MedicationViewModel.kt:64-70 | asks for a cancel by the entry's `workId` and leaves the list filtered by it; keeps ids distinct |
| Notes.NoteTexts | app/src/main/java/com/example/elderlycareassistant/NotesViewModel.kt:14 | `notes` has one text per entity, in the same order |
| Notes.NotesViewModel.Notes | app/src/main/java/com/example/elderlycareassistant/NotesViewModel.kt:14 | the `notes` getter gives one text per entity held, each the entity's `noteText`, in the same order |
| Notes.NotesViewModel.constructor | app/src/main/java/com/example/elderlycareassistant/NotesViewModel.kt:10-12 | no entities and no requests at first |
| Notes.NotesViewModel.OnNotesEmitted | app/src/main/java/com/example/elderlycareassistant/NotesViewModel.kt:16-22 | an emission replaces the entity list wholesale and launches nothing |
| Notes.NotesViewModel.AddNote | app/src/main/java/com/example/elderlycareassistant/NotesViewModel.kt:24-30 | with no blank argument, exactly one insert of the arguments verbatim with id 0; with any blank argument, nothing; every logged insert is well formed |
| Notes.NotesViewModel.DeleteNote | app/src/main/java/com/example/elderlycareassistant/NotesViewModel.kt:32-36 | exactly one delete of the given entity, unchanged |
| PatientInfo.FromEntities | app/src/main/java/com/example/elderlycareassistant/PatientInfoViewModel.kt:20 | the projection has the same length and order and copies id, weight and height field for field |
| PatientInfo.DeleteOfProjectedRow | app/src/main/java/com/example/elderlycareassistant/PatientInfoViewModel.kt:33-36 | deleting a shown row hands Room an entity equal to the emitted one |
| PatientInfo.ConversionsInverse | app/src/main/java/com/example/elderlycareassistant/PatientInfoViewModel.kt:35 | the entity-to-row and row-to-entity conversions are inverse |
| PatientInfo.PatientInfoViewModel.constructor | app/src/main/java/com/example/elderlycareassistant/PatientInfoViewModel.kt:13-15 | no rows and no requests at first |
| PatientInfo.PatientInfoViewModel.OnPatientInfoEmitted | app/src/main/java/com/example/elderlycareassistant/PatientInfoViewModel.kt:17-23 | an emission replaces the list with the projection of the emitted entities |
| PatientInfo.PatientInfoViewModel.AddPatientInfo | app/src/main/java/com/example/elderlycareassistant/PatientInfoViewModel.kt:25-31 | with neither string blank, exactly one insert of both strings verbatim (no numeric check) with id 0; otherwise nothing |
| PatientInfo.PatientInfoViewModel.DeletePatientInfo | app/src/main/java/com/example/elderlycareassistant/PatientInfoViewModel.kt:33-37 | exactly one delete of an entity with the row's id, weight and height |
| Sqlite.Exec | app/src/main/java/com/example/elderlycareassistant/AppDatabase.kt:21-64 | the `IF NOT EXISTS` and `IF EXISTS` statements never fail, and a statement that succeeds leaves every table it does not name as it was |
| Sqlite.ExecAllAppend | app/src/main/java/com/example/elderlycareassistant/AppDatabase.kt:45-64 | running two lists of statements one after the other is running their concatenation, the first error stopping the run |
| Sqlite.SupportSqliteDatabase.ExecSql | app/src/main/java/com/example/elderlycareassistant/AppDatabase.kt:21-64 | `execSQL` applies the statement's effect on success and returns its error with the tables unchanged on failure |
| AppDb.Migration1To2Effect | app/src/main/java/com/example/elderlycareassistant/AppDatabase.kt:19-29 | an existing `patient_info` is untouched; otherwise an empty `patient_info(id, weight, height)` is added and nothing else changes |
| AppDb.Migration2To3Effect | app/src/main/java/com/example/elderlycareassistant/AppDatabase.kt:31-40 | an existing `notes` is untouched; otherwise an empty `notes(id, noteText)` is added and nothing else changes |
| AppDb.CopiedRowConverted | app/src/main/java/com/example/elderlycareassistant/AppDatabase.kt:55-58 | a copied note has exactly the four columns, the old id and text, the date 2025-01-01 and the time 00:00 |
| AppDb.CopyStepEffect | app/src/main/java/com/example/elderlycareassistant/AppDatabase.kt:55-58 | the copy fills the empty `notes_new` with one converted row per old note, in order, and changes no other table |
| AppDb.Migration3To4Effect | app/src/main/java/com/example/elderlycareassistant/AppDatabase.kt:42-66 | the same table names remain, no `notes_new`, `notes` has `id, noteText, date, time`, the row count is kept, each row is its old note converted, and other tables are unchanged |
| AppDb.Migration3To4NeedsNotes | app/src/main/java/com/example/elderlycareassistant/AppDatabase.kt:55-58 | without a `notes` table the 3-to-4 migration fails |
| AppDb.NextStep | app/src/main/java/com/example/elderlycareassistant/AppDatabase.kt:75 | the chosen migration is registered, leaves the current version toward the target without passing it, and reaches at least as far as any other such one; none exists when nothing is chosen |
| AppDb.FindMigrationPath | app/src/main/java/com/example/elderlycareassistant/AppDatabase.kt:75-76 | a path found is a chain of registered migrations from the file's version to the target |
| AppDb.PathsToCurrentVersion | app/src/main/java/com/example/elderlycareassistant/AppDatabase.kt:75 | from versions 1, 2 and 3 the path is the registered migrations from that one on, in order |
| AppDb.NoPathFromNewerVersion | app/src/main/java/com/example/elderlycareassistant/AppDatabase.kt:75-76 | from any version above 4 there is no path |
| AppDb.RunPath | app/src/main/java/com/example/elderlycareassistant/AppDatabase.kt:75 | running a path's migrations one after the other is running all their statements in order, stopping at the first error |
| AppDb.FirstInvalidTable | app/src/main/java/com/example/elderlycareassistant/AppDatabase.kt:70-77 | Room's check passes exactly when `patient_info` and `notes` are both there with their entity's columns; a table it reports is an entity table that fails |
| AppDb.RecreateEffect | app/src/main/java/com/example/elderlycareassistant/AppDatabase.kt:76 | the destructive fallback's drop and create statements cannot fail, and leave both entity tables empty in their current form with every other table kept |
| AppDb.Opened | app/src/main/java/com/example/elderlycareassistant/AppDatabase.kt:70-77 | an open that migrates or falls back, and succeeds, leaves tables that pass Room's schema check |
| AppDb.DestructiveFallbackRecreatesEmpty | app/src/main/java/com/example/elderlycareassistant/AppDatabase.kt:76 | opening a file above version 4 recreates both entity tables empty in their current form and keeps every other table |
| AppDb.OpenFromVersion3 | app/src/main/java/com/example/elderlycareassistant/AppDatabase.kt:70-77 | a well-formed version-3 file opens by running the 3-to-4 migration alone, and the schema check accepts it |
| AppDb.OpenEmptyVersion1 | app/src/main/java/com/example/elderlycareassistant/AppDatabase.kt:70-77 | an empty version-1 file opens with both entity tables, empty, in their current form |
| AppDb.EntityTablesPass | app/src/main/java/com/example/elderlycareassistant/AppDatabase.kt:70-77 | both entity tables present with their entity's columns, in any order, pass Room's check |
| AppDb.RunPathSteps | app/src/main/java/com/example/elderlycareassistant/AppDatabase.kt:75 | running the three registered migrations runs them one after the other |
| AppDb.Migrate1To2 | app/src/main/java/com/example/elderlycareassistant/AppDatabase.kt:19-29 | `migrate` has the effect or the error of running the 1-to-2 statements |
| AppDb.Migrate2To3 | app/src/main/java/com/example/elderlycareassistant/AppDatabase.kt:31-40 | `migrate` has the effect or the error of running the 2-to-3 statements |
| AppDb.Migrate3To4 | app/src/main/java/com/example/elderlycareassistant/AppDatabase.kt:42-66 | the four `execSQL` calls, stopping at the first error, have the effect or the error of the 3-to-4 statements in order |
| AppDb.RunMigration | app/src/main/java/com/example/elderlycareassistant/AppDatabase.kt:75 | running any registered migration has the effect or the error of its statements |
| AppDb.CreateAllTables | app/src/main/java/com/example/elderlycareassistant/AppDatabase.kt:10 | creates the two entity tables if absent, with the error of the first statement that fails |
| AppDb.DropAllTables | app/src/main/java/com/example/elderlycareassistant/AppDatabase.kt:10 | drops the two entity tables if present |
| AppDb.RecreateAllTables | app/src/main/java/com/example/elderlycareassistant/AppDatabase.kt:76 | the destructive fallback has the effect of the drop statements followed by the create statements |
| AppDb.RunMigrations | app/src/main/java/com/example/elderlycareassistant/AppDatabase.kt:75 | running a path migration by migration, stopping at the first error, has the effect or the error of the whole path |
| AppDb.AppDatabase.constructor | app/src/main/java/com/example/elderlycareassistant/AppDatabase.kt:70-77 | the database object is bound to the file it was built for |
| AppDb.AppDatabase.Open | app/src/main/java/com/example/elderlycareassistant/AppDatabase.kt:70-77 | on success the file holds the opened tables at version 4; on any error the tables and the version are as before |
| AppDb.AppDatabaseHolder.constructor | app/src/main/java/com/example/elderlycareassistant/AppDatabase.kt:17 | `INSTANCE` starts null |
| AppDb.AppDatabaseHolder.GetDatabase | app/src/main/java/com/example/elderlycareassistant/AppDatabase.kt:68-81 | a held instance is returned as it is; otherwise a new database for the given file is built, held and returned |
| AppDb.GetDatabaseTwice | app/src/main/java/com/example/elderlycareassistant/AppDatabase.kt:68-81 | two calls in a row return the same object, built for the first call's file |
| Screens.CheckMedicationTime | app/src/main/java/com/example/elderlycareassistant/MainActivity.kt:122-137 | "Please enter a time" exactly for an empty text; the invalid-time message exactly for a non-empty text that does not parse; otherwise the parsed time |
| Screens.ScheduleEnabled | app/src/main/java/com/example/elderlycareassistant/MainActivity.kt:140 | a non-blank time text enables Schedule and an empty one never does; a blank text such as a single space also enables it |
| Screens.ScheduleEnabledIffTimeEntered | app/src/main/java/com/example/elderlycareassistant/MainActivity.kt:122-140 | the Schedule button is enabled exactly when its handler would not answer "Please enter a time" |
| Screens.AcceptedTimeWasEnabled | app/src/main/java/com/example/elderlycareassistant/MainActivity.kt:126-140 | an accepted time text has the "HH:mm" shape, is not blank, and its button is enabled |
| Screens.MedicationScreen.constructor | app/src/main/java/com/example/elderlycareassistant/MainActivity.kt:76-78 | the name, time and message fields start empty |
| Screens.MedicationScreen.OnTimeChange | app/src/main/java/com/example/elderlycareassistant/MainActivity.kt:105-108 | editing the time takes the new text and clears the message; the name is unchanged |
| Screens.MedicationScreen.OnScheduleClick | app/src/main/java/com/example/elderlycareassistant/MainActivity.kt:121-138 | a rejected time sets its message, keeps the form and leaves the view model untouched; an accepted one passes the unchecked name and the time text, schedules one reminder with the parsed time, and clears name, time and message |
| Screens.MatchedDateSplits | app/src/main/java/com/example/elderlycareassistant/MainActivity.kt:290-291 | a string the date pattern matches is four digits, '-', two digits, '-', two digits |
| Screens.MatchesDatePattern | app/src/main/java/com/example/elderlycareassistant/MainActivity.kt:290-291 | a text the date pattern matches is never blank |
| Screens.JoinedDateMatches | app/src/main/java/com/example/elderlycareassistant/MainActivity.kt:290-291 | every such join of digit groups matches the pattern |
| Screens.DatePatternExamples | app/src/main/java/com/example/elderlycareassistant/MainActivity.kt:290-291 | "2025-13-45" and "2025-01-01" match; "2025-1-01", "25-01-2025" and a trailing space do not |
| Screens.CheckNoteForm | app/src/main/java/com/example/elderlycareassistant/MainActivity.kt:285-303 | "Please enter both date and time" exactly when date or time is empty; the format message exactly when both are present but the date does not match or the time does not parse; otherwise the form is accepted |
| Screens.SaveNoteEnabled | app/src/main/java/com/example/elderlycareassistant/MainActivity.kt:307 | Save Note is enabled only when the text, date and time are all non-empty |
| Screens.EnabledNoteFormHasDateAndTime | app/src/main/java/com/example/elderlycareassistant/MainActivity.kt:285-307 | with Save Note enabled, the "Please enter both date and time" message cannot appear |
| Screens.AcceptedNoteFieldsNotBlank | app/src/main/java/com/example/elderlycareassistant/MainActivity.kt:290-307 | an accepted date and time are not blank, so with a non-blank text the button was enabled and the view model's guard passes |
| Screens.NotesScreen.constructor | app/src/main/java/com/example/elderlycareassistant/MainActivity.kt:226-229 | the text, date, time and message fields start empty |
| Screens.NotesScreen.OnSaveClick | app/src/main/java/com/example/elderlycareassistant/MainActivity.kt:283-304 | a rejected form sets its message and keeps the fields with no request; an accepted one calls `addNote` once (one insert when the text is not blank) and clears every field |
| Screens.PatientInfoScreen.constructor | app/src/main/java/com/example/elderlycareassistant/MainActivity.kt:433-434 | weight and height start empty |
| Screens.SavePatientInfoEnabled | app/src/main/java/com/example/elderlycareassistant/MainActivity.kt:474 | Save is enabled only when weight and height are both non-empty |
| Screens.PatientInfoScreen.OnSaveClick | app/src/main/java/com/example/elderlycareassistant/MainActivity.kt:467-474 | one insert of the two strings exactly when the button's `enabled` condition holds, none otherwise; both fields are cleared |

## Left out

- Compose layout, navigation, the notification-permission request and the static emergency screen are UI only.
- The name, note text, date, weight and height `onValueChange` lambdas only assign their field. They have no member of their own; the time field's lambda, which also clears the message, is `OnTimeChange`.
- WorkManager is a foreign platform call. Enqueue and cancel are recorded in a ghost log on `MedicationViewModel`. The job is tagged with `workId`, but `cancelWorkById` receives that same string as a work-request id, which the request was never given. The model makes no claim that deleting an entry stops its job.
- `UUID.fromString` throwing on a malformed `workId` is not modelled. Every `workId` in the list comes from `UUID.randomUUID`.
- NotificationWorker.kt only posts a notification and is not part of this model. The request's input data is reduced to the medication name; `WorkRequest.medicationName` is that name.
- `LocalTime.now()` and `UUID.randomUUID()` are the parameters `now` and `workId`.
- Screens.MedicationScreen.OnScheduleClick: an exception raised inside the view-model calls, which the same `catch` would turn into the invalid-time message, is not modelled. Only a parse failure reaches that message.
- Coroutines, `Flow` and `viewModelScope` are concurrency. Each query emission is one sequential replace step. Each launched DAO call is logged when it is launched; its completion is not modelled.
- Room internals are left out: DAO code generation, autoincrement id assignment, how delete matches rows, and the identity hash kept in `room_master_table`.
- Column types, `PRIMARY KEY AUTOINCREMENT` and `NOT NULL` are not modelled. SQLite's constraint checks on insert are not modelled either.
- AppDb.FirstInvalidTable: Room's post-migration schema check compares only the column names of the two entity tables.
- AppDb.Opened: the schema check Room runs after creating tables in a file that was not empty is not modelled. A file at version 0 is a new, empty file.
- Room's "migration required but not found" error cannot happen here, because `fallbackToDestructiveMigration()` is set. The model has no such error.
- `synchronized` and `@Volatile` in `getDatabase` are concurrency; only the sequential contract is modelled.
- The view-model factories are reflection-based class checks and are not modelled.
- MedicationDao.kt and Medication.kt are never registered with the database. They are dead code and not part of this model.
- The `Int` ids and `Long` delays are unbounded integers. No delay in the model reaches one day in milliseconds, so `Long` overflow cannot occur.

## Findings

| source | as written | input that shows it | evidently intended | confidence | as-written member | corrected member |
|---|---|---|---|---|---|---|
| app/src/main/java/com/example/elderlycareassistant/MedicationViewModel.kt:38 | `time.plus(24, ChronoUnit.HOURS)` wraps round the clock and returns `time` unchanged, so a target not after now gets `MILLIS.between(now, time)`, which is zero or negative | now 23:50, target 00:05: the delay is -85,500,000 ms, so the reminder fires at once | the time until the target's next occurrence: 900,000 ms (15 minutes) for that input | high; not executed | Medication.PastTargetDelayExample | Medication.NextOccurrenceDelayIsWraparoundGap |
