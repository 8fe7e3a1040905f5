# pill-reminder, modelled in Dafny

pill-reminder is a set of PHP request handlers behind a REST router. They serve a mobile app and a pill-dispensing device built on an ESP32.

- **Pairing.** A user pairs with one device by its serial number. Pairing creates the volume settings, seven dispenser slots (`app` rows) with default times, and one all-off week (`day_app` row) per slot.
- **Configuring slots.** The app links medications to slots with an amount per link. It sets the weekdays a slot fires on and switches slots on and off. A slot may only be switched on when it has at least one medication and at least one active weekday.
- **The device.** The device pulls the active slots with their weekdays and the volume settings, converted to seconds. After each dose it pushes a dose event: taken or missed, with the delay in minutes, a Thai weekday label, an optional picture, and frozen snapshots of the medications and amounts.
- **History.** History views count the events, compute the compliance rate, break it down by time of day, show a daily trend and the top five medications, and page through the events.
- **Helpers.** Around this sit:
  - the configuration loader (`.env` parsing and typed getters);
  - the upload rules for image names and URLs;
  - the response envelope that scrubs `user_id` and `connect_id`;
  - the router;
  - the one-time-password service of the password reset.

## How the model is built

The database is an in-memory store. `Tables.Store` is a class with one field per table. Machines, connections, slots, timings, medications, timing rows, links, dose events and snapshots are `seq` fields. The volume rows and the weeks (`day_app` rows) are `map` fields, keyed by the connection and by the slot. It also has an id counter per table. `Store.Valid()` states what the handlers keep, for example that a machine and a user are each in at most one pairing.

- **Handlers that write.** Each is a method on the store with `modifies s`. Its `ensures` gives the whole new state on success and states that a failure leaves the store unchanged. Where the source opens a transaction, the handler is one step, and a `fault` parameter stands for an exception thrown by any statement inside the `try`, the lookups that decide 403, 404 or 409 included. The catch rolls the transaction back and answers 500, so the model checks the fault before those lookups: an error at a later statement gives the same answer and the same store. The dose push (esp32/post.php), the slot detail (reminders/slots.php) and the volume save (settings/volume.php) open none. For the first two a fault parameter says where the error strikes, and what was written before it stays. The volume save's fault is either an error in the row lookup or the UPDATE, which writes nothing, or an error in the re-read after the UPDATE, which answers 500 with the new row already written. Pairing a device commits before its last lookup and the token creation, so an error there answers 500 with the pairing kept. Deleting a medication unlinks its picture before the commit, so a late fault there keeps the rows but not the file (`Tables.Fault`). The read handlers without a fault parameter are listed under "Left out".
- **Loops.** A loop in the source is a `while` loop with its invariants. Each such method is proved against a function on values. Everything else is functions.
- **Answers.** A handler answers `Reply<T>`: `Ok(data)` or `Fail(code)` with the HTTP status code.
- **Authentication.** What `checkAuth()` returns is the parameter pair `userId`, `connectId`. A missing value is 0.
- **PHP semantics.** `Php.Value` models PHP values. The `Php` module models:
  - truthiness and `empty()`;
  - loose `==` between strings, numbers and booleans;
  - `intval`, `is_numeric` and `filter_var(FILTER_VALIDATE_INT)` on integer text, booleans and null (decimal and exponent text and floats are listed under "Left out").
- **Strings.** `Strings` models `trim`, `explode`, `implode`, `basename`, `str_replace`, `str_pad` and integer formatting and parsing.
- **External inputs.** These become parameters:
  - the clock: `NOW()`, `time()` and `strtotime`, as integer seconds;
  - `random_int`;
  - `password_hash` and `password_verify`;
  - `FILTER_VALIDATE_EMAIL`;
  - base64 decoding;
  - the outcome of file writes and of sending mail.

Where the prose description of the system and the code disagree, the model follows the code:
- Deleting a medication also deletes every dose snapshot whose name equals the medication's name (`MedicationDelete.Delete`). Snapshots are therefore not kept independently of the live medication.
- Saving a slot's configuration computes the new status from the request, not from the links that survive filtering. A slot can be switched on with no link (`ReminderUpdate.ActivatesWithoutLinks`).
- The device's dose push takes the medications from the `app_id` the device sends. That slot is not checked against the machine's connection.
- The push decides "missed" on `missed_dose` or `medication_taken === false`. The picture guard looks only at `missed_dose`, so a dose that was not taken can still keep a picture (`Esp32Post.NotTakenMayKeepPicture`).
- The push writes the event and its snapshots without a transaction: a failing snapshot INSERT answers 400 and leaves the event and the snapshots written before it (`Esp32Post.Logged`).
- Pairing stores the delay `00:00:30` and the alert offset `00:00:10`. When the volume row is missing, the schedule endpoint falls back to `00:30:00` and `00:05:00` instead.
- PHP's `empty("0")` is true. A medication named "0" is refused, a nickname "0" is shown as '-', and a first path segment "0" is the router's root.

## Model

| member | source | states |
|---|---|---|
| ConfigLoader.ParseLine | config/config_loader.php:36-54 | a line sets a pair exactly when it is not a comment once trimmed and holds '='; the key then holds no '=' |
| ConfigLoader.ParseLineOfSetting | config/config_loader.php:43-52 | a line written `key=value` with a clean key and value reads back as exactly that pair (the split is at the first '=' and trimming removes blanks and quotes only at the ends) |
| ConfigLoader.SplitAtFirstUnique | config/config_loader.php:44 | splitting a line at its first '=' is determined: only one split of a line has a left part free of '=' |
| ConfigLoader.ApplyLinesLookup | config/config_loader.php:36-55 | after loadEnvFile a key holds the value of the last line that sets it, or keeps its earlier value when no line sets it |
| ConfigLoader.ApplyLinesIdempotent | config/config_loader.php:33-56 | reading the same file twice gives the same environment as reading it once |
| ConfigLoader.ApplyLinesOverrides | config/config_loader.php:33-56 | the environment after loading is the old one overridden by the file's own settings |
| ConfigLoader.WithDefaults | config/config_loader.php:63-72 | setDefaults() makes APP_ENV present and leaves every other key as it was |
| ConfigLoader.MissingAmong | config/config_loader.php:82-95 | the missing list holds exactly the required keys whose setting is empty |
| ConfigLoader.Outcome | config/config_loader.php:97-104 | validateRequiredConfig() fails exactly when a required key is empty and the environment is development; otherwise it reports the empty keys |
| ConfigLoader.MissingKeyLoadNeverReturns | config/config_loader.php:13-28 | as written, with any required key empty load() re-enters itself through isDevelopment() and get() before the loaded flag is set, and never returns at any depth (also lines 81-105, 110-112, 164-166) |
| ConfigLoader.FixedPointNeverReturns | config/config_loader.php:13-28 | the recursion step of the above: from a prepared environment with a key missing, no nesting depth returns (also lines 101, 110-112) |
| ConfigLoader.CompleteLoadReturns | config/config_loader.php:13-28 | with every required key set, load() as written returns the file-then-defaults environment (also lines 81-105) |
| ConfigLoader.PreparedIdempotent | config/config_loader.php:13-28 | preparing an already prepared environment again changes nothing |
| ConfigLoader.Loader.constructor | config/config_loader.php:8 | a loader starts unloaded over the given environment |
| ConfigLoader.Loader.Load | config/config_loader.php:13-28 | the corrected load(), in which the required-key check decides development mode from the APP_ENV already read instead of re-entering load() (the code as written is ConfigLoader.LoadAsWritten): a second load() is a no-op; a first one leaves the file-then-defaults environment and sets the flag exactly when the required-key check does not throw |
| ConfigLoader.Loader.SetDefaults | config/config_loader.php:61-76 | setDefaults() adds the APP_ENV default and then runs the required-key check |
| ConfigLoader.Loader.LoadEnvFile | config/config_loader.php:33-56 | the loop applies every line's setting in order |
| ConfigLoader.GetInt | config/config_loader.php:125-127 | the default for a missing key, otherwise (int) of the stored text |
| ConfigLoader.CommaItems | config/config_loader.php:139-140 | every item is non-empty after trimming, not '0', and holds no comma |
| ConfigLoader.GetArray | config/config_loader.php:132-141 | the default for a missing key, otherwise only non-falsy items |
| ConfigLoader.CommaItemsOfList | config/config_loader.php:139-140 | a comma list of clean items reads back as exactly those items |
| ConfigLoader.GetBool | config/config_loader.php:146-152 | the default for a missing key, otherwise true exactly when the lowered text loosely equals one of true, 1, yes, on |
| ConfigLoader.GetBoolReadsNumericOne | config/config_loader.php:151 | the loose in_array makes "01" a true setting, as "1" is |
| ConfigLoader.OhOneLooselyOne | config/config_loader.php:151 | "01" == "1" under PHP's loose comparison of numeric strings |
| ConfigLoader.SystemConfigOf | config/config_loader.php:249-263 | the documented system defaults: volume 50, delay 00:00:30, alert offset 00:00:10, app status 0, base path /pill-reminder/api |
| ConfigLoader.OtpConfigOf | config/config_loader.php:286-297 | the OTP defaults: enabled, 6 digits, 15 minutes expiry, 1 minute rate limit, 5 attempts |
| ConfigLoader.UploadConfigOf | config/config_loader.php:232-244 | the upload defaults: 2097152 bytes, jpg/jpeg/png, image/jpeg and image/png |
| ConfigLoader.CommaItemsOfParts | config/config_loader.php:139-140 | a value that explode() splits into clean items reads back as exactly those items |
| Uploads.ImageUrl | config/upload_config.php:34-36 | null exactly for an empty name; otherwise the upload base URL followed by the name's basename, which holds no '/' |
| Uploads.PictureUrl | config/upload_config.php:42-50 | null exactly for an empty name; otherwise the base URL with '/uploads/' replaced by '/pictures/', followed by the basename |
| Uploads.ImageUrlOfStoredName | config/upload_config.php:34-36 | a file stored under a directory is served under its bare name by both URL rules (also lines 42-50) |
| Uploads.PictureUrlWithoutUploads | config/upload_config.php:48 | when the base URL has no '/uploads/' segment, the pictures URL equals the uploads URL |
| Uploads.ValidateImageData | config/upload_config.php:55-93 | too small exactly when decoding failed or gave under 100 bytes; accepted exactly when the size is within 100..MAX_UPLOAD_SIZE and a truthy filename has an allowed lowered extension; an accepted result reports the byte length and the filename's extension, or 'jpg' without one |
| Uploads.ExtensionAllowedExactly | config/upload_config.php:79 | for a non-numeric extension the loose in_array is plain membership in the allowed list |
| Uploads.PictureFileName | config/upload_config.php:110-115 | a non-blank custom name becomes basename(trim(name)), free of '/'; otherwise the name is pill_slot{n}_{timestamp}.jpg |
| Uploads.GeneratedNameIsJpg | config/upload_config.php:113-114 | a generated name always has the extension jpg |
| Uploads.SavePicture | config/upload_config.php:98-152 | a picture is saved exactly when the folder exists, the data passes validation under the chosen name and more than 100 bytes were written; it then reports that name and its pictures URL |
| Uploads.DeleteImage | config/upload_config.php:157-188 | an empty name or a missing file is success; only a failed unlink of an existing file is failure |
| DeviceConnect.PairCheck | endpoints/devices/connect.php:52-85 | 404 exactly when no machine has the serial; for the first machine row with the serial, Ok with its id exactly when neither that machine nor the user has a connection, and 409 otherwise (already paired with this user or another, or the user already paired) |
| DeviceConnect.SlotsUpToAt | endpoints/devices/connect.php:109-113 | after n turns of the loop, slot k has pill_slot k+1, the configured status, the k-th default time and id firstId+k |
| DeviceConnect.BootstrapSlotsShape | endpoints/devices/connect.php:99-113 | the bootstrap makes exactly 7 slots with pill_slot 1..7 in order, the default status, the times 07:00, 08:00, 12:00, 18:00, 19:00, 20:00, 21:00, and fresh ascending ids |
| DeviceConnect.NoDayRowsCover | endpoints/devices/connect.php:115-121 | each new slot id, and only those, gets one all-zero week |
| DeviceConnect.Pair | endpoints/devices/connect.php:39-176 | a missing or blank serial is 422 and changes nothing; a database error anywhere in the transaction, the machine and pairing lookups included, is 500 and changes nothing; otherwise the lookup failures answer as PairCheck says and change nothing; an error after the commit (the connection lookup or the token creation) is 500 with the pairing kept; otherwise the answer is Ok with the new connection id; a committed pairing appends exactly one connection, one volume row with the configured defaults, the 7 bootstrap slots and their 7 all-zero weeks |
| DeviceConnect.Bootstrap | endpoints/devices/connect.php:87-122 | the whole new state of a pairing: the connection with a fresh id, the default volume row, the slots and their weeks, nothing else |
| DeviceConnect.AddSlots | endpoints/devices/connect.php:104-122 | the for loop appends the 7 bootstrap slots and adds their weeks |
| DeviceConnect.PairKeepsValid | endpoints/devices/connect.php:63-90 | adding a connection for an unpaired machine and user keeps each user and each machine in at most one pairing |
| ReminderStatus.Reasons | endpoints/reminders/status.php:115-117 | the rejection names the missing medication exactly when there is none and the missing day exactly when there is none, medication first |
| ReminderStatus.LooseStatusGuardAcceptsAll | endpoints/reminders/status.php:55-60 | as written, the loose in_array() against a list holding true and false lets every status value through |
| ReminderStatus.LooseStatusGuardReadsYes | endpoints/reminders/status.php:55-60 | the input "yes" is stored as 1 by the guard as written and refused by the intended one |
| ReminderStatus.ParseStatus | endpoints/reminders/status.php:55-60 | the intended guard: 1 exactly for 1, '1' and true; 0 exactly for 0, '0' and false; every other value refused |
| ReminderStatus.Requested | endpoints/reminders/status.php:30-57 | no connection is 403; a missing pill_slot or status is 422; the request passes exactly when (int)pill_slot is 1..7 and the status is an accepted value, and then carries the slot and the 0/1 status |
| ReminderStatus.SlotOf | endpoints/reminders/status.php:66-73 | the slot found has this connection and pill_slot; none is found exactly when no slot has both |
| ReminderStatus.HasActiveDay | endpoints/reminders/status.php:100-109 | the foreach with break finds an active day exactly when some weekday flag is set |
| ReminderStatus.ActivationReasons | endpoints/reminders/status.php:84-120 | the reasons are computed from the link count and the day flags, and are empty exactly when the slot is ready |
| ReminderStatus.SetStatusKeepsReady | endpoints/reminders/status.php:84-136 | switching a slot off, or on only when it has a link and an active day, preserves "every active slot is ready" |
| ReminderStatus.ResendFailsAsWritten | endpoints/reminders/status.php:135-141 | as written, re-sending the status a slot already has makes rowCount() zero and ends in 500, and status_changed is never false on success (also lines 156) |
| ReminderStatus.StatusWrite | endpoints/reminders/status.php:135-143 | the intended write step succeeds on the existing row and reports status_changed exactly when the status differs (also lines 156) |
| ReminderStatus.SetStatus | endpoints/reminders/status.php:25-168 | a failed request check answers its code and changes nothing; a database error afterwards is 500 and rolls back, leaving the slots unchanged; otherwise the slot lookup, the activation rule and the update as in SetSlotStatus; every active slot stays ready |
| ReminderStatus.SetSlotStatus | endpoints/reminders/status.php:66-157 | a missing or foreign slot is 404 with no change; activation of a slot without a link or an active day is refused with its reasons and no change; otherwise exactly that slot's status is rewritten and status_changed reports whether it differed |
| ReminderUpdate.DayFlagsOf | endpoints/reminders/update.php:93-104 | each of the seven stored day flags is on exactly when that day's value in the request is set and truthy |
| ReminderUpdate.RequestedStatus | endpoints/reminders/update.php:57-72 | the new status is 0 or 1, and 1 exactly when the request carries a non-empty medications list and at least one truthy day |
| ReminderUpdate.UpdatedSlot | endpoints/reminders/update.php:74-90 | the slot keeps its id and connection and takes the requested status; the timing is replaced by the trimmed request timing only when one is sent, and the pill slot only when a timing is sent with a positive timing_id |
| ReminderUpdate.DaysAfter | endpoints/reminders/update.php:92-124 | without days the day table is unchanged; with days the slot's row exists afterwards, whether it was updated or inserted, and holds the request's flags, while every other slot's row is untouched |
| ReminderUpdate.NewLinksExact | endpoints/reminders/update.php:145-174 | every inserted link comes from an accepted entry and every accepted entry yields a link: set medication_id and amount, both positive, a medication of the user, carrying the slot's timing when the slot has one |
| ReminderUpdate.ReplaceLinksExact | endpoints/reminders/update.php:126-174 | after the replacement the slot's links to the user's medications are exactly the new ones, every other link survives, and no link of another slot appears |
| ReminderUpdate.ActivatesWithoutLinks | endpoints/reminders/update.php:57-72 | a request whose only entry is refused still switches the slot on, and then the slot has no link to any of the user's medications (also lines 145-174) |
| ReminderUpdate.Update | endpoints/reminders/update.php:25-54 | app_id not positive is 422, a slot that is not the user's is 403, an unparsable body 422, a database error 500 and no change; a parsable body for the user's slot with no error succeeds, with the reply the requested status and the slot, day and link tables exactly as the three writes define (also lines 177-195) |
| ReminderUpdate.Apply | endpoints/reminders/update.php:74-175 | the slot update, the day upsert and the link replacement are applied in order, reading the pill slot after the slot update, and the store stays well formed |
| ReminderUpdate.SetSlot | endpoints/reminders/update.php:79-89 | the UPDATE replaces exactly the one slot row and keeps the store well formed |
| ReminderUpdate.ReplaceLinks | endpoints/reminders/update.php:131-174 | the DELETE then the loop of guarded INSERTs leaves the kept links followed by the accepted entries' links in request order |
| ReminderSlots.TimingOptions | endpoints/reminders/slots.php:53-60 | the timing options are exactly the timing rows whose id is the slot's pill slot |
| ReminderSlots.SlotLinks | endpoints/reminders/slots.php:88-98 | the inner join keeps exactly this slot's links whose medication exists |
| ReminderSlots.LinkViewsExact | endpoints/reminders/slots.php:88-106 | every listed link belongs to the slot and carries an existing link's medication and amount, and every link of the slot to an existing medication is listed |
| ReminderSlots.AvailableExact | endpoints/reminders/slots.php:108-125 | the addable medications are exactly the connection's medications with a timing row for the pill slot, each listed once |
| ReminderSlots.AvailableRows | endpoints/reminders/slots.php:110-119 | the rows behind the addable list are the connection's medications with the pill slot's timing, each once |
| ReminderSlots.Detail | endpoints/reminders/slots.php:27-138 | app_id not positive is 422; an error up to the week's INSERT is 400 and a slot that is not the user's 404, with the day table untouched; a slot that is the user's gets its stored week, or an all-off week inserted; an error after that is 400 with the week kept; otherwise the reply succeeds and carries the slot, its timing options, that week, its links and its addable medications |
| ReminderSlots.EnsureDays | endpoints/reminders/slots.php:62-86 | the stored week is returned as it is; a missing one is inserted all-off and returned, and only that row of the day table changes |
| MedicationTimings.ValidTimingIdsExact | endpoints/medications/timings.php:49-56 | every kept id is an integer from 1 to 7 that some request value validates to, and every such value is kept |
| MedicationTimings.TimingName | endpoints/medications/timings.php:100-105 | no name exactly when the timing table has no row with the id; otherwise the name of such a row |
| MedicationTimings.InsertedExact | endpoints/medications/timings.php:97-121 | at most one inserted row per id; every inserted row has a known timing id from the list, every known id is inserted, and distinct ids give distinct rows |
| MedicationTimings.TimingIdsOf | endpoints/medications/timings.php:115-118 | the timing ids of the rows, position by position |
| MedicationTimings.RowsOf | endpoints/medications/timings.php:108-112 | one medication_timing row per inserted timing, for this medication, in order |
| MedicationTimings.TimingsAfterExact | endpoints/medications/timings.php:92-121 | afterwards the medication has exactly the inserted timings and every other medication keeps exactly the timings it had |
| MedicationTimings.SetTimings | endpoints/medications/timings.php:30-143 | medication id not positive, timing_ids absent, not an array, empty or without any valid id is 422; past those checks a database error anywhere in the transaction, the ownership SELECT included, is 500; otherwise a medication that is not the user's is 404 and one of another connection 403; all of these change nothing; on success the deduplicated ids are reported and the table is replaced as TimingsAfter defines |
| MedicationTimings.Replace | endpoints/medications/timings.php:65-143 | a database error in any statement of the transaction, the ownership SELECT included, is 500 with nothing changed; otherwise the ownership checks in order (404, then 403); otherwise the medication's timings are deleted, the known ids inserted, and the reply counts the inserted rows |
| MedicationTimings.Values | endpoints/medications/timings.php:51 | the values of the JSON array, in order |
| MedicationTimings.ValidIds | endpoints/medications/timings.php:50-56 | the validation loop yields exactly ValidTimingIds of the values |
| MedicationTimings.InsertTimings | endpoints/medications/timings.php:97-121 | the insert loop returns the rows for the known ids and appends exactly their medication_timing rows |
| MedicationDelete.BlockingSlotsExact | endpoints/medications/delete.php:178-198 | the usage check lists exactly the user's active slots holding a link to the medication, each once, in ascending app id |
| MedicationDelete.ReminderOf | endpoints/medications/delete.php:92-98 | a 409 row carries the slot's id, timing and pill slot, and the timing's name, or the fallback name when the timing table has no row for the pill slot (also lines 186, 191) |
| MedicationDelete.Reminders | endpoints/medications/delete.php:92-99 | one 409 row per reported slot, in order |
| MedicationDelete.SlotIds | endpoints/medications/delete.php:109-111 | the app ids of the reported slots, in order |
| MedicationDelete.DeactivatedExact | endpoints/medications/delete.php:113-118 | the listed slots are switched off with every other field kept, and every other slot is untouched |
| MedicationDelete.DisabledCountIsBlockingCount | endpoints/medications/delete.php:108-118 | the reported app ids are already distinct, so array_unique() keeps them all and the disabled count is the number of reported slots (also lines 158-161) |
| MedicationDelete.DeletesExact | endpoints/medications/delete.php:123-147 | after each DELETE no link, timing or medication row refers to the medication id and no snapshot carries its name, and every row that did not is still there |
| MedicationDelete.NothingBlocksAfterDelete | endpoints/medications/delete.php:123-125 | once the links are gone the usage check finds no slot (also lines 178-198) |
| MedicationDelete.ImageToDelete | endpoints/medications/delete.php:138-142 | the image is deleted exactly when the stored picture is not empty, and it is that picture |
| MedicationDelete.Delete | endpoints/medications/delete.php:27-173 | no connection is 403, an empty or non-numeric id 422, a medication that is not the user's 404, each unlinking nothing; a medication in use without force_delete is 409 with its reminders; a database error is 500 and changes no row, and one after the picture's unlink has still unlinked it; otherwise the slots using it are switched off, its links, timings, snapshots and row are deleted, and its picture is unlinked when it has one |
| MedicationDelete.Proceed | endpoints/medications/delete.php:71-163 | after the ownership check: 409 with the reminders when in use and not forced, with no unlink; a fault before the unlink is 500 with no unlink, a fault in the last DELETE or the commit is 500 with the picture unlinked and the rows kept; otherwise the deletion, the picture unlinked and the count of switched-off slots (also lines 138-148) |
| MedicationDelete.Remove | endpoints/medications/delete.php:107-147 | the deactivation and the four DELETEs, each table left exactly as its function defines, the store well formed |
| MedicationDelete.Deactivate | endpoints/medications/delete.php:113-118 | UPDATE app SET status = 0 for the listed slots, keeping the store well formed |
| MedicationDelete.DeleteRow | endpoints/medications/delete.php:144-147 | the medication's row is deleted, keeping the store well formed |
| MedicationCreate.OrDash | endpoints/medications/create.php:54-55 | the stored nickname or description is never empty: the trimmed text when it is set and not empty after trimming, '-' otherwise |
| MedicationCreate.FirstProblem | endpoints/medications/create.php:69-84 | the checks fire in the handler's order: an empty name, then a dosage form id not positive, then a unit type id not positive, then empty timing ids; no problem exactly when all four pass |
| MedicationCreate.UnitTypeById | endpoints/medications/create.php:100-108 | no unit type exactly when the table has no row with the id; otherwise a row with that id |
| MedicationCreate.StoreCheck | endpoints/medications/create.php:90-124 | the request passes exactly when the dosage form exists, the unit type exists and belongs to that form, and the connection is the user's; a foreign connection is reported only when it is not the user's |
| MedicationCreate.TimingIdListOfIds | endpoints/medications/create.php:63 | positive ids imploded with ',' are read back by the explode/intval/array_filter chain unchanged and in order (also lines 164) |
| MedicationCreate.TimingIdListNonZero | endpoints/medications/create.php:164 | array_filter() leaves no zero id |
| MedicationCreate.DisplayNameNonEmpty | endpoints/medications/create.php:53-55 | a request that passes the input checks never has an empty display name, and the '-' nickname shows the medication name (also lines 70, 192) |
| MedicationCreate.Create | endpoints/medications/create.php:27-211 | a token without positive ids and a failed input check change nothing; past them a database error anywhere in the transaction, the table lookups at lines 91-117 included, is 500; otherwise a failed table check (403 for a foreign connection, 422 otherwise) and a rejected upload (422); all of these change nothing; otherwise the medication is appended with the next id and its picture name, a timing row is appended for each known timing id, and the reply echoes the stored fields, the picture URL, the display name and the parsed ids |
| MedicationCreate.Insert | endpoints/medications/create.php:139-197 | the medication row with the next id, then one medication_timing row per known timing id, and the reply built from them |
| MedicationCreate.AddMedication | endpoints/medications/create.php:140-161 | the row is appended and takes the next AUTO_INCREMENT id, which moves on by one |
| SettingsVolume.Pad2 | endpoints/settings/volume.php:41 | a %02d field is all digits and at least two long |
| SettingsVolume.Pad2Reads | endpoints/settings/volume.php:41 | the padded field reads back as the number it was written from |
| SettingsVolume.Pad2Small | endpoints/settings/volume.php:41 | below 100 the field is exactly the tens digit followed by the units digit |
| SettingsVolume.FormatSecondsSplit | endpoints/settings/volume.php:38-41 | the clock text splits at ':' into exactly the three padded fields, and is never empty |
| SettingsVolume.ClockOfTexts | endpoints/settings/volume.php:43 | an hour, a minute and a second field that each match their part of the pattern, joined by ':', match the whole pattern |
| SettingsVolume.HourOfPad2 | endpoints/settings/volume.php:41 | a padded hour below 24 matches the hour part of the pattern (also lines 43) |
| SettingsVolume.SixtyOfPad2 | endpoints/settings/volume.php:41 | a padded minute or second below 60 matches its part of the pattern (also lines 43) |
| SettingsVolume.FormatSecondsIsClock | endpoints/settings/volume.php:34-46 | every number of seconds within a day is written as clock text that the pattern accepts |
| SettingsVolume.ParseTimeToString | endpoints/settings/volume.php:34-47 | a numeric value is accepted exactly when its integer is not negative and becomes its clock text; any other value is accepted exactly when it is a string matching the pattern, and is then kept as it is |
| SettingsVolume.Requested | endpoints/settings/volume.php:65-86 | a row is requested exactly when all three keys are set, the volume is 0 to 100 and both durations parse; the row holds the volume and the two parsed durations |
| SettingsVolume.UpdateVolume | endpoints/settings/volume.php:24-122 | no connection is 403 and invalid JSON 422; an error in the row lookup or the UPDATE is 500 with nothing written; otherwise a connection without a volume row is 404 and an invalid request 422; a request equal to the stored row answers with no data and writes nothing; otherwise exactly the connection's row is replaced, and is reported, or answered with 500 when the re-read at lines 104-106 fails |
| SettingsIndex.ConvertTimeToSeconds | endpoints/settings/index.php:76-91 | null, empty text and text that is not exactly three ':'-separated parts give 0; otherwise hours·3600 + minutes·60 + seconds of the parts |
| SettingsIndex.ConvertFormatSeconds | endpoints/settings/index.php:76-91 | the settings page reads back every number of seconds that the volume update writes as clock text |
| SettingsIndex.ParseThenConvert | endpoints/settings/index.php:76-91 | a numeric duration the volume update accepts is shown back by the settings page as the same number of seconds |
| SettingsIndex.UserById | endpoints/settings/index.php:45-49 | no user exactly when no row has the id; otherwise such a row |
| SettingsIndex.GetSettings | endpoints/settings/index.php:24-68 | no connection is 403; otherwise 404 exactly when the user is missing or the connection is not the user's; success carries the user's name and the volume with both durations in seconds, or zeros without a volume row |
| SettingsIndex.SettingsAfterUpdate | endpoints/settings/index.php:60-66 | after the connection's row is written with numeric seconds, the settings page shows exactly that volume and those seconds |
| Esp32Get.TimeToSeconds | endpoints/esp32/get.php:28-32 | anything empty or not a string gives 0; otherwise the first three ':'-parts as hours, minutes and seconds, a missing part counting 0 |
| Esp32Get.TimeToSecondsAgrees | endpoints/esp32/get.php:28-32 | on text of exactly three parts the dispenser's conversion and the settings page's agree |
| Esp32Get.TimeToSecondsOfFormat | endpoints/esp32/get.php:28-32 | the dispenser reads back every number of seconds that the volume update stores as clock text |
| Esp32Get.DefaultDelayText | endpoints/esp32/get.php:100 | the default delay text is what the volume update writes for 1800 seconds |
| Esp32Get.DefaultAlertOffsetText | endpoints/esp32/get.php:101 | the default alert offset text is what the volume update writes for 300 seconds |
| Esp32Get.DefaultSeconds | endpoints/esp32/get.php:98-102 | the default texts convert to 1800 and 300 seconds |
| Esp32Get.ActiveSlotsExact | endpoints/esp32/get.php:60-62 | the schedule holds exactly the connection's active slots, by ascending pill slot, and no more slots than the table has |
| Esp32Get.ScheduleOf | endpoints/esp32/get.php:66-91 | an entry carries the slot's id, pill slot, timing and status, with the slot's day flags or all seven off without a day row |
| Esp32Get.VolumeOf | endpoints/esp32/get.php:94-102 | the stored volume with both durations in seconds, or 50, 1800 and 300 without a volume row |
| Esp32Get.MachineBySerial | endpoints/esp32/get.php:35-37 | no machine exactly when no row has the serial; otherwise such a row |
| Esp32Get.ConnectionOfMachine | endpoints/esp32/get.php:47-49 | no connection exactly when no row has the machine; otherwise such a row |
| Esp32Get.GetSchedule | endpoints/esp32/get.php:21-117 | a missing or empty serial is 400, an unknown serial or a machine without a connection 404; otherwise the machine, serial, connection and user ids, the entries of the active slots, the volume in seconds and the number of entries |
| Esp32Get.BuildSchedules | endpoints/esp32/get.php:64-92 | the loop yields one entry per active slot, in order |
| Esp32Get.NoActiveSlotIsEmptySuccess | endpoints/esp32/get.php:60-65 | a connection without an active slot gets an empty schedule (also lines 115) |
| Esp32Post.EnglishDaysDistinct | endpoints/esp32/post.php:22-25 | the seven English weekday keys of the map are pairwise different |
| Esp32Post.DayIndex | endpoints/esp32/post.php:26 | the position of the day among the map's keys from k on, or 7 exactly when no key from k on is the day |
| Esp32Post.ConvertDayToThai | endpoints/esp32/post.php:21-27 | each English weekday name becomes its Thai label and any other text is returned unchanged |
| Esp32Post.ThaiDaysDistinct | endpoints/esp32/post.php:22-25 | different weekdays get different Thai labels, so the stored label identifies the day |
| Esp32Post.ConvertToFraction | endpoints/esp32/post.php:29-39 | a whole amount of at least 1 is written as an integer, exactly 0.5 and 0.25 as 1/2 and 1/4, anything else as a decimal of the same value |
| Esp32Post.FractionKeepsValue | endpoints/esp32/post.php:29-39 | the written amount always stands for the amount it was written from |
| Esp32Post.DoseStatus | endpoints/esp32/post.php:136-139 | the status is 'missed' or 'taken', and 'missed' exactly when missed_dose is truthy or medication_taken is strictly false |
| Esp32Post.DelayMinutes | endpoints/esp32/post.php:166-170 | a delay that is not positive counts as 0 minutes; a positive one is within half a minute of the minute count |
| Esp32Post.DelayMinutesNearest | endpoints/esp32/post.php:169 | for a positive delay no other whole number of minutes is closer than the rounded one |
| Esp32Post.SaveImage | endpoints/esp32/post.php:41-60 | empty data, data that does not decode and a failed write store nothing; a stored file keeps a given non-empty name, and otherwise is named pill_slot{n}_{timestamp}.jpg |
| Esp32Post.LinkedOf | endpoints/esp32/post.php:62-72 | a linked row keeps the link's amount, and has a name exactly when the medication exists, that medication's name |
| Esp32Post.SnapshotOf | endpoints/esp32/post.php:86-96 | an empty or missing name becomes 'Unknown Medicine', an amount of 0 counts as 1, and the unit is appended exactly when it is not empty |
| Esp32Post.Snapshots | endpoints/esp32/post.php:74-101 | without linked medications exactly the slot placeholder is written; otherwise one snapshot per linked medication in order; every snapshot belongs to the event |
| Esp32Post.SnapshotsFollowLinks | endpoints/esp32/post.php:62-101 | each snapshot of a slot with links names that link's medication, or 'Unknown Medicine' when it is gone or nameless; a slot without links gets only the placeholder |
| Esp32Post.ConnectionBySerial | endpoints/esp32/post.php:119-126 | no connection exactly when no connection's machine has the serial; otherwise a connection whose machine has it |
| Esp32Post.PictureOf | endpoints/esp32/post.php:150-154 | no picture is stored unless the dose is not flagged missed_dose, save_image is strictly true and there is image data |
| Esp32Post.EventOf | endpoints/esp32/post.php:141-158 | the stored event carries the connection, the slot number as timing id, the status, the scheduled and actual times, the Thai day and the picture |
| Esp32Post.Response | endpoints/esp32/post.php:172-199 | the reply carries the event's id, connection, slot, day, status and picture, an image URL exactly when a picture name is stored, the rounded delay, the missed flag and the snapshots |
| Esp32Post.Record | endpoints/esp32/post.php:103-130 | every failure answers 400; no body or invalid parameters (serial, app_id, slot 1..7), an unknown machine and an error in the connection lookup or the event INSERT change nothing; otherwise the event is stored with the next id, followed by its snapshots up to the first INSERT that fails (also lines 160, 213-221) |
| Esp32Post.Log | endpoints/esp32/post.php:156-211 | the event is appended with the next id and the snapshots before the failing INSERT are appended and kept; with no failure all snapshots are appended and the reply is built, with one the reply is 400 |
| Esp32Post.AddEvent | endpoints/esp32/post.php:157-162 | the event is appended and takes the next AUTO_INCREMENT id, which moves on by one; the store stays well formed |
| Esp32Post.AddSnapshots | endpoints/esp32/post.php:81-96 | each snapshot is appended in turn, and exactly those |
| Esp32Post.PictureNeedsRequest | endpoints/esp32/post.php:150-154 | the reply has an image URL exactly when the image was wanted and a picture was stored (also lines 189-195) |
| Esp32Post.MissedDoseHasNoPicture | endpoints/esp32/post.php:139 | a dose flagged missed_dose is 'missed' and never stores a picture (also lines 151) |
| Esp32Post.NotTakenMayKeepPicture | endpoints/esp32/post.php:139 | a dose marked missed only by medication_taken === false still stores its picture when one is sent and written (also lines 151) |
| Esp32Post.Stored | endpoints/esp32/post.php:74-100 | the snapshots written before a failing INSERT: all of them when none fails, otherwise exactly those ahead of the failing one |
| HistorySummary.FilterOf | endpoints/history/summary.php:33-50 | a start and an end date that are both set and not empty win; otherwise period 'month' is the last 30 days, 'week' the last 7, and any other period no date condition |
| HistorySummary.SelectedExact | endpoints/history/summary.php:52 | every aggregate sees exactly the connection's events inside the window, and with no condition all of the connection's events (also lines 65, 89, 128, 154) |
| HistorySummary.WeekInsideMonth | endpoints/history/summary.php:46-50 | every event of the last week is also an event of the last month |
| HistorySummary.RateNearest | endpoints/history/summary.php:60-63 | the compliance rate in hundredths of a percent is within half a hundredth of taken·100/total |
| HistorySummary.RateBounds | endpoints/history/summary.php:60-63 | the rate is 0 without events or without taken doses, lies within 0 to 100 percent, and is 100 percent when every dose was taken (also lines 73) |
| HistorySummary.CountsOf | endpoints/history/summary.php:55-73 | the total is the number of events, taken and missed are the counts of 'taken' and of any other status and add up to the total, and the rate is their rounded ratio |
| HistorySummary.TimingById | endpoints/history/summary.php:88 | no timing exactly when no row has the id; otherwise such a row |
| HistorySummary.TimingIdsExact | endpoints/history/summary.php:88-91 | the groups are exactly the timing ids that have a selected event and exist in the timing table, strictly ascending |
| HistorySummary.BreakdownExact | endpoints/history/summary.php:75-102 | one row per group in ascending timing id, each counting exactly that timing's selected events, at least one, under the timing's name |
| HistorySummary.TrendDaysExact | endpoints/history/summary.php:129-130 | the trend's days are exactly the days with a selected event, strictly newest first |
| HistorySummary.TrendExact | endpoints/history/summary.php:104-140 | one row per day with a selected event, newest first, each named by its weekday and counting at least one event |
| HistorySummary.EventById | endpoints/history/summary.php:153 | no event exactly when no selected event has the id; otherwise that event |
| HistorySummary.Doses | endpoints/history/summary.php:152-154 | at most one joined row per snapshot, each carrying the name of a snapshot of a selected event |
| HistorySummary.MedRowOf | endpoints/history/summary.php:144-151 | a group's row has the group's name and never more taken than total times |
| HistorySummary.TopMedicationsShape | endpoints/history/summary.php:155-157 | at most five rows, ordered by total times then rate, each of them a group of the join |
| HistorySummary.TopMedicationsAreTop | endpoints/history/summary.php:156-157 | a group left out only when five rows are kept, and the last kept row ranks at least as high as it |
| HistorySummary.GroupNamesExact | endpoints/history/summary.php:155 | the group names are distinct and are exactly the snapshot names in the join |
| HistorySummary.MedGroupsExact | endpoints/history/summary.php:143-155 | each group counts exactly the joined rows of its name, at least one |
| HistorySummary.GetSummary | endpoints/history/summary.php:24-179 | 403 exactly without a connection id; otherwise the summary, timing breakdown and top medications over one selection, and a daily trend exactly when period is not 'all' |
| HistorySummary.RangeWithoutTrend | endpoints/history/summary.php:34 | a date range without a period still uses the range but gets no trend, because the trend follows the period alone (also lines 43-45, 105-106, 175-177) |
| HistoryIndex.PageOf | endpoints/history/index.php:34 | the page is at least 1: 1 when absent or below 1, the integer it reads as otherwise |
| HistoryIndex.LimitOf | endpoints/history/index.php:35 | the page size lies within 1 to 50: 10 when absent, clamped to 1 and to 50 otherwise |
| HistoryIndex.TotalPagesCeil | endpoints/history/index.php:47 | the page count is the least number of pages of that size holding every item, and 0 exactly when there is none |
| HistoryIndex.HasNextMeansMore | endpoints/history/index.php:101 | has_next holds exactly when some item lies beyond the current page |
| HistoryIndex.ItemOf | endpoints/history/index.php:50-60 | a row keeps the event's id, times, status and timing id; an empty day is shown as 'ทุกวัน' and a missing or empty timing name as 'ไม่ระบุมื้อ' (also lines 74-83) |
| HistoryIndex.PageRows | endpoints/history/index.php:36 | LIMIT/OFFSET: the page holds the rows from the offset on, as many as the limit allows, in order (also lines 65) |
| HistoryIndex.GetHistory | endpoints/history/index.php:24-106 | 403 exactly without a connection; otherwise the page's rows with their defaults and a pagination block with the page, the page size, the item and page counts and both flags |
| HistoryIndex.OrderedExact | endpoints/history/index.php:40-46 | the listing holds exactly the connection's events, newest first with ties by the higher id, and total_items counts them (also lines 59-64) |
| HistoryIndex.RowOnItsPage | endpoints/history/index.php:36 | no row is skipped by the paging: row k is entry k % limit of page k / limit + 1 (also lines 65) |
| HistoryIndex.NextPageNotEmpty | endpoints/history/index.php:101 | when has_next is true the next page shows at least one row |
| MedicationsShow.ShownName | endpoints/medications/show.php:85-88 | the display name is the nickname or the name, and the nickname exactly when it is neither empty nor '-' (or equals the name) |
| MedicationsShow.ShownNameAgreesWithCreate | endpoints/medications/show.php:86-88 | on a nickname the create handler can store, the detail view shows the same display name as the create response |
| MedicationsShow.RawTimingsAscending | endpoints/medications/show.php:97-108 | the joined timing rows come in ascending timing id |
| MedicationsShow.KeepFirst | endpoints/medications/show.php:112-126 | the kept entries have distinct timing ids and cover exactly the timing ids of the raw rows |
| MedicationsShow.FirstOccurrenceExtend | endpoints/medications/show.php:116-126 | an entry that was the first with its timing id stays so when a row is appended |
| MedicationsShow.FirstOccurrenceLast | endpoints/medications/show.php:119-124 | a row whose timing id is not yet seen is the first with its id |
| MedicationsShow.KeepFirstIsFirst | endpoints/medications/show.php:112-126 | every kept entry is the first raw row with its timing id |
| MedicationsShow.DedupTimings | endpoints/medications/show.php:113-126 | the seen-list loop keeps exactly the first row of each timing id, in query order |
| MedicationsShow.UsageOf | endpoints/medications/show.php:147-175 | a timing's usage lists the app_id, timing and status of exactly the user's active slots at that pill slot holding a link to the medication, in their table order; is_used holds exactly when there is one, and app_count is their number |
| MedicationsShow.UsageInAppIdOrder | endpoints/medications/show.php:163 | on a well-formed store a timing's usage list is in strictly ascending app id, as the ORDER BY asks |
| MedicationsShow.DistinctBefore | endpoints/medications/show.php:143-176 | with distinct timing ids, no earlier entry has the current entry's id, so the map entries do not overwrite each other |
| MedicationsShow.BuildUsage | endpoints/medications/show.php:143-176 | the map has one entry per kept timing, keyed by its timing id, holding that timing's usage |
| MedicationsShow.DosageFormById | endpoints/medications/show.php:67 | no form exactly when no row has the id; otherwise such a row |
| MedicationsShow.DetailOf | endpoints/medications/show.php:53-88 | the detail carries the medication's id, name and nickname, its dosage form's name, its unit's name or null, its picture URL and its display name |
| MedicationsShow.Show | endpoints/medications/show.php:31-184 | an id not positive is 422; a medication that is not the user's, or whose dosage form is missing, is 404; otherwise the detail, the deduplicated timings and the usage of each, every usage list in ascending app id |
| MedicationsIndex.OrDefault | endpoints/medications/index.php:86-89 | the value or the default, and never empty when the default is not |
| MedicationsIndex.OrDefaultNull | endpoints/medications/index.php:88-89 | a null column takes the default; otherwise as OrDefault |
| MedicationsIndex.FetchedRow | endpoints/medications/index.php:53-72 | the fetched row carries the medication's fields, the dosage form's name and id or null and 0 when the LEFT JOIN finds none, and likewise the unit |
| MedicationsIndex.Normalized | endpoints/medications/index.php:75-94 | the loop body keeps the ids, name and picture, adds the picture URL, puts '-', 'ไม่ระบุ' and 'เม็ด' in empty fields, and sets the display name from the defaulted nickname |
| MedicationsIndex.NormalizedHasNoEmptyField | endpoints/medications/index.php:86-89 | after the loop no shown text field is empty or null |
| MedicationsIndex.NormalizedIdempotent | endpoints/medications/index.php:75-94 | running the loop body twice gives the same row as running it once |
| MedicationsIndex.DisplayNameAgreesWithShow | endpoints/medications/index.php:91-93 | the list shows the same display name as the detail view of the same medication |
| MedicationsIndex.ListingExact | endpoints/medications/index.php:53-94 | the list holds exactly the connection's medications, highest id first, one normalised row each, and total counts them (also lines 107) |
| MedicationsIndex.NormalizeRows | endpoints/medications/index.php:75-94 | the by-reference foreach rewrites every row in place by the loop body |
| MedicationsIndex.List | endpoints/medications/index.php:33-111 | a token without positive ids is 422, a connection that is not the user's 403; otherwise the normalised listing and its count |
| MedicationsIndex.OrderedExact | endpoints/medications/index.php:53-71 | the query keeps exactly the connection's medications, one row each, with the highest id first |
| DosageForms.Entries | endpoints/dosage-forms/index.php:60-63 | one entry per unit row, in order, with its id and name |
| DosageForms.EntriesAppend | endpoints/dosage-forms/index.php:55-64 | the entries of two runs of rows are the entries of the first followed by those of the second |
| DosageForms.FilterOne | endpoints/dosage-forms/index.php:56-60 | a single unit row belongs to exactly the list of its own form |
| DosageForms.UnitsOfSnoc | endpoints/dosage-forms/index.php:55-64 | one more unit row is appended to its own form's list and to no other |
| DosageForms.EmptyUnitsOf | endpoints/dosage-forms/index.php:71 | a form that no unit row names has no unit |
| DosageForms.GroupStep | endpoints/dosage-forms/index.php:56-63 | one pass of the grouping loop keeps the map grouped over one more row |
| DosageForms.GroupUnits | endpoints/dosage-forms/index.php:53-64 | the map has a key exactly for each form named by a unit row, holding that form's units in row order |
| DosageForms.AttachUnits | endpoints/dosage-forms/index.php:66-72 | the by-reference foreach gives each form the list under its id, or an empty list, and changes nothing else |
| DosageForms.CatalogForms | endpoints/dosage-forms/index.php:37-39 | every form row is listed once, in ascending id order (also lines 67-72) |
| DosageForms.SortedUnitsSame | endpoints/dosage-forms/index.php:46-48 | ordering the unit rows keeps exactly the same rows |
| DosageForms.UnitsOfMembers | endpoints/dosage-forms/index.php:46-72 | a form's list holds exactly the unit rows of that form, and a form without units gets an empty list |
| DosageForms.UnitsOfAscending | endpoints/dosage-forms/index.php:46 | each form's list is in strictly ascending unit id order, so no unit appears twice (also lines 55-64) |
| DosageForms.Index | endpoints/dosage-forms/index.php:19-74 | no user is 401 and no connection 403; otherwise the catalog, empty when there is no form |
| DosageForms.UnitsForGrouped | endpoints/dosage-forms/index.php:70 | looking a form up in the grouped map with `?? []` gives exactly that form's units in row order, or no units when none name it |
| ResponseHelper.RemoveFields | helpers/ResponseHelper.php:106-116 | a non-array is returned as it is; an array keeps exactly the entries whose key is not one of the named fields |
| ResponseHelper.RemoveFieldsLoop | helpers/ResponseHelper.php:111-115 | unsetting the fields one at a time ends with the same array as removing them all together |
| ResponseHelper.EntryAt | helpers/ResponseHelper.php:94 | absent exactly when no entry has the key; otherwise the value of an entry with that key |
| ResponseHelper.RemoveFromEach | helpers/ResponseHelper.php:95-97 | array_map keeps every key and its position and scrubs each value |
| ResponseHelper.CleanData | helpers/ResponseHelper.php:86-104 | empty or non-array data unchanged; a list of records scrubbed record by record; any other array scrubbed at the top |
| ResponseHelper.CleanRecordExact | helpers/ResponseHelper.php:91 | a single record loses exactly user_id and connect_id and keeps every other entry (also lines 99, 106-116) |
| ResponseHelper.RemoveFieldsIdempotent | helpers/ResponseHelper.php:106-116 | removing the fields a second time removes nothing more |
| ResponseHelper.EntryAtAfterRemove | helpers/ResponseHelper.php:94 | removing string-keyed fields leaves the entry at an integer key as it was (also lines 111-113) |
| ResponseHelper.CleanDataIdempotent | helpers/ResponseHelper.php:86-104 | cleaning already cleaned data changes nothing |
| ResponseHelper.EntryAtEach | helpers/ResponseHelper.php:94-97 | after array_map the entry at a key is the scrubbed entry that was at that key |
| ResponseHelper.RecordListStays | helpers/ResponseHelper.php:94-97 | scrubbing each record keeps the data a list of records |
| ResponseHelper.Success | helpers/ResponseHelper.php:14-20 | 200 with the message or its default; the data field present exactly when data is not null, cleaned unless cleaning is turned off |
| ResponseHelper.Error | helpers/ResponseHelper.php:29-54 | the given code and message; the data field present, and equal to the data, exactly when data is not null |
| ResponseHelper.ValidationError | helpers/ResponseHelper.php:59-61 | code 422, status error, the given message and no data field, whatever else the caller passes |
| ResponseHelper.Unauthorized | helpers/ResponseHelper.php:66-68 | 401, no data, the message or its default |
| ResponseHelper.NotFound | helpers/ResponseHelper.php:73-75 | 404, no data, the message or its default |
| ResponseHelper.ServerError | helpers/ResponseHelper.php:80-82 | 500, no data, the message or its default |
| ResponseHelper.HelpersAreErrors | helpers/ResponseHelper.php:29-37 | each status helper answers what error() answers with that code and no data (also lines 59-82) |
| ResponseHelper.ValidationDropsDetails | helpers/ResponseHelper.php:29-37 | details given to validationError() never reach the client, while error() would carry them (also lines 59-61) |
| Router.StripBase | api/index.php:26-30 | the base path is cut off exactly when the path starts with it, and the path is kept as it is otherwise |
| Router.NormalizePath | api/index.php:32-35 | the result is never empty and ends in '/' only when it is the root '/' |
| Router.NormalizePathIdempotent | api/index.php:28-35 | normalising an already normalised path changes nothing |
| Router.Seg | api/index.php:103 | a segment is present exactly when the path has that many segments, and is then that segment (also lines 153-154, 221) |
| Router.IsValidIdOfNumber | api/index.php:410-412 | the text of a whole number, and the number itself, is a valid id exactly when it is positive |
| Router.IntToStringIsInt | api/index.php:410-411 | the decimal text of any integer is numeric text |
| Router.AuthFollowsTable | api/index.php:102-147 | the auth switch sends login, register, refresh, otp and reset-password to their endpoints on POST only and answers 404 for any other action |
| Router.MedicationsFollowTable | api/index.php:152-215 | the medication routes answer what the routing table lists for the id, the action and the method |
| Router.RemindersFollowTable | api/index.php:220-269 | the reminder routes answer what the routing table lists for each action and method |
| Router.HistoryFollowsTable | api/index.php:274-305 | the history routes answer what the routing table lists for summary, a numeric id and the collection |
| Router.OthersFollowTable | api/index.php:310-405 | the settings, device, dosage-form and ESP32 routes answer what the routing table lists |
| Router.SwitchFollowsTable | api/index.php:48-92 | the switch on the first segment answers exactly the routing table: 404 for an unknown path, 405 for a method the path does not list, the listed endpoint otherwise |
| Router.RouteFollowsTable | api/index.php:15-92 | the whole router answers an empty 200 to every OPTIONS request (the preflight of config/api_headers.php:34-40) and to the root, and the routing table's answer for every other request |
| Router.RootIsEmptyOk | api/index.php:42-45 | the empty 200 is answered exactly for an OPTIONS request or the root path (also line 15) |
| Router.UnknownSegmentNotFound | api/index.php:89-91 | a first segment that no route names is 404 for every method but OPTIONS, which the preflight answers with the empty 200 (also line 15) |
| Router.HandledMethodIsListed | api/index.php:48-405 | an endpoint is reached only with a method listed for its path, and it is the endpoint listed for that method |
| Router.DeviceMethods | api/index.php:379-405 | esp32/schedule takes only GET and esp32/record only POST; any other method is 405 |
| Router.MedicationDispatch | api/index.php:152-215 | an id with edit or timings, a numeric id alone, or the collection, each with its methods and with medication_id passed on when there is an id |
| Router.SummaryBeforeDetail | api/index.php:274-296 | history/summary is the summary, and any other numeric segment is the detail with history_id passed on |
| Otp.ActionOf | endpoints/auth/otp.php:30-55 | generate exactly when the action loosely equals 'generate', verify exactly when it does not but loosely equals 'verify', invalid otherwise and when missing |
| Otp.ActionNames | endpoints/auth/otp.php:40-47 | the strings 'generate' and 'verify' reach their handlers |
| Otp.ActionBooleans | endpoints/auth/otp.php:40-52 | the loose switch sends JSON true to generate and false to neither handler |
| Otp.ActionZero | endpoints/auth/otp.php:40-52 | the number 0 reaches neither handler |
| Otp.PaddedCode | endpoints/auth/otp.php:116-118 | the code is digits only and, for a draw in range, exactly the configured length |
| Otp.GeneratedCodeWellFormed | endpoints/auth/otp.php:116-118 | every code the generator can draw passes the verifier's format check and reads back as the number drawn (also lines 188-191) |
| Otp.DistinctDrawsDistinctCodes | endpoints/auth/otp.php:116-118 | different draws give different codes |
| Otp.RateLimitedMeans | endpoints/auth/otp.php:96-109 | generation is refused exactly when the user has an OTP created inside the rate-limit window |
| Otp.GenerateCheck | endpoints/auth/otp.php:64-109 | 503 when OTP is switched off, 422 for an email that is not a valid string, 404 for an unknown email, 429 inside the rate-limit window, otherwise the user found |
| Otp.FreshOtp | endpoints/auth/otp.php:124-134 | the new row belongs to the user, has no failed attempt and expires the configured minutes after it is created |
| Otp.ReplacedExact | endpoints/auth/otp.php:112-134 | generation leaves other users' OTPs as they were and leaves the user with the new row only |
| Otp.ReplacedOnePerUser | endpoints/auth/otp.php:112-134 | generation keeps every user at no more than one OTP |
| Otp.KeptOnePerUser | endpoints/auth/otp.php:112-113 | the rows the DELETE keeps belong to different users |
| Otp.FilterDistinctUsers | endpoints/auth/otp.php:112-113 | deleting rows never gives a user a second OTP |
| Otp.VerifyCheck | endpoints/auth/otp.php:172-191 | 503 when OTP is switched off, 422 unless both fields are strings and the trimmed code is exactly the configured number of digits, otherwise the trimmed email and code |
| Otp.Latest | endpoints/auth/otp.php:197-211 | absent exactly when the email has no unexpired OTP; otherwise an unexpired OTP of a user with that email |
| Otp.LatestIsNewest | endpoints/auth/otp.php:197-206 | no unexpired OTP of the email was created after the one read |
| Otp.AttemptCounter | endpoints/auth/otp.php:214-258 | the counter never passes the maximum, only a wrong code below the maximum moves it, by one, and a code is accepted exactly when it is right and the OTP is not locked |
| Otp.Run | endpoints/auth/otp.php:214-258 | a run of attempts gives one verdict per code |
| Otp.RunCounter | endpoints/auth/otp.php:223-233 | after a run the stored counter is the wrong codes counted, capped at the maximum |
| Otp.RunVerdicts | endpoints/auth/otp.php:214-258 | each verdict of a run is decided by the wrong codes before it: accepted, 401 while attempts remain after a wrong code, 429 otherwise |
| Otp.LockedForGood | endpoints/auth/otp.php:214-220 | once the maximum of wrong codes is reached every later code, even the right one, is 429 |
| Otp.SetAttempts | endpoints/auth/otp.php:226-230 | only the OTP with that id gets the new counter; every other row is unchanged |
| Otp.SetAttemptsOnePerUser | endpoints/auth/otp.php:226-230 | updating a counter keeps every user at no more than one OTP |
| Otp.GenerateThenVerify | endpoints/auth/otp.php:112-134 | the code just generated is accepted when verified before it expires, for an email no other account shares (also lines 197-258) |
| Otp.ReplacedWellNumbered | endpoints/auth/otp.php:112-134 | generation keeps OTP ids below the next id and counters non-negative |
| Otp.SetAttemptsWellNumbered | endpoints/auth/otp.php:226-230 | a counter update keeps OTP ids below the next id and counters non-negative |
| Otp.OtpStore.constructor | endpoints/auth/otp.php:128-134 | an empty OTP table whose first id is 1 |
| Otp.OtpStore.Generate | endpoints/auth/otp.php:60-163 | with OTP off (503) or no valid email (422) the answer is that; past those a database error anywhere in the try, the user and rate-limit SELECTs included, is 500; otherwise a failed check answers its code; every failure changes nothing; otherwise the user's OTPs are replaced by one fresh row with the hash of the code, and the answer reports the lifetime in seconds and whether the mail went out |
| Otp.OtpStore.Verify | endpoints/auth/otp.php:168-265 | a failed check, a fault or no unexpired OTP changes nothing; otherwise the counter moves exactly as one attempt says, and a right code answers with its owner's username and email, user_id having been cleaned out of the answer |
| Otp.PaddedZeros | endpoints/auth/otp.php:115-117 | the code is the draw's decimal digits with zeros in front of them |
| Otp.OtpStore.Replace | endpoints/auth/otp.php:111-131 | the DELETE and the INSERT: the user's OTPs become the one new row under the next id, the id counter moves by one, and the table stays well numbered |
| Otp.OtpStore.CountMiss | endpoints/auth/otp.php:224-230 | the UPDATE of a wrong code: that OTP's counter goes up by one, nothing else changes, and the table stays well numbered |
| Otp.OtpStore.Record | endpoints/auth/otp.php:222-230 | the counter is written only when the attempt moves it; otherwise the table is left as it was |
| Otp.VerifiedIsCleaned | endpoints/auth/otp.php:252-258 | the success data of a verify, once success() cleans it, holds exactly the username and the email: user_id is removed (also helpers/ResponseHelper.php:86-104) |

## Left out

- SQL itself: queries are filters, sorts and maps over the store's sequences. MySQL `TIME` and `DATETIME` normalisation, collations and `rowCount` semantics are modelled only where a finding depends on them.
- Ties in ORDER BY:
  - slots.php's available-medications query has no ORDER BY, and the model lists medications in id order;
  - rows that tie on `pill_slot` (esp32/get.php) are taken in slot id order;
  - OTPs created in the same second are taken highest id first.
- Floating point: amounts are `real`. Float-to-string formatting and `ROUND(…, 2)` are not modelled. Rates are proved to lie within a hundredth of the exact value, and `convertToFraction` gives a `Fraction` value instead of text.
- Php.IntVal: models `intval` and `(int)` on text as leading blanks, an optional sign and a run of digits (`Php.ToInt` handles null, booleans, integers and arrays). Decimal and exponent text is cut at the first non-digit, so `(int)"1e3"` gives 1 in the model where PHP gives 1000, and `(int)"1.9"` gives 1 in both. JSON floats have no `Php.Value` constructor, so float inputs are outside the model. Integers are unbounded: PHP's saturation of out-of-range text at the 64-bit bounds is not modelled.
- Php.IsNumeric: accepts integer notation only (sign, digits, surrounding blanks). PHP's `is_numeric` also accepts decimals and exponents, so an id like "1.5" or "1e3" counts as non-numeric in the model.
- PHP's normalisation of numeric-string array keys ("5" and 5 are the same key) is modelled only for the keys the handlers use.
- MedicationTimings.SetTimings: in medications/timings.php:63 `array_unique` keeps the keys of the values it keeps, so `[1, 1, 2]` is answered as the JSON object `{"0":1,"2":2}`. The model answers the values as a list, `[1, 2]`.
- In medications/create.php the `timing_ids` of the response is the result of `array_filter`, which keeps its original keys. The model returns the values as a list.
- Image I/O: GD resizing, finfo MIME detection, `file_put_contents`, `unlink` and `file_exists` are outcomes given as parameters. `base64_decode` is given as its decoded bytes.
- In config/upload_config.php:20-26 the `is_array` fallbacks for the allowed extensions and MIME types never apply, because the loader always returns arrays. The model uses the loader's lists.
- The error answers of the read handlers are not modelled. Each catches a database error and answers without changing the store: medications/show.php:186-188 answers 422 with the exception text; history/summary.php:181-183, history/index.php:108-113, settings/index.php:70-72, dosage-forms/index.php:76-78, medications/index.php:113-120 and esp32/get.php:119-121 answer 500. The slot detail (reminders/slots.php:136-138) is modelled with its fault (`ReminderSlots.Detail`).
- history/index.php's `formatted_*` display fields (dates and times formatted for the app) are text formatting of fields the model returns, and are left out.
- medications/show.php's debug queries and `error_log` calls have no effect on the answer and are not modelled.
- Messages are modelled where they carry information, such as the activation reasons, the number of disabled slots and the remaining OTP attempts. Otherwise only the codes are modelled. Timestamps in answers (`verified_at`, `updated_at`) are left out.
- `parse_url` and `urldecode` in api/index.php: the router starts from the decoded path. The 500 answer for an exception thrown by an endpoint is not modelled. The CORS headers that config/api_headers.php sends are left out; its answer to an OPTIONS preflight (an empty 200, for any path) is modelled at the top of `Router.Route`.
- The router's `switch` statements compare loosely. The model compares segments as strings, which agrees whenever a segment is not numeric text, and the labels are all non-numeric words.
- The early empty-list answer of dosage-forms/index.php is the same as the general answer for no forms, except for its message. Both are `Ok([])`.
- A null nickname or description in medications/index.php is modelled as the empty string. Both are falsy, so `?:` treats them alike.
- The OTP service:
  - an `OTP_LENGTH` of 0 or less, and float results of `pow()` for long lengths, are outside the model;
  - `PaddedCode`'s length guarantee requires a draw in range, which `random_int` ensures;
  - emails are compared exactly, whereas MySQL's case-insensitive collation is not modelled;
  - `sendOTPEmail`, `sendOTPEmailBasic` and the HTML and text templates are left out, and only whether the mail went out is a parameter;
  - `date()` formatting is left out.
- The credential and token machinery is not part of this model: config/jwt_handler.php and endpoints/auth/login.php, register.php, refresh.php and reset-password.php, and devices/username.php. These rest on JWT libraries and password hashing, which are foreign code.
- The plain read views and thin CRUD handlers are not part of this model: reminders/index.php, reminders/links.php, history/detail.php, medications/edit.php and medications/update.php. Each is an ownership-filtered query or a single UPDATE, and links.php's only computation is float formatting.
- config/db_connection.php and config/api_headers.php (PDO, headers, `echo` and `exit`) are plumbing. Concurrency and transaction isolation are left out: each method is one step on the store, with no other request running between its statements. Partial writes of handlers without a transaction are modelled through their fault parameters. JSON request bodies are taken as already decoded `Php.Value`s.
- ConfigLoader.LoadAsWritten: it takes a `fuel` bound on how deeply `load()` may re-enter itself. The unbounded recursion of the source is stated as "returns at no depth" (`MissingKeyLoadNeverReturns`).

## Findings

| source | as written | input that shows it | evidently intended | confidence | as-written member | corrected member |
|---|---|---|---|---|---|---|
| endpoints/reminders/status.php:55-60 | the status check is a loose in_array() against 0, 1, '0', '1', false and true | status `"yes"` (or 2, or `[1]`): it loosely equals `true`, passes the check and is stored as 1 | accept exactly 0, 1, '0', '1', false and true | high; not executed | ReminderStatus.LooseStatusGuardAcceptsAll | ReminderStatus.ParseStatus |
| endpoints/reminders/status.php:135-141,156 | a `rowCount()` of 0 after the UPDATE is answered with 500. PDO for MySQL reports changed rows, and config/db_connection.php does not set `MYSQL_ATTR_FOUND_ROWS` | switching on a slot that is already on: the UPDATE changes no row and the call fails with 500, so `status_changed` is never false on success | succeed on an existing row, and report in `status_changed` whether the status differed | medium; not executed | ReminderStatus.ResendFailsAsWritten | ReminderStatus.StatusWrite |
| config/config_loader.php:13-28,81-105,110-112,164-166 | `load()` calls `validateRequiredConfig()` before it sets the loaded flag. That calls `isDevelopment()`, which calls `get()`, which calls `load()` again | any required key left empty, such as `DB_HOST=` in `.env`: `load()` re-enters itself without end before the missing key can be reported | decide development mode from the `APP_ENV` already read, so that a missing key is reported or thrown | high; not executed | ConfigLoader.MissingKeyLoadNeverReturns | ConfigLoader.Loader.Load |
