# Mood diary bot: a verified model of its data and validation layer

This project is a Dafny model of the core of a Telegram mood-diary bot
written in Python. In the bot a user:

- records a daily diary entry of nine scores and a comment;
- writes free-form "impressions" with tags and links them to diary days;
- fills in survey templates, stars favourite surveys and sets survey
  reminders;
- asks for analytics and exports.

The model covers the layer under the Telegram handlers:

- the registry of active conversations;
- the input validators and the date and time helpers;
- the entry and user records;
- the per-user entry file and the users file;
- the SQLite-backed stores for impressions and tags, survey templates and
  responses, favourites, reminders and the built-in system surveys;
- the answer validation and question-configuration parsing of the survey
  dialogues;
- the `--flag value` argument parsers of the analytics and export commands;
- the counting and classification rules of the survey, impression and
  combined analytics;
- the rules that turn analysis results into insights.

The model takes the source's own form:

- **Registry and stores.** The module-level conversation registry is a
  class with a map field. The two CSV files are a class with a map of
  per-user row sequences and a users table. The SQLite database is one
  `Db.Database` object whose tables are sequences of rows. Every storing
  operation is a method with a `modifies` clause that states the whole new
  state and keeps the schema's keys (`Db.Database.Valid`).
- **Loops.** Loops that build results (decryption loops, argument
  scanners, counters) are methods whose loop invariants tie them to a
  specification function. The properties are proved as lemmas about those
  functions.
- **Pure helpers.** The validators, the parsers of configurations and the
  record conversions are functions.
- **Built-in surveys.** The four built-in templates are values. Each
  question holds its journal and position, and the question's text and
  help text are read from one table, `SystemSurveys.Wording`, when the
  question row is built.
- **Errors.**
  - A `sqlite3.Error` or other caught exception is a `fault` parameter: the
    operation then rolls back, changes nothing and returns its failure
    value.
  - Encryption and decryption are function parameters; decryption returns
    an `Option`.
  - The clock ("today", "now") is a parameter.

Shared helper modules:

- `Strings`: Python's `strip`, `lower` (for the capitals listed under
  "Left out"), `split`, `' '.join`, `int()`, `float()` (read as an exact
  real, see "Left out") and `str()` on strings.
- `Sorting`: list comprehensions as filters; a stable insertion sort that
  models `ORDER BY` and `sorted`.
- `Counting`: `collections.Counter` and `most_common`.
- `Dates`: the proleptic Gregorian calendar; `strptime` with `%Y-%m-%d`
  and timestamps.
- `Db`: the tables, their key constraints and the preference-row upsert.

Source paths below are relative to the repository root.

## Model

| member | source | states |
|---|---|---|
| ConversationManager.ConversationRegistry.constructor | src/utils/conversation_manager.py:14 | The registry starts empty, which satisfies the invariant that no chat has an empty handler map. |
| ConversationManager.ConversationRegistry.Register | src/utils/conversation_manager.py:17-30 | The chat's handler map gains or overwrites the one handler. Afterwards `is_conversation_active` holds and the stored state is the new one. The chat's handler set grows by at most that handler. Every other chat is unchanged. |
| ConversationManager.ConversationRegistry.End | src/utils/conversation_manager.py:33-49 | A pair that is not active is a no-op. Otherwise only that handler goes, and the chat goes with it when no handler is left. Every other handler of the chat and every other chat keeps its state. |
| ConversationManager.ConversationRegistry.EndAll | src/utils/conversation_manager.py:52-71 | Returns exactly the chat's active handlers, the empty set for an unknown chat. It removes only that chat. Afterwards `has_active_conversations` is false. |
| ConversationManager.ConversationRegistry.GetActive | src/utils/conversation_manager.py:74-86 | The chat's handler map, or the empty map for an unknown chat. It is a read, so the chat is not inserted. |
| ConversationManager.ConversationRegistry.IsActive | src/utils/conversation_manager.py:89-102 | True iff the chat has that handler in its map, that is, in the map `get_active_conversations` returns; false for an unknown chat. |
| ConversationManager.ConversationRegistry.HasActive | src/utils/conversation_manager.py:105-117 | True iff some handler of the chat is active. Under the invariant, true iff the chat is a key. |
| Validation.ValidateNumericInput | src/utils/validation.py:12-57 | `(True, n)` iff the text is all decimal digits and its value lies in `[min_val, max_val]`, with n that value. Otherwise `(False, None)`. |
| Validation.NumericBoundsAccepted | src/utils/validation.py:53-57 | Both `min_val` and `max_val`, written as `str(n)`, are accepted with their own value. |
| Validation.NumericOutsideRejected | src/utils/validation.py:53-55 | `min_val - 1` and `max_val + 1` are rejected. |
| Validation.NonDigitRejected | src/utils/validation.py:41-43 | Any text holding a non-digit character (a sign, a point, a blank) is rejected. |
| Validation.PrefixSlice | src/utils/validation.py:87 | Python's `s[:n]`: always a prefix of `s`, of length `min(n, len(s))` for `n >= 0` and `max(len(s) + n, 0)` for a negative `n`. |
| Validation.ValidateComment | src/utils/validation.py:60-90 | Always `True`. The text is `strip(comment)` cut to `max_length` characters: a prefix of the stripped comment whose length is `min(len(strip(c)), max_length)`. |
| Validation.CommentKeptWhenClean | src/utils/validation.py:82-90 | A comment without surrounding blanks and within the limit comes back unchanged. |
| Validation.ErrorMessageStatesBounds | src/utils/validation.py:93-109 | Two different field names give the same message, so the field name plays no part. The fifth and seventh words of the message read back as `min_val` and `max_val`. |
| DateHelpers.ParseDateRange | src/utils/date_helpers.py:9-25 | The end is present only with the start. Neither contains '_', and "date_range_all" gives no start. |
| DateHelpers.ParseDateRangeOfCallback | src/utils/date_helpers.py:17-22 | A four-part callback string gives back its third and fourth parts. |
| DateHelpers.ParseDateRangeOpenEnd | src/utils/date_helpers.py:18-22 | Exactly three parts give the third part and no end. |
| DateHelpers.ParseDateRangeShort | src/utils/date_helpers.py:23-25 | One or two parts give `(None, None)`. |
| DateHelpers.GetPeriodName | src/utils/date_helpers.py:28-63 | Covers the "all time" name and the failure with fewer than three parts (unbound start and end). A start that does not parse raises. |
| DateHelpers.PeriodNameOfParts | src/utils/date_helpers.py:44-63 | With four parts that both parse, the name is the label of the day difference between the two dates. |
| DateHelpers.PeriodNameOfDates | src/utils/date_helpers.py:53-63 | For explicit dates, a difference of 6, 29 or 89 days gives the week, month or three-month name. Any other difference gives "с {start} по {end}". |
| DateHelpers.PeriodNameOfSpan | src/utils/date_helpers.py:53-61 | A start date and the date 6, 29 or 89 days later get the week, month and three-month names. |
| DateHelpers.IsValidEntryDate | src/utils/date_helpers.py:152-184 | True iff the text is present, parses as a `%Y-%m-%d` date, and lies between 2020-01-01 and today inclusive. |
| DateHelpers.EntryDateWindow | src/utils/date_helpers.py:170-182 | Every calendar date from 2020-01-01 to today, written canonically, is accepted. |
| DateHelpers.IsValidTimeFormat | src/utils/date_helpers.py:219-233 | Whatever is accepted is two digits, a colon and two digits, with the hour below 24 and the minute below 60. A final newline is allowed by `$`. So "1:30", "24:00", "12:60" and "12:30:00" are rejected. |
| DateHelpers.PaddedClockAccepted | src/utils/date_helpers.py:226-231 | Every zero-padded hour 00-23 with minute 00-59 is accepted. |
| DateHelpers.PaddedClockNewlineAccepted | src/utils/date_helpers.py:226-231 | The same times are accepted with one final newline, which `$` and `int` both let through. |
| DateHelpers.FormatDate | src/utils/date_helpers.py:236-251 | Text that does not parse as a date, "" included, is returned unchanged. |
| DateHelpers.FormatDateRearranges | src/utils/date_helpers.py:247-249 | A canonical "YYYY-MM-DD" date comes back as "DD.MM.YYYY": the same three fields, rearranged. |
| Models.Get | src/data/models.py:62 | `data.get(key)`: the stored value, or None for a missing key. |
| Models.IntOf | src/data/models.py:59 | Python's `int(value)`: an integer is kept and None raises. |
| Models.IntOfIntString | src/data/models.py:59 | `int(str(n)) == n` for every integer. |
| Models.ReadScores | src/data/models.py:59-69 | On success, one value per score key, each being `int` of that key's value. On failure, the reported key is missing or not an integer. |
| Models.ReadScoresOk | src/data/models.py:59-69 | Reading succeeds when every score key is present and holds an integer. |
| Models.ReadAll | src/data/models.py:59-69 | All nine scores read iff every score key is present and an integer. |
| Models.EntryFromDict | src/data/models.py:56-70 | Succeeds iff 'date' is present and the nine scores are present integers. On success the date, the scores and the comment come from the dictionary, and a missing 'comment' becomes None. |
| Models.EntryToDict | src/data/models.py:72-86 | Exactly the eleven keys, with 'comment' always present. Each score is written as `str(score)`. |
| Models.ScoresOfRead | src/data/models.py:56-70 | Each score of a parsed entry is `int` of the dictionary's value for it. |
| Models.EntryRoundTrip | src/data/models.py:56-86 | `Entry.from_dict(e.to_dict()) == e` for every entry. |
| Models.ScoresOf | src/data/models.py:41-52 | The nine scores of an entry, in key order. |
| Models.EntryDictRoundTrip | src/data/models.py:56-86 | `to_dict(from_dict(d)) == d` when `d` has exactly the eleven keys and every score is `str` of an integer. |
| Models.EntryRejectsNonIntegerScore | src/data/models.py:59-69 | A score that is present but not an integer makes `from_dict` fail. |
| Models.UserFromDict | src/data/models.py:98-105 | Succeeds iff 'chat_id' is present and an integer. username, first_name and notification_time are `data.get` of their keys, so None when missing. |
| Models.UserToDict | src/data/models.py:107-114 | Exactly the four keys, with the chat id as an integer. |
| Models.UserRoundTrip | src/data/models.py:98-114 | `User.from_dict(u.to_dict()) == u` for every user. |
| Models.UserDefaults | src/data/models.py:98-105 | A dictionary holding only 'chat_id' gives a user whose three other fields are None. |
| Storage.CountDate | src/data/storage.py:79 | The number of rows of a date. It is positive iff the date occurs. |
| Storage.RowsWithout | src/data/storage.py:82 | `df[df['date'] != date]`: exactly the rows of other dates, with none of that date left. |
| Storage.RowsWithoutAbsent | src/data/storage.py:79-82 | Without a row of the date, filtering changes nothing. |
| Storage.UpsertedProperties | src/data/storage.py:78-92 | After a save there is exactly one row for the date. It is the new row and it is last. The rows of other dates keep their order. |
| Storage.SaveTwiceSameDate | src/data/storage.py:79-85 | Saving twice for one date equals saving the second row once, leaving a single row for that date. |
| Storage.Selected | src/data/storage.py:135-139 | The rows whose date lies within the non-empty bounds (string order). |
| Storage.Decrypted | src/data/storage.py:142-152 | The truthy decryptions, in file order, at most one per row. |
| Storage.DecryptedMembers | src/data/storage.py:143-151 | An entry is returned iff some row decrypts to it and it is non-empty. Rows that fail to decrypt are dropped. |
| Storage.DecryptedAll | src/data/storage.py:143-147 | When every row decrypts to something non-empty, nothing is dropped. |
| Storage.UsersAfterSave | src/data/storage.py:248-299 | As written, for an existing user, every row of the chat has its names overwritten and keeps its time when the new time is None. A new user is appended. A missing file is created with the one user. |
| Storage.UsersAfterSaveIntended | src/data/storage.py:271-272 | The corrected reading: an explicit time, None included, is what the user's rows hold afterwards. |
| Storage.UsersAt | src/data/storage.py:321 | `users[notification_time == t]`: exactly the users whose time is t, in file order. |
| Storage.DisableKeepsReminder | src/data/storage.py:271-272 | As written, a user saved with "10:00" and then saved with None is still due at "10:00". |
| Storage.IntendedDisableClearsReminder | src/data/storage.py:271-272 | Under the corrected reading the same two saves leave nobody due at "10:00". |
| Storage.IntendedKeepAgrees | src/data/storage.py:248-299 | When the time is left out, the corrected reading and the code agree. |
| Storage.CsvStore.constructor | src/data/storage.py:59 | No entry file and no users file yet. |
| Storage.CsvStore.RowsOf | src/data/storage.py:121-125 | A missing file reads as no rows. |
| Storage.CsvStore.SaveData | src/data/storage.py:47-106 | Returns True iff encryption succeeds and the entry has a date. Then only the chat's file changes, and it becomes the upsert of the new row. On failure nothing changes. The users file is untouched. |
| Storage.CsvStore.GetUserEntries | src/data/storage.py:109-157 | The truthy decryptions of the in-range rows, in file order. A missing file gives []. |
| Storage.CsvStore.DeleteAllEntries | src/data/storage.py:160-186 | Returns True iff the file exists, and then leaves it with zero rows. Afterwards `has_entry_for_date` is false for every date. |
| Storage.CsvStore.DeleteEntryByDate | src/data/storage.py:189-221 | Returns True iff the file exists and holds the date, and then removes exactly that date's rows. Otherwise nothing changes. Afterwards the date is absent. |
| Storage.CsvStore.HasEntryForDate | src/data/storage.py:224-245 | True iff the file exists and some row has the date. |
| Storage.CsvStore.SaveUser | src/data/storage.py:248-299 | Always True. The users file becomes the as-written update, and the entry files are untouched. |
| Storage.CsvStore.GetUsersForNotification | src/data/storage.py:302-333 | Exactly the users of the file whose notification time equals the given time. A missing file gives []. |
| Storage.SavedUserIsDue | src/data/storage.py:248-321 | After `save_user` with a time, the user is among those due at that time. |
| Db.Database.constructor | src/data/migrations/add_surveys_tables.py:43-100 | A freshly migrated database: the survey tables created here and the impression tables of src/data/migrations/add_impressions_tables.py:36-73 are empty, with every AUTOINCREMENT counter at 1, and the key constraints hold. |
| Db.Database.State | src/data/migrations/add_impressions_tables.py:36-73 | The snapshot of every table of the schema (these impression tables and the survey tables of src/data/migrations/add_surveys_tables.py:43-100), field by field. |
| Db.AppendFresh | src/data/impressions_storage.py:40-55 | An `INSERT` under the next `AUTOINCREMENT` id keeps the ids distinct and below the counter. The new id was not in use. |
| Db.FilterIdTable | src/data/impressions_storage.py:207-210 | A `DELETE ... WHERE` keeps an `AUTOINCREMENT` table's ids distinct and below the counter. |
| Db.FilterKeysDistinct | src/data/impressions_storage.py:207-210 | Deleting rows keeps every uniqueness constraint. |
| Db.FilterOutOne | src/data/surveys_storage.py:315-318 | Deleting by a key in use removes exactly one row. |
| Db.PreferenceOf | src/data/favorite_surveys_storage.py:40-45 | `SELECT ... WHERE chat_id = ? AND template_id = ?`: a row of that key from the table, or None exactly when no row has the key. |
| Db.PreferenceOfAt | src/data/favorite_surveys_storage.py:40-45 | Under the primary key, the row fetched for a key is the one row holding it. |
| Db.Upsert | src/data/favorite_surveys_storage.py:45-58 | UPDATE of an existing (chat, template) row, else INSERT. Afterwards the key fetches the new row, every other key fetches what it fetched before, and the primary key still holds. |
| Db.UpsertOverwrites | src/data/survey_notifications_storage.py:80-99 | A second write under the same key gives the same table as writing only the second. |
| Db.PairDescTotal | src/data/impressions_storage.py:118 | `ORDER BY a DESC, b DESC` on text columns is total. |
| Db.PairDescTrans | src/data/impressions_storage.py:118 | The same order is transitive. |
| FavoriteSurveysStorage.Favorite | src/data/favorite_surveys_storage.py:45-58 | The row left for (chat, template) is a favourite. An existing row keeps its reminder columns. A new row gets the defaults: no reminder, no time. |
| FavoriteSurveysStorage.AddToFavorites | src/data/favorite_surveys_storage.py:14-67 | Returns True iff there is no error and the template exists. Then only the preference row for (chat, template) changes, and it becomes a favourite with its reminder columns kept, so `is_favorite` holds. Otherwise nothing changes. |
| FavoriteSurveysStorage.RemoveFromFavorites | src/data/favorite_surveys_storage.py:70-112 | Returns True iff there is no error and the row exists. Then only its `is_favorite` is cleared: the row stays, even if it was not a favourite. Otherwise nothing changes. |
| FavoriteSurveysStorage.IsFavorite | src/data/favorite_surveys_storage.py:157-185 | True iff the chat has a row for the template with `is_favorite = 1`. False when no row exists. |
| FavoriteSurveysStorage.AddIdempotent | src/data/favorite_surveys_storage.py:45-58 | Adding a favourite twice leaves the same table as adding it once. |
| FavoriteSurveysStorage.ByNameOrder | src/data/favorite_surveys_storage.py:140 | `ORDER BY st.name` is a total preorder. |
| FavoriteSurveysStorage.GetFavoriteSurveys | src/data/favorite_surveys_storage.py:115-154 | A permutation of the chat's favourite rows joined to their templates, sorted by template name. |
| FavoriteSurveysStorage.ListedIsFavorite | src/data/favorite_surveys_storage.py:131-141 | Every listed survey is a favourite according to `is_favorite`. |
| FavoriteSurveysStorage.FavoriteIsListed | src/data/favorite_surveys_storage.py:131-141 | Every favourite whose template exists is listed. |
| FavoriteSurveysStorage.FavoritesListed | src/data/favorite_surveys_storage.py:131-141 | An existing template is listed iff `is_favorite` says it is a favourite. |
| ImpressionsStorage.NewImpression | src/data/impressions_storage.py:36-53 | the inserted row exists exactly when text, date and time are each given by the long key or the short fallback; each of the three takes the long key when it is present and non-empty, else the short one; id, chat, category, intensity and `created_at` are copied |
| ImpressionsStorage.SaveImpression | src/data/impressions_storage.py:14-62 | without an error, the row built from the input is appended under the next id, which no existing impression carries, and that id is returned; on an error or a NULL in a required column, `None` and nothing changes |
| ImpressionsStorage.NewerFirstOrder | src/data/impressions_storage.py:115 | `ORDER BY impression_date DESC, impression_time DESC` is a total preorder |
| ImpressionsStorage.UserImpressions | src/data/impressions_storage.py:93-115 | the query result is sorted newest first and is a permutation of the impressions that pass the chat, date, range and category filters; a row is returned exactly when it is stored and passes them |
| ImpressionsStorage.TagsOf | src/data/impressions_storage.py:149-182 | a tag is listed exactly when it is stored and linked to the impression |
| ImpressionsStorage.GetUserImpressions | src/data/impressions_storage.py:65-146 | on an error the list is empty; otherwise one result per selected row, in query order, each carrying the impression's tags exactly when `include_tags` is set |
| ImpressionsStorage.UserImpressionsSelected | src/data/impressions_storage.py:93-112 | every returned impression is stored, belongs to the chat, and has the requested date and category when those are given |
| ImpressionsStorage.OpenRangeIgnored | src/data/impressions_storage.py:106-108 | a date range with a missing bound filters nothing: the result is all of the chat's impressions |
| ImpressionsStorage.GetImpressionById | src/data/impressions_storage.py:359-398 | returns a stored impression with that id owned by that chat, and `None` exactly on an error or when the chat owns no such impression |
| ImpressionsStorage.FindOwned | src/data/impressions_storage.py:374-382 | the row found by id and chat is stored and owned; none is found exactly when the chat owns no impression with that id |
| ImpressionsStorage.DeleteImpression | src/data/impressions_storage.py:185-224 | succeeds exactly when there is no error and the chat owns the impression; removes exactly the owned rows with that id, and succeeds exactly when a row went away; an error changes nothing |
| ImpressionsStorage.DeleteKeepsOthers | src/data/impressions_storage.py:207-210 | after the delete every other impression is still there and the deleted one is gone |
| ImpressionsStorage.SetEntryDate | src/data/impressions_storage.py:443-451 | the UPDATE changes `entry_date` on exactly the rows with that id and chat, and keeps the length and everything else |
| ImpressionsStorage.SetEntryDateLastWins | src/data/impressions_storage.py:443-451 | two updates of the same impression leave the value of the second |
| ImpressionsStorage.SetEntryDateKeepsOwners | src/data/impressions_storage.py:443-451 | linking or unlinking changes no ids and no ownership |
| ImpressionsStorage.LinkImpressionToEntry | src/data/impressions_storage.py:401-456 | succeeds exactly when there is no error, the chat owns the impression and has an entry on that date; then sets its `entry_date` to that date; otherwise nothing changes |
| ImpressionsStorage.UnlinkImpression | src/data/impressions_storage.py:459-498 | succeeds exactly when there is no error and the chat owns the impression; then clears its `entry_date`; otherwise nothing changes |
| ImpressionsStorage.UnlinkIdempotent | src/data/impressions_storage.py:459-498 | after an unlink the impression is still owned, so a second unlink succeeds too and changes nothing more |
| ImpressionsStorage.EarlierTimeOrder | src/data/impressions_storage.py:524 | `ORDER BY impression_time ASC` is a total preorder |
| ImpressionsStorage.GetEntryImpressions | src/data/impressions_storage.py:501-545 | on an error the list is empty; otherwise it is sorted by time and is a permutation of the chat's impressions linked to that entry date |
| ImpressionsStorage.NormalizeTagIdempotent | src/data/impressions_storage.py:249 | stripping and lower-casing a tag name twice is the same as once |
| ImpressionsStorage.FindTag | src/data/impressions_storage.py:254-262 | a found tag is stored with that chat and name; none is found exactly when no stored tag has both |
| ImpressionsStorage.FindTagAfterInsert | src/data/impressions_storage.py:265-274 | after inserting a tag whose name the chat did not have, looking the name up finds the new tag |
| ImpressionsStorage.CreateTag | src/data/impressions_storage.py:227-279 | on an error `None` and nothing changes; an existing tag with the normalised name is returned unchanged; otherwise a tag with the normalised name and the colour is appended under the next id; afterwards looking the name up gives the returned id |
| ImpressionsStorage.NameOrderTotal | src/data/impressions_storage.py:299 | `ORDER BY tag_name` is a total preorder |
| ImpressionsStorage.GetUserTags | src/data/impressions_storage.py:282-315 | on an error the list is empty; otherwise it is sorted by name and is a permutation of the chat's tags |
| ImpressionsStorage.LinksFor | src/data/impressions_storage.py:344-348 | one link per tag id, in order, each to the impression |
| ImpressionsStorage.LinkRepeats | src/data/impressions_storage.py:344-348 | an INSERT that meets an existing link of the same impression means the tag ids repeat |
| ImpressionsStorage.LinkExtends | src/data/impressions_storage.py:344-348 | an INSERT of a new link keeps the primary key `(impression_id, tag_id)` unique |
| ImpressionsStorage.AttachTagsToImpression | src/data/impressions_storage.py:318-357 | succeeds exactly when there is no error and the tag ids have no repeats; then the impression's old links are replaced by one link per tag id; otherwise the transaction rolls back and nothing changes |
| ImpressionsStorage.AttachReplacesTagSet | src/data/impressions_storage.py:338-348 | after attaching, the impression is linked to exactly the given tags and every other impression keeps exactly its links |
| SurveysStorage.SystemFirstOrder | src/data/surveys_storage.py:42 | `ORDER BY is_system DESC, name ASC` is a total preorder |
| SurveysStorage.GetAvailableTemplates | src/data/surveys_storage.py:17-56 | the list is sorted system first, then by name, and is a permutation of the templates that pass the `only_active` and `only_system` filters; a template is listed exactly when it is stored and passes them |
| SurveysStorage.AvailableTemplatesOrder | src/data/surveys_storage.py:42 | in the list no user template comes before a system template, and within a group names do not decrease |
| SurveysStorage.GetTemplateById | src/data/surveys_storage.py:59-84 | a found template is stored with that id; `None` exactly when no stored template has it |
| SurveysStorage.GetTemplateByName | src/data/surveys_storage.py:87-112 | a found template is stored with that name; `None` exactly when no stored template has it |
| SurveysStorage.TemplateByIdUnique | src/data/surveys_storage.py:59-84 | with ids unique, looking up a stored template's id returns that template |
| SurveysStorage.ByOrderIndexOrder | src/data/surveys_storage.py:129 | `ORDER BY order_index ASC` is a total preorder |
| SurveysStorage.GetTemplateQuestions | src/data/surveys_storage.py:115-141 | the list is sorted by order index and is a permutation of the template's questions; a question is listed exactly when it is stored under the template |
| SurveysStorage.QuestionsOrderIndependent | src/data/surveys_storage.py:125-129 | two tables holding the same question rows, in any order, list the same number of questions with the same order indexes position by position |
| SurveysStorage.NewResponse | src/data/surveys_storage.py:160-176 | a row exists exactly when chat, template, date and time are present (a missing key raises, a `None` breaks a `NOT NULL` column), the answers key is present, and the encryption succeeds; answers that are `None` are encrypted as `null` and stored; the row holds those values and the encrypted answers |
| SurveysStorage.NullAnswersSaved | src/data/surveys_storage.py:165-168 | answers that are `None` give a row holding the encryption of `None`, while a missing answers key gives none |
| SurveysStorage.SaveSurveyResponse | src/data/surveys_storage.py:144-184 | succeeds exactly when there is no error and the row can be built; then that row is appended under the next id; otherwise nothing changes |
| SurveysStorage.Decrypted | src/data/surveys_storage.py:225-236 | never more responses than rows |
| SurveysStorage.DecryptedSnoc | src/data/surveys_storage.py:225-236 | one more row adds its response exactly when its answers decrypt to something non-empty |
| SurveysStorage.DecryptedFromRows | src/data/surveys_storage.py:229-236 | every returned response comes from a row whose answers decrypt to its non-empty answers, with the row's other columns kept |
| SurveysStorage.DecryptedComplete | src/data/surveys_storage.py:225-236 | every row that decrypts to something non-empty is among the returned responses |
| SurveysStorage.DecryptedAll | src/data/surveys_storage.py:225-236 | when every row decrypts to something non-empty, no row is dropped |
| SurveysStorage.DecryptResponses | src/data/surveys_storage.py:225-236 | the decryption loop returns exactly the readable responses, in query order |
| SurveysStorage.NewestFirstOrder | src/data/surveys_storage.py:220 | `ORDER BY response_date DESC, response_time DESC` is a total preorder |
| SurveysStorage.UserResponses | src/data/surveys_storage.py:206-220 | the rows read are sorted newest first and are a permutation of the chat's rows in the period; a row is read exactly when it is the chat's and in the period |
| SurveysStorage.DateBeatsRange | src/data/surveys_storage.py:213-218 | a non-empty single date selects the same rows whatever range bounds are given |
| SurveysStorage.GetUserSurveyResponses | src/data/surveys_storage.py:187-240 | the readable decryptions of the selected rows, in order, and never more than the rows selected |
| SurveysStorage.Limited | src/data/surveys_storage.py:268-270 | a prefix of the rows, of length `min(rows, limit)` for a positive limit, and all rows when the limit is absent, zero or negative |
| SurveysStorage.TemplateResponses | src/data/surveys_storage.py:260-270 | sorted newest first and drawn from the chat's responses to the template; without a positive limit, exactly those responses; with one, min(limit, their number) of them, and none left out is newer than one returned |
| SurveysStorage.GetResponsesByTemplate | src/data/surveys_storage.py:243-287 | the readable decryptions of those rows, at most `limit` of them, each of the chat and the template; without a positive limit, every response of the chat to the template that decrypts to something non-empty is returned |
| SurveysStorage.DeleteSurveyResponse | src/data/surveys_storage.py:290-328 | succeeds exactly when there is no error and the response exists and belongs to the chat; then exactly that row is removed; otherwise nothing changes |
| SurveyNotificationsStorage.Format02Reads | src/data/survey_notifications_storage.py:28 | a number formatted with `:02d` has no colon and reads back as itself |
| SurveyNotificationsStorage.HourMinuteOf | src/data/survey_notifications_storage.py:26 | two colon-free integer pieces around one colon split and read back as those integers |
| SurveyNotificationsStorage.HourMinuteRejects | src/data/survey_notifications_storage.py:26 | a time whose hour or minute piece is not an integer raises ValueError |
| SurveyNotificationsStorage.TimeTextReads | src/data/survey_notifications_storage.py:28 | the formatted result of a conversion splits and reads back as its hour and minutes |
| SurveyNotificationsStorage.ToUtc | src/data/survey_notifications_storage.py:15-28 | the conversion to UTC fails with ValueError exactly when the time does not split into two integers |
| SurveyNotificationsStorage.FromUtc | src/data/survey_notifications_storage.py:31-44 | the conversion from UTC fails with ValueError exactly when the time does not split into two integers |
| SurveyNotificationsStorage.ToUtcReads | src/data/survey_notifications_storage.py:26-28 | the UTC hour is the local hour minus the offset, floored modulo 24, and the minutes are kept |
| SurveyNotificationsStorage.FromUtcReads | src/data/survey_notifications_storage.py:42-44 | the local hour is the UTC hour plus the offset, floored modulo 24, and the minutes are kept |
| SurveyNotificationsStorage.PaddedReads | src/data/survey_notifications_storage.py:26 | a two-digit `HH:MM` time reads as its hour and minutes |
| SurveyNotificationsStorage.ToUtcPadded | src/data/survey_notifications_storage.py:15-28 | a two-digit time converts to the two-digit time of the shifted hour |
| SurveyNotificationsStorage.FromUtcPadded | src/data/survey_notifications_storage.py:31-44 | a two-digit UTC time converts back to the two-digit time of the shifted hour |
| SurveyNotificationsStorage.HoursBack | src/data/survey_notifications_storage.py:27-43 | subtracting an offset modulo 24 and adding it back modulo 24 gives the hour modulo 24 |
| SurveyNotificationsStorage.UtcRoundTrip | src/data/survey_notifications_storage.py:15-44 | a two-digit `HH:MM` time of the day converts to UTC and back to itself, whatever the offset |
| SurveyNotificationsStorage.Reminder | src/data/survey_notifications_storage.py:79-101 | the row left for the chat and template has the reminder switched on at the UTC time; an existing row keeps its favourite flag, a new one is not a favourite |
| SurveyNotificationsStorage.SetSurveyReminder | src/data/survey_notifications_storage.py:47-108 | returns `True` exactly when there is no error, the template exists and the time converts; the ValueError of an unreadable time escapes; on success the row is upserted and holds the converted time; otherwise nothing changes |
| SurveyNotificationsStorage.RemoveSurveyReminder | src/data/survey_notifications_storage.py:111-153 | returns `True` exactly when there is no error and the row exists; then only its reminder flag is switched off, keeping the time and the favourite flag; otherwise nothing changes |
| SurveyNotificationsStorage.FavoriteAndReminderCommute | src/data/survey_notifications_storage.py:79-103 | marking a favourite and setting a reminder on the shared row give the same table in either order |
| SurveyNotificationsStorage.GetSurveyReminders | src/data/survey_notifications_storage.py:156-204 | one entry per row of the chat joined with its existing template, only switched-on rows when `enabled_only` is set, each entry being the template id, name and description of an existing template and the switch, time and favourite flag of the chat's own row for it |
| SurveyNotificationsStorage.ReminderListed | src/data/survey_notifications_storage.py:175-186 | every row of the chat whose template exists is listed with its own columns |
| SurveyNotificationsStorage.GetSurveysForNotification | src/data/survey_notifications_storage.py:207-249 | one entry per switched-on reminder at the current UTC time joined with its template and user, each of them really scheduled then, carrying the name and description of a stored template with its id and the offset (0 when unset) of a users row of its chat |
| SurveyNotificationsStorage.StoredReminderIsSent | src/data/survey_notifications_storage.py:224-246 | a reminder switched on at a UTC time is listed at that time when its template and user exist, with the user's offset or 0 |
| SystemSurveys.EscapeChar | src/data/system_surveys.py:53 | `json.dumps` writes every character as printable ASCII |
| SystemSurveys.EscapeAll | src/data/system_surveys.py:61-66 | the escaped body of any string, the Cyrillic option labels included, is printable ASCII |
| SystemSurveys.CbtJournal | src/data/system_surveys.py:14-91 | the cognitive-behavioural journal is named 'КПТ дневник' and holds 7 questions numbered 1 to 7 |
| SystemSurveys.AddictionJournal | src/data/system_surveys.py:94-170 | the addiction journal is named 'Дневник зависимости' and holds 7 questions numbered 1 to 7 |
| SystemSurveys.GratitudeJournal | src/data/system_surveys.py:173-208 | the gratitude journal is named 'Дневник благодарности' and holds 3 questions numbered 1 to 3 |
| SystemSurveys.SleepJournal | src/data/system_surveys.py:211-280 | the sleep journal is named 'Дневник сна' and holds 6 questions numbered 1 to 6 |
| SystemSurveys.SystemTemplates | src/data/system_surveys.py:294-299 | four templates, each with its questions numbered from 1 |
| SystemSurveys.SystemNamesDistinct | src/data/system_surveys.py:294-299 | the four built-in names differ |
| SystemSurveys.SystemQuestionCount | src/data/system_surveys.py:294-299 | the built-in templates hold 23 questions in all |
| SystemSurveys.AddQuestions | src/data/system_surveys.py:328-341 | inserting a template's questions appends one row per question, in order, under consecutive fresh ids, and changes nothing else |
| SystemSurveys.LoadOne | src/data/system_surveys.py:301-341 | a template whose name a system template already has is skipped; otherwise an active system template row is appended under the next id, followed by its questions |
| SystemSurveys.LoadAllAppends | src/data/system_surveys.py:301-341 | loading only appends templates, and every added one is an active system template named after one of the built-ins |
| SystemSurveys.LoadAllNames | src/data/system_surveys.py:301-341 | after loading, every built-in name is present as a system template |
| SystemSurveys.LoadAllSkips | src/data/system_surveys.py:303-312 | when every name is already present as a system template, loading changes nothing |
| SystemSurveys.LoadTwice | src/data/system_surveys.py:283-346 | loading is idempotent: a second run adds nothing |
| SystemSurveys.LoadAllCounts | src/data/system_surveys.py:301-341 | on tables without those system templates, every template of a list with distinct names is inserted with all its questions |
| SystemSurveys.FirstRun | src/data/system_surveys.py:283-346 | on tables without system templates, the first run adds 4 templates and 23 questions |
| SystemSurveys.UserTemplateDoesNotBlock | src/data/system_surveys.py:303-306 | a user's own template with a built-in name does not stop the built-in one from being added |
| SystemSurveys.InsertQuestions | src/data/system_surveys.py:328-341 | the inner loop leaves exactly the tables of `AddQuestions` |
| SystemSurveys.LoadTemplate | src/data/system_surveys.py:301-341 | one pass of the outer loop leaves exactly the tables of `LoadOne` |
| SystemSurveys.LoadTemplates | src/data/system_surveys.py:301-341 | the outer loop leaves exactly the tables of loading each template in turn |
| SystemSurveys.LoadSystemSurveys | src/data/system_surveys.py:283-346 | the seeding leaves exactly the tables of loading the four built-in templates in turn |
| SurveyHandlers.ScanChoicesMeaning | src/handlers/survey_handlers.py:299-303 | the loop over the tokens read by `int()` accepts exactly when every token is an option number in 1..n; otherwise it stops at the first token that is not an integer or the first number out of range, and all tokens before it were in range |
| SurveyHandlers.ChoiceTokens | src/handlers/survey_handlers.py:298 | one stripped token per comma-separated piece, in order |
| SurveyHandlers.ValidateAnswer | src/handlers/survey_handlers.py:252-321 | an answer to a question of an unknown type is accepted; a configuration that fails to decode escapes only from a choice question |
| SurveyHandlers.NumericAnswer | src/handlers/survey_handlers.py:261-273 | a numeric or scale answer is valid exactly when it reads as a number within the configured bounds, 0 to 100 when there is no configuration |
| SurveyHandlers.IntegerAnswer | src/handlers/survey_handlers.py:263-271 | a written integer is accepted exactly when it lies within the bounds |
| SurveyHandlers.ScaleIsNumeric | src/handlers/survey_handlers.py:315-317 | a scale question is checked exactly as a numeric one |
| SurveyHandlers.YesNoAnswer | src/handlers/survey_handlers.py:275-279 | a yes/no answer is valid exactly when its lower-cased, stripped form is да, нет, yes or no; case does not matter |
| SurveyHandlers.TextAnswer | src/handlers/survey_handlers.py:310-313 | a text answer is valid exactly when something other than whitespace remains |
| SurveyHandlers.ChoiceWithoutOptions | src/handlers/survey_handlers.py:289-293 | without options every choice answer is valid |
| SurveyHandlers.ChoiceByNumbers | src/handlers/survey_handlers.py:296-303 | with options, an answer whose tokens are all option numbers is valid, and one with a number out of range before any non-integer token is refused |
| SurveyHandlers.ChoiceByText | src/handlers/survey_handlers.py:304-308 | once a token is not an integer, the answer is valid exactly when the whole text is one of the options |
| SurveyHandlers.ClockAccepted | src/handlers/survey_handlers.py:281-286 | every hour 0-23 with a minute 00-59 passes, the hour written with one or two digits |
| SurveyHandlers.ClockRead | src/handlers/survey_handlers.py:284 | a passing time is an hour below 24 of one or two digits, a colon and a two-digit minute below 60 |
| SurveyHandlers.ClockLaxerThanStrict | src/handlers/survey_handlers.py:284 | every time the strict `HH:MM` check accepts passes here, and "0:00" passes here only |
| SurveyHandlers.ClockRejects | src/handlers/survey_handlers.py:284 | "25:00", "14:60" and "14-30" are refused; "0:00" and "23:59" pass |
| SurveyHandlers.SurveySession.constructor | src/handlers/survey_handlers.py:70-131 | a fill session starts at the first question with no answers, and only for a template that has questions |
| SurveyHandlers.SurveySession.HandleAnswer | src/handlers/survey_handlers.py:192-249 | '/skip' stores nothing: it is refused on a required question and moves past an optional one; an invalid answer changes nothing; a valid one is stored under the question id and moves on; the next question is asked, or the survey completes exactly when the last question is passed; every stored answer belongs to a passed question |
| SurveyQuestions.ReceiveQuestionText | src/handlers/survey_questions.py:155-190 | the question text, stripped, is kept exactly when it has 10 to 500 characters; then a numeric, choice or scale question asks for its configuration and any other type is saved without one |
| SurveyQuestions.NonBlank | src/handlers/survey_questions.py:331 | keeping the stripped non-blank lines never adds lines |
| SurveyQuestions.NonBlankStripped | src/handlers/survey_questions.py:331 | every kept line is non-blank and already stripped |
| SurveyQuestions.ParseNumeric | src/handlers/survey_questions.py:317-328 | a numeric configuration that is accepted has its minimum below its maximum |
| SurveyQuestions.ParseChoice | src/handlers/survey_questions.py:330-347 | an accepted choice configuration takes its options from the lines after the first, in order |
| SurveyQuestions.ParseScale | src/handlers/survey_questions.py:349-367 | an accepted scale configuration has minimum below maximum and a positive step no larger than the range |
| SurveyQuestions.ParseConfig | src/handlers/survey_questions.py:309-372 | only numeric, choice and scale questions get a configuration, and any other type gets the unknown-type error; each accepted configuration is of its type and satisfies its bounds |
| SurveyQuestions.NumericConfigIff | src/handlers/survey_questions.py:317-328 | a numeric configuration is accepted exactly when it is two numbers with the first below the second, and those are its bounds |
| SurveyQuestions.NumericConfigOfInts | src/handlers/survey_questions.py:317-328 | two integers written with a space between them, the first smaller, give exactly that range |
| SurveyQuestions.ScaleConfigIff | src/handlers/survey_questions.py:349-367 | a scale configuration is accepted exactly when it is three numbers with min < max and 0 < step <= max - min |
| SurveyQuestions.ChoiceConfigIff | src/handlers/survey_questions.py:330-347 | a choice configuration is accepted exactly when its first non-blank line is 'single' or 'multiple' in any case and 2 to 10 non-blank lines follow; the options are those lines, stripped, in order |
| SurveyQuestions.NonNumberToken | src/handlers/survey_questions.py:318-324 | when the count of tokens is right, a token that is not a number gives the format error |
| SurveyAnalytics.ScanArgs | src/handlers/survey_analytics.py:40-50 | the scan takes name words only from the arguments, never more of them than there are arguments |
| SurveyAnalytics.ParseSurveyArgs | src/handlers/survey_analytics.py:26-55 | no arguments give no name and no options; otherwise the name is the space-join of the words not consumed by `--period`, `None` when there are none, and the period is the last integer given after `--period`, 30 by default |
| SurveyAnalytics.ScanWithoutFlag | src/handlers/survey_analytics.py:40-50 | without a `--period` flag every argument is part of the name and no period is set |
| SurveyAnalytics.LaterPeriodWins | src/handlers/survey_analytics.py:42-45 | a final `--period N` with an integer N sets the period to N whatever came before |
| SurveyAnalytics.NonIntegerJoinsName | src/handlers/survey_analytics.py:46-47 | after `--period`, a non-integer consumes only the flag and then joins the name |
| SurveyAnalytics.IntegerIsConsumed | src/handlers/survey_analytics.py:43-45 | an integer after `--period` is consumed with the flag and is not part of the name |
| SurveyAnalytics.CountAnswered | src/handlers/survey_analytics.py:153 | the number of responses answering the question is at most the number of responses |
| SurveyAnalytics.AnalyzeYesNo | src/handlers/survey_analytics.py:172-198 | yes counts the answers that are да, yes or y and no those that are нет, no or n, in any case; other answers are ignored and the count is the sum |
| SurveyAnalytics.YesNoBound | src/handlers/survey_analytics.py:181-190 | no answer is both yes and no, so the two tallies together never exceed the answering responses |
| SurveyAnalytics.CountYesIsFilter | src/handlers/survey_analytics.py:181-186 | the yes tally is the number of responses a filter for a yes answer keeps |
| SurveyAnalytics.ChoicesOf | src/handlers/survey_analytics.py:140-146 | every answer gives at least one choice |
| SurveyAnalytics.ChoicesOfIsSplit | src/handlers/survey_analytics.py:142-146 | both branches are one rule: split on commas and strip each piece |
| SurveyAnalytics.NoChoicesIffUnanswered | src/handlers/survey_analytics.py:148-149 | there are no choices exactly when no response answers the question |
| SurveyAnalytics.AnalyzeChoice | src/handlers/survey_analytics.py:129-169 | no choices give `{'count': 0}`; otherwise the count of answering responses, the number of choices and the choices by descending frequency |
| SurveyAnalytics.Last | src/handlers/survey_analytics.py:211-216 | the index found satisfies the predicate and no later element does; none is found exactly when no element does |
| SurveyAnalytics.DetectCbt | src/handlers/survey_analytics.py:201-221 | the ids of the last 'before' question and the last 'after' question, present only when both exist; a question matching both counts as 'before' only |
| SurveyAnalytics.DetectAddiction | src/handlers/survey_analytics.py:262-282 | `None` exactly when no question mentions a craving; otherwise the id of the last craving question and that of the last relapse question, if any |
| ImpressionAnalytics.Width | src/handlers/impression_analytics.py:71-95 | the scan advances by one or two positions and never past the end; two exactly for a value flag with an argument after it |
| ImpressionAnalytics.ParseAnalyticsArgs | src/handlers/impression_analytics.py:49-97 | the loop's result is the defaults (7 days, no dates, no category, not detailed) updated by every argument the scan reaches, in order |
| ImpressionAnalytics.UnknownSkipped | src/handlers/impression_analytics.py:94-95 | arguments none of which is a flag leave the options unchanged |
| ImpressionAnalytics.ReachesWithoutValueFlags | src/handlers/impression_analytics.py:68-95 | without flags that take a value, the scan visits every position |
| ImpressionAnalytics.LastCategoryWins | src/handlers/impression_analytics.py:86-88 | a final `--category v` the scan reaches sets the category to v whatever came before |
| ImpressionAnalytics.LastFromWins | src/handlers/impression_analytics.py:78-80 | a final `--from v` the scan reaches sets the start date to v |
| ImpressionAnalytics.LastToWins | src/handlers/impression_analytics.py:82-84 | a final `--to v` the scan reaches sets the end date to v |
| ImpressionAnalytics.LastPeriodWins | src/handlers/impression_analytics.py:71-74 | a final `--period N` with an integer N the scan reaches sets the period to N |
| ImpressionAnalytics.LastPeriodValueWins | src/handlers/impression_analytics.py:71-74 | the same for any final argument that `int()` reads: the period is the value read |
| ImpressionAnalytics.NonIntegerPeriodSkipsFlag | src/handlers/impression_analytics.py:75-76 | a non-integer after `--period` consumes only the flag and the scan goes on at the value |
| ImpressionAnalytics.FlagTakenAsValue | src/handlers/impression_analytics.py:78-95 | in `--from --category x` the start date becomes the text `--category`, no category is set, and x only matters when it is `--detailed` |
| ImpressionAnalytics.GroupKey | src/handlers/impression_analytics.py:143 | a missing category and an explicit 'neutral' fall into the 'neutral' group; a stored NULL is a group of its own |
| ImpressionAnalytics.AverageBounds | src/handlers/impression_analytics.py:151-155 | the average of the intensities lies between any bounds on them |
| ImpressionAnalytics.GroupsMeaning | src/handlers/impression_analytics.py:142-148 | the groups hold exactly the keys that occur, each with its count and its non-None intensities in order |
| ImpressionAnalytics.CategoryStats | src/handlers/impression_analytics.py:138-157 | one group per category key that occurs, holding its number of impressions, its non-None intensities in order and their average, 0 when there are none |
| ImpressionAnalytics.GroupCountIsMultiplicity | src/handlers/impression_analytics.py:144 | a group's count is how many times its key occurs among the impressions |
| ImpressionAnalytics.CategoryCountsAddUp | src/handlers/impression_analytics.py:142-144 | the group counts are the `Counter` of the keys and add up to the number of impressions |
| ImpressionAnalytics.TagFrequency | src/handlers/impression_analytics.py:160-170 | the result is the first ten of the tags by descending frequency |
| ImpressionAnalytics.TagFrequencyShape | src/handlers/impression_analytics.py:169-170 | at most ten pairs, counts not increasing, each tag occurring among the impressions' tags exactly its count times |
| ImpressionAnalytics.PeriodsPartition | src/handlers/impression_analytics.py:20-25 | the four periods partition the day: an hour lies in a period exactly when it is that hour's bucket |
| ImpressionAnalytics.PeriodOfHour | src/handlers/impression_analytics.py:182-184 | an hour of the day falls in exactly its bucket; any other hour in none |
| ImpressionAnalytics.HourOf | src/handlers/impression_analytics.py:178-180 | a parsed timestamp's hour is an hour of the day |
| ImpressionAnalytics.TimeOfDayDistribution | src/handlers/impression_analytics.py:173-189 | all four periods are present, each counting the impressions whose timestamp hour falls in it |
| ImpressionAnalytics.AddHour | src/handlers/impression_analytics.py:182-184 | the loop body adds one to the hour's own period only |
| ImpressionAnalytics.CountStep | src/handlers/impression_analytics.py:177-187 | one more impression adds one to its own period and leaves the other three alone |
| ImpressionAnalytics.DistributionAddsUp | src/handlers/impression_analytics.py:173-189 | the four counts add up to the number of impressions with a parseable timestamp |
| ImpressionAnalytics.ByCreatedAtOrder | src/handlers/impression_analytics.py:213-216 | ordering by `created_at` is a total preorder |
| ImpressionAnalytics.Chronological | src/handlers/impression_analytics.py:213-216 | the sorted list is ordered by `created_at` and is a permutation of the impressions |
| ImpressionAnalytics.IntensityTrend | src/handlers/impression_analytics.py:207-225 | the trend is the non-None intensities of the impressions taken in ascending `created_at` order |
| ImpressionAnalytics.ReadingsSorted | src/handlers/impression_analytics.py:219-223 | the readings of a chronological list are in ascending `created_at` order |
| ImpressionAnalytics.ReadingsPermutation | src/handlers/impression_analytics.py:219-223 | reordering the impressions only reorders their readings |
| ImpressionAnalytics.TrendIsChronological | src/handlers/impression_analytics.py:207-225 | the trend holds every intensity of the input exactly once, ordered by `created_at` |
| ExportHandlers.Width | src/handlers/export_handlers.py:49-62 | the loop advances by one or two positions and never past the end; two exactly for a value flag with an argument after it |
| ExportHandlers.ParseExportArgs | src/handlers/export_handlers.py:28-64 | the loop's result is the defaults (csv, no dates, no survey name) updated by every argument it reaches, in order; no arguments leave the defaults |
| ExportHandlers.NameIsBareArgument | src/handlers/export_handlers.py:58-61 | the survey name is unset or one of the arguments that does not start with `--` |
| ExportHandlers.FormatIsLowered | src/handlers/export_handlers.py:49-51 | the format is 'csv' or the lower-cased form of one of the arguments |
| ExportHandlers.LastBareWordWins | src/handlers/export_handlers.py:58-61 | a final bare word the loop reaches is the survey name, whatever bare words came before it |
| ExportHandlers.LastFormatWins | src/handlers/export_handlers.py:49-51 | a final `--format v` the loop reaches sets the format to v in lower case |
| ExportHandlers.LastFromWins | src/handlers/export_handlers.py:52-54 | a final `--from v` the loop reaches sets the start date to v |
| ExportHandlers.LastToWins | src/handlers/export_handlers.py:55-57 | a final `--to v` the loop reaches sets the end date to v |
| ExportHandlers.LoneFlagSkipped | src/handlers/export_handlers.py:58-62 | a flag without a value after it, or an unknown flag, is skipped on its own |
| ExportHandlers.FlagsOnlyNoName | src/handlers/export_handlers.py:58-61 | arguments that all start with `--` leave the survey name unset |
| ExportHandlers.FlagTakenAsValue | src/handlers/export_handlers.py:55-57 | a value flag takes the argument after it even when that is another flag |
| ExportHandlers.CheckFormat | src/handlers/export_handlers.py:82 | a format is accepted exactly when it is 'csv' or 'json' |
| ExportHandlers.ExportImpressionsRequest | src/handlers/export_handlers.py:79-94 | `/export_impressions` is refused exactly for a format other than csv and json; otherwise the export carries that format and the given dates |
| ExportHandlers.ExportSurveysRequest | src/handlers/export_handlers.py:154-177 | `/export_surveys` is refused first for a missing or empty survey name, then for a format other than csv and json; otherwise the export carries that name, format and dates |
| ExportHandlers.SurveysNeedABareWord | src/handlers/export_handlers.py:154-157 | `/export_surveys` with only flags is always refused for the missing name |
| ExportHandlers.UpperCaseFormatAccepted | src/handlers/export_handlers.py:49-50 | any upper- or lower-case spelling of `--format json` is accepted as json |
| SurveyNotificationHandlers.ValidateTimeFormat | src/handlers/survey_notification_handlers.py:26-37 | a time passes exactly when it is a one- or two-digit hour 0-23, a colon and a minute 00-59, optionally followed by one newline, which Python's `$` lets through |
| SurveyNotificationHandlers.ValidateLaxerThanStrict | src/handlers/survey_notification_handlers.py:36 | every time the strict `HH:MM` check accepts passes, and "9:30" passes only here |
| SurveyNotificationHandlers.ValidTimeConverts | src/handlers/survey_notification_handlers.py:140-170 | a passing time without a trailing newline reads as an hour below 24 and a minute below 60, so storing it never raises ValueError |
| SurveyNotificationHandlers.SetReminderArgs | src/handlers/survey_notification_handlers.py:124-145 | fewer than two arguments are refused, then a last argument that is not a time; otherwise the time is the last argument and the name the others joined by spaces |
| SurveyNotificationHandlers.RemoveReminderArgs | src/handlers/survey_notification_handlers.py:205-215 | refused exactly when there are no arguments |
| SurveyNotificationHandlers.SetReminderArgsOfMessage | src/handlers/survey_notification_handlers.py:134-137 | a message of name words followed by a valid time gives back the name, single-spaced, and the time |
| SurveyNotificationHandlers.RemoveReminderArgsOfMessage | src/handlers/survey_notification_handlers.py:214-215 | the remove command's name is the whole message after the command, single-spaced |
| SurveyNotificationHandlers.SetAndRemoveAgreeOnName | src/handlers/survey_notification_handlers.py:137-215 | the set command's name is the name the remove command takes from the same words without the time |
| SurveyNotificationHandlers.UserTimezone | src/handlers/survey_notification_handlers.py:40-54 | the offset of the chat's first user row, 0 when there is no row or the offset is NULL |
| SurveyNotificationHandlers.SetReminderCommand | src/handlers/survey_notification_handlers.py:113-192 | bad arguments are refused before any database call; an unknown survey name is reported; a reminder reported as set leaves the whole database as `set_survey_reminder` does: the named template's row upserted, switched on at the time converted to UTC with the user's offset, its favourite flag kept, every other row and table unchanged; any other reply leaves the database unchanged |
| SurveyNotificationHandlers.RemoveReminderCommand | src/handlers/survey_notification_handlers.py:195-249 | refused exactly when there are no arguments; an unknown survey name is reported; a reminder reported as off leaves the whole database as `remove_survey_reminder` does: the named template's existing row with only its switch turned off, every other row and table unchanged; any other reply leaves the database unchanged |
| CombinedAnalyticsHandlers.Width | src/handlers/combined_analytics_handlers.py:38-45 | the loop advances by two exactly at `--period` followed by an integer, else by one, never past the end |
| CombinedAnalyticsHandlers.ParseAnalyticsArgs | src/handlers/combined_analytics_handlers.py:23-47 | the loop's period is that of scanning all arguments from the default of 7 days |
| CombinedAnalyticsHandlers.PeriodFromValues | src/handlers/combined_analytics_handlers.py:38-45 | whatever `int()` reads, the period is the starting one or a value read right after some `--period` |
| CombinedAnalyticsHandlers.PeriodFromArgs | src/handlers/combined_analytics_handlers.py:38-45 | the period is the default or an integer that follows a `--period` in the arguments |
| CombinedAnalyticsHandlers.NoFlagDefault | src/handlers/combined_analytics_handlers.py:30-47 | without `--period` anywhere the period is 7 days |
| CombinedAnalyticsHandlers.LastPeriodWins | src/handlers/combined_analytics_handlers.py:38-41 | a final `--period N` with an integer N the loop reaches sets the period to N |
| CombinedAnalyticsHandlers.LastPeriodValueWins | src/handlers/combined_analytics_handlers.py:38-41 | the same for any final argument that `int()` reads: the period is the value read |
| CombinedAnalyticsHandlers.NonIntegerSkipsFlag | src/handlers/combined_analytics_handlers.py:42-43 | `--period` followed by a non-integer is skipped alone and the next argument is looked at on its own |
| CombinedAnalyticsHandlers.RepeatedFlag | src/handlers/combined_analytics_handlers.py:38-43 | in `--period --period N`, with N an integer's text, the first flag is skipped and the second takes N |
| CombinedAnalyticsHandlers.MoodEmoji | src/handlers/combined_analytics_handlers.py:193-202 | the beaming face exactly from 8, the smiling one from 6 below 8, the neutral one from 4 below 6, the sad one below 4 |
| CombinedAnalyticsHandlers.MoodEmojiMonotone | src/handlers/combined_analytics_handlers.py:195-202 | a better score never gets a worse face |
| CombinedAnalyticsHandlers.CombinedReply | src/handlers/combined_analytics_handlers.py:60-166 | the no-data reply exactly when impressions, surveys and entries are all zero; otherwise the mood face exactly when there is an average mood, chosen from that average, and a comparison only when there are good and bad days |
| CombinedAnalyticsHandlers.WithMood | src/handlers/combined_analytics_handlers.py:141 | only days with a mood are kept, never more than there were |
| CombinedAnalyticsHandlers.Comparison | src/handlers/combined_analytics_handlers.py:157-159 | the two averages are reported exactly when there is at least one good day and one bad day |
| CombinedAnalyticsHandlers.GoodBadComparison | src/handlers/combined_analytics_handlers.py:141-159 | the loop's result is the comparison of the days with a mood |
| CombinedAnalyticsHandlers.DaysPartition | src/handlers/combined_analytics_handlers.py:149-155 | every day with a mood is exactly one of good (7 or more), bad (4 or less) or in between |
| CombinedAnalyticsHandlers.SumsBounded | src/handlers/combined_analytics_handlers.py:149-155 | the positive impressions summed over good or bad days are at most the per-day bound times the number of days |
| CombinedAnalyticsHandlers.ComparisonBounded | src/handlers/combined_analytics_handlers.py:157-159 | each reported average lies between 0 and the largest positive count of the days |
| PatternDetection.RussianFactorName | src/analytics/pattern_detection.py:545-567 | a known factor gets its Russian name from the table; any other factor is returned unchanged |
| PatternDetection.FactorNamesDistinct | src/analytics/pattern_detection.py:555-565 | the nine known factors have nine different Russian names, none of them a factor's own name |
| PatternDetection.StrongInsightsMeaning | src/analytics/pattern_detection.py:316-344 | a correlation gets an insight exactly when it is in the list and beyond 0.6 in the list's direction; every insight carries the list's sign; never more insights than correlations |
| PatternDetection.AnalyzeCorrelationInsights | src/analytics/pattern_detection.py:299-344 | nothing unless the status is 'success'; then the insights of the strong positive correlations, in order, followed by those of the strong negative ones, in order |
| PatternDetection.CorrelationInsightsOrder | src/analytics/pattern_detection.py:311-344 | every positive insight comes before every negative one, and a correlation's insight appears exactly when the status is 'success' and the correlation is strong |
| PatternDetection.AnalyzeTrendInsights | src/analytics/pattern_detection.py:347-397 | nothing unless the status is 'success'; the weekly insight, with the lower-cased day names, exactly when the best weekday beats the worst by more than 2; an upward or downward insight exactly for that recent trend; at most two insights, weekly first |
| PatternDetection.StableTrendSilent | src/analytics/pattern_detection.py:379-396 | a 'stable' recent trend gives no recent insight |
| PatternDetection.AnalyzePatternInsights | src/analytics/pattern_detection.py:400-447 | nothing unless the status is 'success'; a weekend-better insight exactly when the weekend mood beats the weekday mood by more than 2, a weekday-better one exactly for the reverse; a cyclicality insight with its period exactly when one was detected; at most two insights, weekend first |
| PatternDetection.AtMostOneWeekendEffect | src/analytics/pattern_detection.py:421-435 | whatever the moods, at most one weekend-effect insight |
| Counting.TallyCounts | src/handlers/survey_analytics.py:152 | `Counter`: the keys are distinct, each count is the number of occurrences, and every item that occurs is a key |
| Counting.TallyTotal | src/handlers/survey_analytics.py:152 | the counts of a `Counter` add up to the number of items |
| Counting.MostCommonCounts | src/handlers/survey_analytics.py:161 | `most_common()` lists counts summing to the number of items, each the number of occurrences of its key, from the most common down |
| Counting.MostCommonEntries | src/handlers/survey_analytics.py:161 | every entry of `most_common()` is an item that occurs, with its number of occurrences |
| Sorting.SortByStable | src/handlers/impression_analytics.py:213-216 | `sorted` is stable: rows with equal keys keep their input order |
| Sorting.SortedPermutationsAgree | src/data/surveys_storage.py:129 | two orderings of the same rows by the same `ORDER BY` agree on the sort key at every position |
| Sorting.InnerJoinMembers | src/data/survey_notifications_storage.py:183 | a pair is in the join exactly when both rows are present and match |
| Sorting.FilterKeepsAll | src/handlers/combined_analytics_handlers.py:141 | a filter drops nothing exactly when every row passes |
| Strings.StripEmpty | src/handlers/survey_handlers.py:311 | `strip()` is empty exactly when the string is all whitespace |
| Strings.LowerFoldsCapitals | src/data/impressions_storage.py:249 | `lower()` folds a Ukrainian capital (Ґ) and a Latin-1 capital (É) to their small letters |
| Strings.StripIdempotent | src/data/impressions_storage.py:249 | `strip()` twice is `strip()` once |
| Strings.ParseIntOfIntToStr | src/handlers/survey_analytics.py:44 | `int(str(n)) == n` |
| Strings.ParseRealOfIntToStr | src/handlers/survey_handlers.py:263 | read as an exact real, `str(n)` is n for every integer; Python's binary64 `float` agrees only for abs(n) <= 2^53 (see "Left out") |
| Strings.WordsOfJoin | src/handlers/survey_notification_handlers.py:137 | words joined by single spaces split back into the same words |
| Strings.JoinSplit | src/handlers/survey_analytics.py:143 | joining the pieces of a split with the same separator restores the string |
| Strings.SplitJoin | src/handlers/survey_analytics.py:143 | splitting a join of separator-free pieces gives the pieces back |
| Dates.ParseIsoString | src/utils/date_helpers.py:170 | parsing the `YYYY-MM-DD` text of a valid date gives the date back |
| Dates.ParsedCanonical | src/utils/date_helpers.py:170 | a parsed date with two-digit fields is written back as the same text |
| Dates.ParseTimestampString | src/handlers/impression_analytics.py:179 | parsing the `YYYY-MM-DD HH:MM:SS` text of a valid timestamp gives it back |
| Dates.DayNumberMonotone | src/utils/date_helpers.py:49-54 | the day count respects the calendar order, both ways |

## Left out

- Encryption: `encrypt_data`/`decrypt_data` are function parameters of the storage operations; src/data/encryption.py is not part of this model, so the model says nothing about the cipher itself.
- Telegram I/O: updates, contexts, keyboards and `reply_text` calls are not modelled; each handler's outcome is a reply datatype naming which message would be sent, not its text.
- Message formatting: the `format_*` helpers that render analytics, insights and exports as text are left out, because their output is presentation only.
- sqlite3 itself: connections, cursors, commits and rollbacks are the `Database` class with one `seq` per table; any `sqlite3.Error` is the `fault` parameter, after which the state is unchanged and the operation returns its failure value.
- Foreign-key cascades of the schema (src/data/migrations) are not modelled; the code that opens the bot's connection is not part of this model, and without `PRAGMA foreign_keys = ON` on it sqlite does not cascade.
- Queries without `ORDER BY` return rows in table order in the model; sqlite leaves that order unspecified.
- Schema migrations (src/data/migrations) are not part of this model; the tables start in the shape the migrations leave them.
- The per-user and users CSV files are the `CsvStore` fields: pandas parsing, file encodings and disk errors other than a missing file are left out.
- src/data/export.py and src/data/combined_analytics_storage.py (SQL aggregation, csv/json writers) are not part of this model; the export handlers are modelled up to the request they pass on.
- Floating-point statistics are exact reals: `analyze_numeric_question`, `analyze_cbt_before_after`, `analyze_addiction_craving`, standard deviations and correlation coefficients are left out because they need `statistics`/`numpy`; averages and percentages that are modelled use exact division, so rounding is not modelled.
- `float()` accepts only finite decimal literals in the model: `inf`, `nan` and digit separators `_` are left out.
- Strings.ParseReal: reads a decimal literal as the exact real it denotes; Python's `float()` rounds it to the nearest binary64 number, and that rounding, with the rounded comparisons that follow it, is not modelled.
- Strings.ParseRealOfIntToStr: holds of the exact reading for every integer; in Python `float(str(n)) == n` fails above 2^53 (n = 2^53 + 1 reads as 2^53).
- SurveyQuestions.ParseNumeric: compares min >= max on exact reals, so '0.1 0.10000000000000000001' and '9007199254740992 9007199254740993' are accepted in the model although both pairs are equal as binary64 floats and the bot refuses them.
- SurveyQuestions.ParseScale: compares min, max and step on exact reals, so '0.1 0.3 0.2' is accepted in the model, while the bot refuses it with the step-too-large message because 0.3 - 0.1 < 0.2 in binary64.
- SurveyQuestions.ParseConfig: its numeric and scale branches inherit the exact-real comparisons of ParseNumeric and ParseScale.
- SurveyQuestions.NumericConfigIff: states acceptance for exact reals; the bot's binary64 comparison refuses some pairs it states as accepted.
- SurveyQuestions.NumericConfigOfInts: holds for the exact reading; in the bot two integers above 2^53 can round to the same float and be refused.
- SurveyQuestions.ScaleConfigIff: states step <= max - min on exact reals; the bot evaluates max - min in binary64 ('0.1 0.3 0.2' differs).
- SurveyHandlers.NumericAnswer: checks the bounds on exact reals, so with maximum 10 the answer '10.00000000000000001' is refused in the model but accepted by the bot, which reads it as 10.0.
- SurveyHandlers.IntegerAnswer: rests on the exact reading of `float(str(n))`, which Python matches only for |n| <= 2^53.
- SurveyHandlers.ValidateAnswer: its numeric and scale branches inherit the exact-real bounds check of NumericAnswer.
- `int()` accepts ASCII digits only: other Unicode decimal digits and the `_` that Python allows between digits (`int('1_0') == 10`) are left out, so an argument such as `--period 1_0` counts as a non-integer in the argument scanners (ImpressionAnalytics.ParseAnalyticsArgs, CombinedAnalyticsHandlers.ParseAnalyticsArgs, SurveyAnalytics.ParseSurveyArgs) and in the choice-number scan of SurveyHandlers.ScanChoicesMeaning.
- Pattern detection's numeric analyses (`analyze_trends`, `analyze_correlations`, `analyze_patterns`, `_analyze_general_recommendations`, `generate_insights`, `format_analytics_summary`) are left out: they are pandas/numpy statistics. The insight builders over their results are modelled.
- The clock: `get_today`, `get_yesterday`, `get_days_ago`, `parse_user_date`, `validate_manual_date`, `local_to_utc`, `format_date_for_user`, `get_date_options`, `is_survey_filled_today`, `filter_responses_by_period` and `filter_impressions_by_period` read the current time; where a modelled operation needs "now" it is a parameter, and these functions themselves are left out.
- The `created_at` column default (`CURRENT_TIMESTAMP`) is a parameter of the insert operations.
- `get_survey_statistics`, `get_entry_count_by_day` and `calculate_weekday_distribution` are left out: SQL aggregation and weekday arithmetic over the clock.
- `dump_all_conversations` only logs and is left out.
- `send_survey_notifications` (the scheduler job) is left out; the query it runs, `get_surveys_for_notification`, is modelled.
- src/multiprocessing.py and src/handlers/visualization.py are not part of this model (process pools, matplotlib).
- The dispatcher's `filters.TEXT & ~filters.COMMAND` filter is not modelled: `SurveySession.HandleAnswer` keeps the `/skip` branch as written, although that filter stops `/skip` from ever reaching it.
- Concurrency: the bot's concurrent handlers and the conversation manager's shared dictionary are modelled as sequential calls.
- Strings.Lower: folds A-Z, the Latin-1 capitals À-Þ (not ×) and the Cyrillic capitals of U+0400-U+04FF only. Other capitals (Latin Extended, Greek, Armenian, fullwidth letters and the rest) stay unchanged, and characters whose lower case is two characters (İ) or depends on the context (Greek final sigma) are not modelled.
- ImpressionsStorage.CreateTag: inherits that limit of `Lower`, so for example 'Ōsaka' and 'ōsaka' are two tags in the model but one in the bot; the same limit applies to the yes/no answers, the choice keyword and the export format.
- SurveyNotificationsStorage.UtcRoundTrip: proved for two-digit `HH:MM` times with hour below 24 and minute below 60 only, not for every string `to_utc` accepts.
- SurveyNotificationHandlers.ValidTimeConverts: proved for times without the trailing newline that `re.match` with `$` also accepts.

## Findings

| source | as written | input that shows it | evidently intended | confidence | as-written member | corrected member |
|---|---|---|---|---|---|---|
| src/data/storage.py:271-272 | `save_user` with `notification_time=None` keeps the stored reminder time: the update of an existing user writes the time only when it is not `None` | save a user with "10:00", then save the same user with `notification_time=None`: the user is still due at "10:00" | `None` clears the time; src/handlers/notifications.py:92 disables reminders by passing `None` | not executed | Storage.DisableKeepsReminder | Storage.IntendedDisableClearsReminder |
