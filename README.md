# Partizan booking core in Dafny

This project models the booking logic of the Partizan children's-club site, a Django application with a browser script. The site sells holiday programmes ("holidays", or offerings). Each offering has bookable slot records: one per date and time-slot label. Each record carries a booking counter, a limit and an availability flag.

The model covers:

- the slot record, its label table and its lookups (`models.dfy`, module `Models`);
- the store the views work on: offerings, slot records keyed by primary key, orders (`store.dfy`, module `Store`);
- booking admission (`create_full_order`), the free-slot listing (`get_available_dates`), the offering list's filters (`HolidaysView.get_queryset`) and the training sign-up (`register_training`) (`views.dfy`, module `Views`);
- the `create_holiday_dates` management command that fills the slot table (`create_holiday_dates.dfy`, module `SlotGeneration`);
- the browser script's phone mask, required-field check and reviews slider (`script.dfy`, module `Client`);
- ASCII stand-ins for the string built-ins the code relies on (`common.dfy`, module `Common`).

Code that changes state step by step is imperative Dafny. Each such method is proved against a specification function of the old state. These pairs are:

- `CreateFullOrder` against `Admit`;
- `GetAvailableDates` against `DatesListing`;
- `Handle` against `Generate` over `Worklist`;
- the slider methods against `MaxIndex` and `AutoplayNext`.

Lemmas state the properties of those functions.

The store is the class `Store.Database`. Its fields are the tables, and the views and the command reassign them. A date is its proleptic Gregorian ordinal, so the day after `d` is `d + 1`, and `Weekday` is Python's `date.weekday()`.

Four facts about the code shape the model:

- A slot record's default limit is 2 (partizan/models.py:69-72).
- The generator inserts records with limit 3 (partizan/create_holiday_dates.py:55-59).
- Capacity is the per-record booking counter. There is no hall assignment.
- On Saturday and Sunday a label opens only when its start hour is from 10 to 18, so the last weekend start is 18:00 (partizan/create_holiday_dates.py:46-48).

## Model

| member | source | states |
|---|---|---|
| Common.ParseInt | partizan/views.py:262 | `int()` on stripped text succeeds exactly on an optionally signed, non-empty run of digits; unsigned and `+` text gives its decimal value, `-` text its negation |
| Common.DecimalValueDigits | partizan/views.py:262 | appending a digit multiplies the value by ten and adds the digit, and a leading zero adds nothing |
| Common.Strip | partizan/views.py:243-246 | `strip()` gives the empty string exactly when the text is all whitespace, and otherwise starts and ends with a non-space |
| Common.ContainsOccurs | partizan/create_holiday_dates.py:24 | Python's `sub in s` holds exactly when `sub` occurs at some position of `s` |
| Common.DigitsOf | static/js/script.js:79 | `replace(/\D/g, '')` keeps only digits, never lengthens the text, and gives the empty string for text with no digit |
| Common.DigitsOfConcat | static/js/script.js:79 | removing the non-digits distributes over concatenation |
| Models.Weekday | partizan/create_holiday_dates.py:35 | `weekday()` lies in 0..6, and day 1 (0001-01-01) is a Monday |
| Models.DictGet | partizan/models.py:90-91 | `dict(pairs).get(key, default)` gives the default for a missing key, and otherwise a value paired with the key |
| Models.DictGetFindsPair | partizan/models.py:90-91 | with distinct keys, looking up a table's key gives that key's value |
| Models.TimeSlotTableShape | partizan/models.py:46-60 | `TIME_SLOTS` is the five 2-hour labels followed by the three 4-hour ones: eight entries with pairwise distinct keys |
| Models.TimeSlotDisplay | partizan/models.py:89-91 | an unknown label is shown unchanged |
| Models.TimeSlotDisplayKnown | partizan/models.py:89-91 | each known label is shown as its paired display text |
| Models.AvailableMeansRoom | partizan/models.py:86-87 | an available record has room for at least one booking; a cleared flag or a full counter makes it unavailable |
| Models.IsAvailable | partizan/models.py:86-87 | a record is bookable when its flag is set and its counter is below its limit |
| Models.NewHolidayDate | partizan/models.py:62-75 | a record built from the field defaults has label `10:00-12:00`, limit 2, no bookings and the flag set, so it is available |
| Models.PlaceIcon | partizan/models.py:145-154 | any place outside 1..5 gets the sports-medal icon |
| Models.PlaceText | partizan/models.py:156-165 | any place outside 1..5 reads "Участие" |
| Models.PlaceLookups | partizan/models.py:145-165 | both lookups are total: places 1..5 get their table entry, others get the fallback, and place 4 has the fallback's text but its own icon |
| Models.RatingErrors | partizan/models.py:173-176 | the rating validators report no error exactly for 1..5, and the one violated bound otherwise |
| Store.UniqueTogether | partizan/models.py:80 | no two slot records share the (holiday, date, time_slot) triple |
| Store.Integrity | partizan/models.py:41 | the unique triple holds, each record is stored under its own primary key below the next key and names a stored offering, and each order names a stored record and offering (the foreign keys at models.py:204-205) |
| Store.FindHoliday | partizan/views.py:176 | the offering lookup succeeds exactly for a known primary key and returns the row with that key |
| Store.LedgerWithinLimits | partizan/views.py:196-198 | under the ledger invariants a record never holds more orders than its limit, and a record holding exactly its limit is unavailable |
| Views.Booked | partizan/views.py:196-198 | one more booking raises the counter by exactly one, changes nothing else but the flag, and closes the record exactly when it was closed or the counter reaches the limit |
| Views.Admit | partizan/views.py:160-226 | admission never changes the offerings, the next primary key or the set of slot records |
| Views.AdmitAcceptsExactly | partizan/views.py:170-209 | a request is accepted exactly when it is a POST with a valid form, both ids given and known, and the record available |
| Views.AdmitNeverTakesLimitBranch | partizan/views.py:180-188 | the "limit exceeded" answer is never given, because an available record is below its limit |
| Views.AdmitRejectionChangesNothing | partizan/views.py:170-221 | every rejection, whether missing ids, an unknown id, an unavailable record, an invalid form or not a POST, leaves the store unchanged |
| Views.AdmitAcceptedEffect | partizan/views.py:191-199 | an acceptance appends exactly one order linked to the given holiday and record, books that record once, and changes nothing else |
| Views.AdmitKeepsIntegrity | partizan/views.py:191-199 | admission keeps `unique_together`, the primary keys and every foreign key valid |
| Views.AdmitKeepsLedger | partizan/views.py:191-199 | admission keeps counters within limits, full records closed, and each counter equal to the orders booked against it |
| Views.AdmitAll | partizan/views.py:160-226 | a sequence of requests never changes the offerings or the set of records |
| Views.AdmitAllWithinLimits | partizan/views.py:196-198 | however many requests arrive, no record ever holds more orders than its limit |
| Views.AdmitKeepsBounded | partizan/views.py:180 | with no assumption about orders or flags, admission keeps every counter at or below its limit |
| Views.AdmitAllBounded | partizan/views.py:180 | however many requests arrive, a counter that started at or below its limit never passes it, even after counters were edited by hand or orders deleted |
| Views.SlotHolidayNotChecked | partizan/views.py:176-177 | a request is accepted even when the record belongs to a different offering than the one named |
| Views.CreateFullOrder | partizan/views.py:160-226 | the view's answer and the store afterwards are those `Admit` gives, and the store's integrity is kept |
| Views.Listed | partizan/views.py:117-126 | a record reaches the answer when it belongs to the holiday, its flag is set, its date is today or later, and `is_available()` holds |
| Views.SeenDates | partizan/views.py:124-129 | the dictionary's keys are exactly the dates of the listed rows, each once |
| Views.EntriesOn | partizan/views.py:125-135 | a date's slots are exactly the listed rows of that date, each with at least one free place |
| Views.DatesListing | partizan/views.py:138-143 | the answer has one entry per seen date, in first-seen order |
| Views.SeenDatesGrowAtEnd | partizan/views.py:124-129 | a date's position is fixed when its first listed row is read; later rows never reorder the dates |
| Views.ListingFacts | partizan/views.py:117-143 | the answer's dates are distinct, every reported slot is a listed row of its date with room left, and every listed row is reported under its date |
| Views.ListingDatesAscending | partizan/views.py:117-121 | with the query ordered by date, the answer's dates are strictly increasing |
| Views.GroupByDate | partizan/views.py:124-135 | the grouping loop builds exactly the dictionary `SeenDates`/`EntriesOn` describe, with its insertion order |
| Views.DictItems | partizan/views.py:138-143 | the answer loop emits one entry per key in insertion order, carrying that key's slots |
| Views.GetAvailableDates | partizan/views.py:112-145 | an unknown holiday is a 404, and otherwise the answer is `DatesListing` of the rows |
| Views.Where | partizan/views.py:37 | `filter` keeps exactly the rows the condition accepts |
| Views.FindCategory | partizan/views.py:42 | the category lookup succeeds exactly when some category has the slug |
| Views.AgeParam | partizan/views.py:46-48 | only a non-empty run of digits is taken as an age |
| Views.HolidaysQuery | partizan/views.py:36-51 | the list is a 404 exactly when a non-empty slug names no category |
| Views.HolidaysQueryByAge | partizan/views.py:46-49 | a digit-only age keeps exactly the active offerings with `min_age <= age <= max_age`; any other age filters nothing |
| Views.HolidaysQueryByCategory | partizan/views.py:40-43 | a known slug keeps exactly the active offerings of that category that pass the age filter |
| Views.PostGet | partizan/views.py:243-248 | a missing POST field reads as its default |
| Views.ReadTrainingFields | partizan/views.py:243-247 | the parent's name, phone, child's name and age are stripped; the age group is not |
| Views.AllFilled | partizan/views.py:251 | `all([...])` over the five fields: every one is non-empty |
| Views.CheckTraining | partizan/views.py:251-265 | the request is refused exactly when a required field is empty; it is saved exactly when none is and the age parses; a saved row has non-empty text fields |
| Views.RegisterTraining | partizan/views.py:238-281 | the same refusal condition on the POST data, and a saved row's visit type is the one sent, `trial` by default |
| Views.RegisterTrainingSaved | partizan/views.py:258-265 | a saved registration carries exactly the fields as read, with the parsed age |
| Views.BlankAgeGroupAccepted | partizan/views.py:247-251 | an age group of one blank passes the check and is saved, although stripping it would leave nothing |
| SlotGeneration.IsFourHours | partizan/create_holiday_dates.py:24 | an offering takes the four-hour label list when its duration text contains `4 часа`, `4.5 часа` or `5 часов` |
| SlotGeneration.StartHour | partizan/create_holiday_dates.py:39 | `int(time_slot.split(':')[0])`, defined on labels whose hour field parses |
| SlotGeneration.InBusinessHours | partizan/create_holiday_dates.py:41-48 | Monday to Friday a label opens when its start hour is from 9 to 20; Saturday and Sunday when it is from 10 to 18 |
| SlotGeneration.HourField | partizan/create_holiday_dates.py:39 | `split(':')[0]` is the longest colon-free prefix of the label |
| SlotGeneration.TwoDigitStartHour | partizan/create_holiday_dates.py:39 | a label opening with two digits and a colon parses to the hour those digits spell |
| SlotGeneration.TwoHourStartHours | partizan/create_holiday_dates.py:30 | the 2-hour labels start at 10, 12, 14, 16 and 18 |
| SlotGeneration.FourHourStartHours | partizan/create_holiday_dates.py:28 | the 4-hour labels start at 10, 14 and 18 |
| SlotGeneration.LabelsStartFrom10To18 | partizan/create_holiday_dates.py:27-30 | every label of either list parses to a start hour between 10 and 18 |
| SlotGeneration.GeneratedLabelsAreChoices | partizan/create_holiday_dates.py:27-30 | every generated label is a key of the `time_slot` choice table |
| SlotGeneration.EveryLabelOpens | partizan/create_holiday_dates.py:41-48 | no label is ever skipped on any weekday, and the label ending at 22:00 is generated exactly for the 4-hour list |
| SlotGeneration.LabelHours | partizan/create_holiday_dates.py:39 | one start hour per label, each between 10 and 18 |
| SlotGeneration.LabelHoursAreStartHours | partizan/create_holiday_dates.py:39 | the start-hour table agrees with `int(label.split(':')[0])` on every label |
| SlotGeneration.ActiveHolidays | partizan/create_holiday_dates.py:18 | the loop visits exactly the active offerings |
| SlotGeneration.DayWorkMembers | partizan/create_holiday_dates.py:37-48 | on one date, the label loop asks for exactly the labels whose start hour is within business hours |
| SlotGeneration.DaysWorkMembers | partizan/create_holiday_dates.py:32-64 | the date loop asks for every label on each of the dates visited |
| SlotGeneration.HolidaysWorkMembers | partizan/create_holiday_dates.py:21-64 | the offering loop asks for a key exactly when it names a visited offering, a visited date and a label of that offering's list |
| SlotGeneration.DayCount | partizan/create_holiday_dates.py:16-33 | `while current_date <= end_date` runs `days + 1` times, and never for a negative count |
| SlotGeneration.Worklist | partizan/create_holiday_dates.py:13-64 | the slot keys one run asks `get_or_create` for, offering by offering, date by date, label by label |
| SlotGeneration.WorklistMembers | partizan/create_holiday_dates.py:13-64 | a run asks exactly for the keys of an active offering, a date from today to today + days inclusive, and a label of the list its duration selects |
| SlotGeneration.FreshSlot | partizan/create_holiday_dates.py:55-59 | an inserted record has the requested key, limit 3, no bookings and the available flag |
| SlotGeneration.GetOrCreate | partizan/create_holiday_dates.py:51-60 | get-or-create changes only the slot table and the next key, moving the key by one exactly when it inserts, and changes nothing when it finds a record |
| SlotGeneration.GetOrCreateFinds | partizan/create_holiday_dates.py:51-62 | a record is inserted exactly when none has the key, and afterwards one has it |
| SlotGeneration.GetOrCreateFrame | partizan/create_holiday_dates.py:51-60 | an existing record is never modified; the only new record is a fresh one under the next primary key |
| SlotGeneration.Generate | partizan/create_holiday_dates.py:13-64 | a run never touches offerings or orders, and inserts at most one record per key asked for |
| SlotGeneration.GenerateFrame | partizan/create_holiday_dates.py:51-62 | existing records keep their counters and flags; each inserted record is fresh, with the command's defaults and a requested key; the count of inserted records is how far the next key moved |
| SlotGeneration.GenerateCovers | partizan/create_holiday_dates.py:51-60 | after a run every requested key has a record |
| SlotGeneration.GenerateNoop | partizan/create_holiday_dates.py:51-60 | when every requested key already has a record, a run changes nothing |
| SlotGeneration.RunTwice | partizan/create_holiday_dates.py:13-64 | running the command again with the same inputs inserts nothing and changes nothing |
| SlotGeneration.GetOrCreateKeepsIntegrity | partizan/create_holiday_dates.py:51-60 | get-or-create keeps `unique_together`, the primary keys and the foreign keys valid |
| SlotGeneration.GenerateKeepsIntegrity | partizan/create_holiday_dates.py:51-60 | a run keeps the store's integrity |
| SlotGeneration.GenerateKeepsLedger | partizan/create_holiday_dates.py:55-59 | a run keeps the booking ledger, since new records start at zero bookings |
| SlotGeneration.WorklistHolidaysKnown | partizan/create_holiday_dates.py:18-21 | every key a run asks for names an offering of the store |
| SlotGeneration.GetOrCreateSlot | partizan/create_holiday_dates.py:51-62 | the store update and the `created` flag are those of `GetOrCreate` |
| SlotGeneration.RunDayIsGenerate | partizan/create_holiday_dates.py:37-62 | running the label loop label by label is asking for the day's keys in order |
| SlotGeneration.RunDaysIsGenerate | partizan/create_holiday_dates.py:32-64 | running the date loop date by date is asking for all those dates' keys in order |
| SlotGeneration.RunHolidaysIsGenerate | partizan/create_holiday_dates.py:21-64 | running the offering loop is asking for the whole work list in order |
| SlotGeneration.ParseStartHour | partizan/create_holiday_dates.py:39 | parsing a label of the list gives that label's start hour |
| SlotGeneration.CreateLabelSlot | partizan/create_holiday_dates.py:37-62 | one turn of the label loop performs one step of `RunDay`, and counts an insert exactly when the next key moves |
| SlotGeneration.CreateDaySlots | partizan/create_holiday_dates.py:37-62 | the label loop performs `RunDay`, and its count is the number of inserts |
| SlotGeneration.CreateHolidaySlots | partizan/create_holiday_dates.py:32-64 | the date loop visits every date from today to the end date inclusive, and its count is the number of inserts |
| SlotGeneration.Handle | partizan/create_holiday_dates.py:13-64 | the store afterwards is the run over the work list; integrity is kept; `created_count` is the number of records inserted |
| SlotGeneration.HandleOutcome | partizan/create_holiday_dates.py:13-64 | the offering loop equals the run over the work list, keeps integrity, and grows the table by exactly the inserts |
| Client.NationalDigits | static/js/script.js:81-83 | one leading `7` or `8` is dropped, and nothing else changes |
| Client.FormatPhone | static/js/script.js:85-89 | the mask's output starts with `+7 ` |
| Client.PhoneMask | static/js/script.js:79-91 | a value with no digit is left unchanged, and otherwise the output starts with `+7 ` |
| Client.FormatPhoneDigits | static/js/script.js:85-89 | the output's digits are a 7 followed by the first ten national digits, in order |
| Client.FormatPhoneLength | static/js/script.js:85-89 | the output's length is the prefix, the digits kept and one separator per group reached |
| Client.PhoneMaskDigits | static/js/script.js:79-91 | from any value, the output carries the country code and at most ten national digits: the first ten typed after the trunk digit |
| Client.FullNumberLayout | static/js/script.js:85-89 | a number with ten or more national digits is laid out as `+7 (ddd) ddd-dd-dd` |
| Client.FormatPhoneTake | static/js/script.js:86-89 | only the first ten national digits reach the output |
| Client.PhoneMaskIdempotent | static/js/script.js:79-91 | masking an already masked value changes nothing |
| Client.Blank | static/js/script.js:60 | a value `trim()` turns into the empty string: nothing but whitespace |
| Client.FormValid | static/js/script.js:57-66 | a form passes exactly when none of its required fields is blank |
| Client.CheckRequired | static/js/script.js:56-66 | the form passes exactly when no required field is blank, and exactly the blank fields are marked |
| Client.SlidesPerView | static/js/script.js:108-112 | 1 per view up to 768 px, 3 above 992 px, 2 in between |
| Client.SlidesPerViewMonotone | static/js/script.js:108-112 | a wider window never shows fewer reviews at once |
| Client.MaxIndex | static/js/script.js:106 | the bound is never negative, leaves a full page at the end when there are enough reviews, and is 0 otherwise |
| Client.AutoplayNext | static/js/script.js:195-199 | one autoplay tick: advance below the bound, otherwise go back to the first review |
| Client.AutoplayAdvances | static/js/script.js:194-199 | below the bound, each autoplay tick moves on by exactly one |
| Client.AutoplayPeriod | static/js/script.js:193-202 | from any valid index, autoplay reaches the bound, wraps to 0, and returns to the start after bound + 1 ticks |
| Client.ReviewSlider.constructor | static/js/script.js:102-106 | the slider starts at index 0, with the per-view count of the load-time width and its bound |
| Client.ReviewSlider.Prev | static/js/script.js:126-131 | the previous button lowers the index by one unless it is 0, and keeps it in [0, bound] |
| Client.ReviewSlider.Next | static/js/script.js:135-140 | the next button raises the index by one unless it is at the bound, and keeps it in [0, bound] |
| Client.ReviewSlider.TouchStart | static/js/script.js:163-165 | records where the touch began |
| Client.ReviewSlider.TouchEnd | static/js/script.js:167-170 | records where the touch ended and applies the swipe rule |
| Client.ReviewSlider.HandleSwipe | static/js/script.js:172-185 | a move of more than 50 px leftwards advances, one rightwards goes back, and the index stays in [0, bound] |
| Client.ReviewSlider.OnResize | static/js/script.js:144-157 | as written: the per-view count follows the width, the index is clamped to the new bound, but the bound the handlers check is left at its load-time value |
| Client.ReviewSlider.OnResizeSynced | static/js/script.js:144-157 | with the bound recomputed too, the index stays within the last full page for the current width |
| Client.ReviewSlider.AutoplayTick | static/js/script.js:193-201 | when not hovered and there are more reviews than fit, the index advances or wraps to 0 at the bound; otherwise it does not move |
| Client.ReviewSlider.MouseEnter | static/js/script.js:215-218 | hovering sets the flag that pauses autoplay |
| Client.ReviewSlider.MouseLeave | static/js/script.js:220-223 | leaving clears the flag |
| Client.StaleMaxIndexWitness | static/js/script.js:106 | five reviews loaded at 700 px, the window widened to 1200 px, three clicks on next: the index passes the last full page |
| Client.SyncedResizeRun | static/js/script.js:144-157 | the same run with the synchronised resize stops at the last full page |

## Left out

- Django's ORM, HTTP requests and JSON responses are not modelled. The store is the `Database` class, a request is a datatype, and each answer is a constructor of an outcome datatype.
- The read-then-write race in `create_full_order` is left out; admission is modelled sequentially.
- A failing `get_object_or_404` and every exception the catch-all `except` handles become one failure outcome. The logging `print` calls are left out.
- The form classes' own validation (`FullOrderForm.is_valid`) is an input: the request carries the validated form or none.
- `date.today()` is a parameter, and `--days` is the `days` parameter.
- `strftime('%d.%m.%Y')` is assumed one-to-one, so the listing groups by the date itself rather than by its text.
- `Common.Strip`: one predicate, `IsSpace`, stands for both Python's `strip()` (partizan/views.py:243-246) and JavaScript's `trim()` (static/js/script.js:60). It holds for the six ASCII whitespace characters that both remove. Python's `strip()` also removes the separators `\x1c` to `\x1f`, which `trim()` keeps. So a POST field holding only `\x1c` is refused by `register_training` but passes in the model. Both built-ins also remove non-ASCII spaces such as U+00A0, and the model does not.
- `Common.ParseInt`: it accepts ASCII digits only. Python's `int()` also accepts other Unicode digits, underscores between digits, and surrounding whitespace; the callers strip the text first.
- `Views.AgeParam`: `str.isdigit()` (partizan/views.py:47) is modelled on ASCII digits only. The source also accepts other Unicode digits. For `٣` it filters by age 3. For `²`, `int()` raises and the page fails with HTTP 500. The model leaves the list unfiltered in both cases.
- `Views.GetAvailableDates`: the query's result is a parameter, `rows`. It stands for the offering's records with the flag set and a date of today or later, ordered by (date, time_slot) (partizan/views.py:117-121). The model re-applies the filter but does not derive the rows from the store or check their order. A date's entries keep the order the rows are given in, so the answer matches the source only when the caller passes the query's sorted result.
- `Views.HolidaysQuery`: category rows are found by slug alone, and the `selected_age` context value and the category list of `get_context_data` are left out (template data).
- `Views.CheckTraining`: the age is an unbounded integer. `child_age` is an integer column, and the database rejects a value outside its range, for example a 20-digit age. `objects.create` then raises, and the `except` at partizan/views.py:274 answers with a failure. The model saves such a registration instead.
- `Views.RegisterTraining`: the database's `max_length` limits on text fields are not enforced by `objects.create` on every backend and are left out, as is the creation timestamp.
- `HolidayDetailView.get_context_data` (partizan/views.py:70-110) is left out. It repeats the grouping of `get_available_dates` with display fields added.
- The other views (`HomeView`, `AchievementsView`, `create_quick_order`, `create_review`) only query or save rows, and are left out.
- `SlotGeneration.Handle`: a date is an unbounded ordinal. Python's `date` covers only years 1 to 9999. `today + timedelta(days=days)` (partizan/create_holiday_dates.py:16) raises `OverflowError` when the end date falls outside that range, for example with `--days 4000000`. The source then inserts nothing, while the model inserts records for every date in the range. Stepping past 9999-12-31 (line 64) raises after that day's records are inserted, while the model goes on.
- The command's console output (`self.stdout.write`) is left out. The count it prints is `Handle`'s result.
- In the browser script the following are left out:
  - the fetch calls (review form, date select, training form);
  - the DOM writes and the button `disabled` flags;
  - the pixel offset of the slider track;
  - the burger menu, the age-slider label and the age-filter form's hidden field;
  - the rounding of touch positions: `screenX` is a double, and the model takes positions as reals, so a 50.5 px move is a swipe in both, but the rounding of the double difference is not modelled;
  - the 250 ms resize debounce and the 2.5 s autoplay timer. A timer firing is a call to `OnResize` or `AutoplayTick`.
- The required fields of a form are the sequence of their values. Which elements carry `required` is page markup.
- partizan/admin.py, partizan/forms.py, partizan/urls.py and partizan/context_processors.py are not part of this model. They are declarations, routing and one query.

## Findings

| source | as written | input that shows it | evidently intended | confidence | as-written member | corrected member |
|---|---|---|---|---|---|---|
| static/js/script.js:106 | `maxIndex` is computed once at load and is never recomputed when the resize handler changes `slidesPerView` (lines 144-157); next, swipe and autoplay keep checking the stale bound | 5 reviews, load at 700 px (1 per view, bound 4), widen to 1200 px (3 per view, true bound 2), click next three times: index 3, so the last page shows two reviews and an empty place. Narrowing the window instead leaves the bound too low, so the last reviews cannot be reached | the bound follows the per-view count, so the index never passes the last full page | not executed | Client.ReviewSlider.OnResize, Client.StaleMaxIndexWitness | Client.ReviewSlider.OnResizeSynced, Client.SyncedResizeRun |
