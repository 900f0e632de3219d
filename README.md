# Ortho-Denisa practice manager: a verified model of its decision logic

Ortho-Denisa is a single-page application for an orthodontic practice. One
browser controller class (`OrthoDenisaApp` in `app.js`) keeps patients,
appointments and treatment photos in memory and renders them. This project
models the part of that class which decides things, and proves what those
decisions guarantee:

- **Global search** (`handleGlobalSearch`, `performSearch`,
  `calculateSearchScore`, `getMatchedFields`, `clearSearch`). Every patient,
  appointment and photo scores a fixed weight for each field containing the
  lowercased query. Items that score are kept, sorted stably by descending
  score, and cut to ten.
- **Appointments** (`addNewAppointment`, `autoScheduleNextAppointment`,
  `getAutoScheduleSettings`, `markAppointmentComplete`, the quick path of
  `rescheduleAppointment`). Follow-ups are booked two weeks after the
  patient's latest appointment and moved off weekends. A completed
  appointment is never changed again.
- **Patient forms** (`addNewPatient`, `updatePatient`). The name must be
  non-blank after trimming and the age must lie in 1..100. A refused form
  leaves the patients untouched.
- **Photo gallery** (`loadTreatmentsPage`'s state, `renderTreatmentGallery`
  up to the sort, `getTreatmentPhotoCount`, `switchTreatmentTab`,
  `getStageLabel`, `getTreatmentLabel`). The photo collection and the tab
  only exist once the treatments page has been loaded. Three conjunctive
  facet filters feed a stable sort by date, patient name or stage.
- **Smaller pieces**: the deterministic part of `detectPatientNames`
  (matched name parts over all parts, first best match above one half), the
  commit rule of `processSmartUpload`, and `calculateTimeDifference`.

Layout, one module per file:

- `common.dfy` (`Common`): Option, filter, find-index, take.
- `text.dfy` (`Text`): ASCII lowercasing, `includes`, `trim`, `split(' ')`, decimal digits.
- `ordering.dfy` (`Ordering`): one stable insertion sort by a lexicographic key, with its sortedness, permutation and stability lemmas. It stands for every `Array.prototype.sort` call the core makes.
- `calendar.dfy` (`Calendar`): day numbers since 1970-01-01, `getDay`, the weekend hop, ISO dates, elapsed-time text.
- `records.dfy` (`Records`): patient, appointment and photo records; stage and treatment labels.
- `search.dfy` (`Search`), `scheduling.dfy` (`Scheduling`), `gallery.dfy` (`Gallery`), `smartupload.dfy` (`SmartUpload`): the pure rules of each area.
- `practice.dfy` (`Practice`): the application object as a class `OrthoApp`. Its fields are the collections, and its methods are the operations above. Each method's new state is stated in terms of the pure rules.

Dates are whole day numbers. The current day, the current instant and new
record ids, which the source takes from the clock, are parameters. So are
the user's answers to `prompt` and `confirm`, and the random fallback pick.

## Model

| member | source | states |
|---|---|---|
| Common.Filter | app.js:1519 | `Array.prototype.filter`: the result holds exactly the elements that pass the test, and is no longer than the input |
| Common.FilterFilter | app.js:1962-1978 | narrowing a list by two successive filters is one filter by the conjunction |
| Common.FilterConcat | app.js:3854-3900 | filtering distributes over concatenation |
| Common.FilterSame | app.js:1962-1978 | filters by tests that agree everywhere give the same list |
| Common.FilterAll | app.js:1962-1963 | a filter that keeps everything returns its input |
| Common.FilterIf | app.js:1962-1978 | a facet step applied only when set: an element survives iff it was present and, when the step applies, passes the test |
| Common.Count | app.js:1941 | `filter(...).length` is the length of the filtered list and at most the input length |
| Common.Take | app.js:3900 | `slice(0, n)`: the first `min(n, length)` elements |
| Common.FindIndex | app.js:1427 | `findIndex`: absent iff no element passes; otherwise the first index whose element passes |
| Text.LowerChar | app.js:3856 | `toLowerCase` on one character: an ASCII capital moves 32 code points down, anything else is kept, and the result is never an ASCII capital |
| Text.Lower | app.js:3856 | `toLowerCase`: same length, character by character, with no capitals left |
| Text.LowerIdempotent | app.js:2893 | lowering twice is lowering once (the file name and the name parts are lowered again in `detectPatientNames`) |
| Text.CapitalisedFolds | app.js:2096-2113 | a lowercase key whose first letter is capitalised lowers back to the key |
| Text.ContainsAt | app.js:3908 | `includes` holds iff the needle occurs at some position |
| Text.TrimStart | app.js:1135 | the leading white space is removed and nothing else |
| Text.TrimEnd | app.js:1135 | the trailing white space is removed and nothing else |
| Text.TrimEmpty | app.js:1138-1141 | a trimmed field is empty iff it held only white space, so the name check refuses exactly the blank names |
| Text.TrimEnds | app.js:1135 | a non-empty trimmed value starts and ends with a visible character |
| Text.SplitOnSpace | app.js:2889 | `split(' ')` yields at least one piece and no piece contains a space |
| Text.SplitJoin | app.js:2889 | joining the pieces with single spaces gives back the name |
| Text.Decimal | app.js:2411-2415 | the decimal digits of a count: non-empty, digits only, no leading zero except for 0 itself |
| Text.DigitRoundTrip | app.js:2411-2415 | a digit's character reads back as that digit |
| Text.DecimalRoundTrip | app.js:2411-2415 | reading the decimal text of `n` gives back `n` |
| Text.PadZero | app.js:1544 | `padStart` with zeros: exactly `max(length, width)` characters, zeros in front, the text itself as the suffix |
| Text.DecimalShort | app.js:1544 | a number below 10^k is written in at most k digits |
| Text.LeadingZero | app.js:1544 | a leading zero does not change the value a digit string reads as |
| Text.PadZeroValue | app.js:1544 | a zero-padded digit string is still digits and reads as the same value |
| Ordering.KeyBelowIrreflexive | app.js:3900 | the sort comparison is irreflexive |
| Ordering.KeyBelowTransitive | app.js:3900 | the sort comparison is transitive |
| Ordering.KeyBelowTotal | app.js:3900 | any two different keys are comparable |
| Ordering.SingleKeyBelow | app.js:1983-1993 | for one-number keys the comparison is `<` on the numbers |
| Ordering.InsertByKey | app.js:3900 | insertion adds exactly one element |
| Ordering.InsertByKeyPermutes | app.js:3900 | insertion adds the element and loses none |
| Ordering.SortByKey | app.js:3900 | sorting keeps the length |
| Ordering.SortByKeyPermutes | app.js:3900 | the sorted list is a permutation of the input |
| Ordering.InsertSorted | app.js:3900 | inserting into a sorted list keeps it sorted |
| Ordering.SortByKeySorted | app.js:3900 | the result is ordered by key |
| Ordering.WithKeyCons | app.js:3900 | the elements of one key in a list with a new head |
| Ordering.InsertStable | app.js:3900 | insertion puts the new element in front of those with an equal key and keeps their order |
| Ordering.SortByKeyStable | app.js:3900 | the sort is stable: elements with equal keys keep their relative order |
| Ordering.WithKeyPrefix | app.js:3900 | the equal-key elements of a prefix are a prefix of the list's equal-key elements |
| Ordering.WithKeyFirst | app.js:1520 | the first element with a key heads the list of elements with that key |
| Calendar.DayOfWeek | app.js:1538-1541 | `getDay` lies in 0..6 |
| Calendar.DayOfWeekNext | app.js:1804-1811 | the weekday after Saturday (6) is Sunday (0), otherwise the number goes up by one |
| Calendar.DayOfWeekWeekLater | app.js:1535 | seven days on is the same weekday, so fourteen days on is too |
| Calendar.SkipWeekend | app.js:1537-1542 | Saturday moves two days on, Sunday one; the result is the first weekday on or after the date |
| Calendar.TwoWeeksLater | app.js:1535-1542 | the follow-up date lies 14 to 16 days on and is never a weekend; it is 14 days on unless the base was a weekend |
| Calendar.NextWorkingDay | app.js:1803-1811 | the quick-reschedule date is the first weekday after the old date, at most three days on |
| Calendar.DaysInMonth | app.js:1544 | every month has 28 to 31 days |
| Calendar.MonthsFillYear | app.js:1544 | the twelve months add up to the days of the year |
| Calendar.MonthDayValid | app.js:1544 | counting months on from `m` lands on a valid day of a month no earlier than `m`, the same number of days on |
| Calendar.CivilFromValid | app.js:1544 | counting years on or back lands on a valid date exactly `offset` days after January 1st of the starting year |
| Calendar.CivilFromDaysRoundTrip | app.js:1544 | every day number names a valid date (month 1..12, day within the month), and counting that date's days from 1970-01-01 gives the number back |
| Calendar.IsoDate | app.js:1544 | the date text has at least ten characters |
| Calendar.PaddedNumber | app.js:1544 | a number below 10^width, zero-padded to width, is width digits reading back as the number |
| Calendar.DashedPieces | app.js:1544 | pieces of 4, 2 and 2 digits joined by dashes sit at positions 0-3, 5-6 and 8-9 |
| Calendar.IsoTextFields | app.js:1544 | a valid date in years 0..9999 is written `YYYY-MM-DD`, each field reading back as the date's year, month and day |
| Calendar.IsoDateFields | app.js:1544 | for years 0..9999 `toISOString().split('T')[0]` is ten characters with dashes at 4 and 7, and its three digit fields read back as the year, month and day of the day number |
| Calendar.ElapsedBetween | app.js:2405-2415 | "Same day" iff the dates are equal; otherwise the unit follows the 7/30/365-day bands and the count is the whole number of units |
| Calendar.Describe | app.js:2411-2415 | the text is "Same day" exactly for the same-day case; otherwise it is the count's decimal digits (which read back as the count), a space, the unit word, and "s" when the count exceeds one |
| Calendar.TimeDifference | app.js:2405-2415 | `calculateTimeDifference` reports "Same day" iff the dates are equal; otherwise the digits of the elapsed count (reading back as that count), a space, the unit word, and "s" when the count exceeds one |
| Calendar.TimeDifferenceSymmetric | app.js:2408 | the distance does not depend on which photo comes first |
| Records.StageLabel | app.js:2096-2104 | `getStageLabel` always yields a non-empty label; which label each stage gets is stated by StageLabelCapitalises and StageLabelsDistinct |
| Records.TreatmentLabel | app.js:2106-2113 | `getTreatmentLabel`: the three known treatments capitalised, anything else unchanged |
| Records.StageLabelCapitalises | app.js:2096-2104 | every stage label but completion's is its key with the first letter capitalised (so `Before`, `Progress`, `Adjustment`), and completion's is "Complete" |
| Records.TreatmentLabelCapitalises | app.js:2106-2113 | the label of each known treatment is its key capitalised |
| Records.StageLabelsDistinct | app.js:2096-2104 | different stages get different labels |
| Search.PatientScore | app.js:3907-3913 | a patient scores at most 36, nothing iff no field hits, and at least 10 when the name hits; the phone is compared without lowercasing |
| Search.AppointmentScore | app.js:3915-3922 | an appointment scores at most 38, nothing iff no field hits, and at least 10 when the patient name hits; date and time are compared without lowercasing |
| Search.PhotoScore | app.js:3924-3932 | a photo scores at most 44, nothing iff no field or tag hits, and at least 10 when the patient name hits |
| Search.TableScoreBounds | app.js:3907-3932 | a weight table scores at most its total and at least the weight of any row that hits; with positive weights it scores nothing iff no row hits |
| Search.PatientScoreIsTable | app.js:3907-3913 | the patient score is the sum of the rows that hit in the table name 10, email 8, phone 8, treatment 6, notes 4 |
| Search.AppointmentScoreIsTable | app.js:3915-3922 | the appointment score is the sum of the rows that hit in the table patient 10, type 8, status 6, notes 4, date 6, time 4 |
| Search.PhotoScoreIsTable | app.js:3924-3932 | the photo score is the sum of the rows that hit in the table patient 10, title 8, description 6, treatment 6, stage 6, notes 4, any tag 4 |
| Search.Pick4 | app.js:3938-3965 | the reported names are exactly those of the checks that hit, and none is reported iff none hits |
| Search.MatchedFields | app.js:3938-3965 | a reported field implies a positive score |
| Search.MatchedFieldsExact | app.js:3938-3965 | a field is reported iff it is one of the item's four reportable fields and its test hits |
| Search.FilterFour | app.js:3938-3965 | filtering a list of four names keeps those whose test holds, in list order |
| Search.MatchedFieldsInOrder | app.js:3938-3965 | the reported fields are the item's reportable fields filtered by their tests, in the fixed order the source checks them |
| Search.PatientFieldsInOrder | app.js:3942-3947 | for a patient the order is name, email, phone, treatment |
| Search.AppointmentFieldTests | app.js:3949-3954 | each reported appointment field name stands for the test the score applies to that field |
| Search.AppointmentFieldsInOrder | app.js:3949-3954 | for an appointment the order is patient, type, status, date |
| Search.PhotoFieldsInOrder | app.js:3956-3961 | for a photo the order is patient, title, treatment, stage |
| Search.UnreportedFields | app.js:3938-3965 | none of notes, tags, description and time is ever reported, although each counts towards the score |
| Search.NotesOnlyPatient | app.js:3907-3913 | a patient found only through the notes scores 4 and reports no field |
| Search.Hits | app.js:3854-3896 | the collected results: every result is its item's scored record with score > 0, and a searched item is present iff it scores |
| Search.HitsSnoc | app.js:3860-3869 | visiting one more item appends its result exactly when it scores |
| Search.HitsConcat | app.js:3858-3897 | scoring patients, then appointments, then photos collects each list's results one after the other |
| Search.CandidatesInOrder | app.js:3858-3897 | the unranked results are the patients' results, then the appointments', then the photos' |
| Search.RankedTake | app.js:3900 | after sorting and cutting, scores are non-increasing |
| Search.TakeKeepsBest | app.js:3900 | a candidate is dropped only when ten results each score at least as much |
| Search.Rank | app.js:3900 | the ranking has `min(10, n)` results drawn from the candidates, best first, and keeps the best |
| Search.RankStable | app.js:3900 | results with equal scores keep collection order: patients, then appointments, then photos |
| Search.SearchResults | app.js:3854-3900 | at most ten results, each a searched item with score > 0 and its own score and fields, non-increasing; a scoring item is missing only behind ten at least as good |
| Search.NoPhotoItemsWithoutPhotos | app.js:3885 | with no photo collection every searched item is a patient or an appointment |
| Search.NoPhotoResultsWithoutPhotos | app.js:3885 | before the photo collection exists the search reports only patients and appointments |
| Scheduling.OwnAppointments | app.js:1519 | the patient's appointments are exactly those with that patient id |
| Scheduling.LatestAppointment | app.js:1519-1520 | absent iff the patient has no appointment; otherwise one of theirs |
| Scheduling.LatestAppointmentIsLatest | app.js:1520 | the picked appointment has the latest date; among several on that date it is the first in the collection |
| Scheduling.FollowUp | app.js:1511-1562 | the booked record: the patient's id and name, Scheduled, type Adjustment, 45 minutes, the auto-schedule note, dated exactly `TwoWeeksLater` of the latest appointment's date (at its time) or of today (at 10:00), hence 14–16 days on and never on a weekend |
| Scheduling.MarkedComplete | app.js:1741-1748 | status Completed, completion time and "Dr. Denisa", the note or the default when empty; every other field unchanged |
| Scheduling.QuickRescheduled | app.js:1801-1824 | status Rescheduled, moved to the first weekday after the old date, the old date kept as `originalDate`; every other field unchanged |
| Scheduling.TransitionsAllowed | app.js:1729-1748 | completing or quick-rescheduling an appointment that is not completed are allowed status steps |
| Gallery.StageOrdinal | app.js:1992 | each stage's position in the stage sort lies in 1..4 |
| Gallery.FilterPhotos | app.js:1959-1978 | a photo is kept iff it is on the tab (or the tab is 'all'), matches the patient filter if set, and matches the stage filter if set |
| Gallery.TabStep | app.js:1963-1965 | the tab step is the tab facet as one filter |
| Gallery.PatientStep | app.js:1968-1971 | the patient step is the patient facet as one filter |
| Gallery.StageStep | app.js:1974-1977 | the stage step is the stage facet as one filter |
| Gallery.FilterPhotosConjunctive | app.js:1959-1978 | the three steps equal one filter by the conjunction of the facets, in collection order |
| Gallery.FacetsCombine | app.js:1959-1978 | nesting the facets two by two is the conjunction of all three |
| Gallery.Codes | app.js:1989 | the name key has one code per character |
| Gallery.CodesCompare | app.js:1989 | comparing code sequences agrees with the character-code comparison of the names: below iff negative, equal iff zero |
| Gallery.PhotoKeyFollowsComparator | app.js:1980-1994 | for every sort order, one photo's key is below another's iff the source's comparator is negative, and the keys are equal iff it is zero |
| Gallery.GalleryView | app.js:1959-1995 | the gallery has as many photos as pass the filters |
| Gallery.GalleryContents | app.js:1959-1995 | the gallery is a permutation of the photos passing all facets |
| Gallery.GalleryOrdered | app.js:1980-1994 | newest: dates non-increasing; oldest: non-decreasing; stage: ordinals non-decreasing; patient: names in order |
| Gallery.GalleryStable | app.js:1980-1994 | photos ranked equal stay in collection order |
| Gallery.PhotoCount | app.js:1938-1942 | at most the number of photos, and all of them on the 'all' tab |
| Gallery.PhotoCountMatchesGallery | app.js:1938-1942 | the tab count is the size of the unfiltered gallery on that tab |
| Gallery.TabCountsAddUp | app.js:1938-1942 | when every photo has one of the three treatments, the three tab counts add up to the 'all' count |
| SmartUpload.NameParts | app.js:2879-2889 | a name has at least one part |
| SmartUpload.MatchedParts | app.js:2890-2896 | the number of matched parts is at most the number of parts |
| SmartUpload.NameConfidence | app.js:2898 | the confidence lies in 0..1; it is 1 iff every part matches, and above one half iff more than half of the parts match |
| SmartUpload.RatioBounds | app.js:2898-2899 | matched over total lies in 0..1, equals 1 iff all match, and exceeds one half iff twice the matches exceed the total |
| SmartUpload.HalfCompare | app.js:2899 | a ratio exceeds one half iff twice its numerator exceeds its denominator |
| SmartUpload.MatchConfidence | app.js:2889-2898 | the counting loop computes the confidence |
| SmartUpload.Scan | app.js:2887-2903 | the pick is an index of the scanned list |
| SmartUpload.ScanFindsFirstBest | app.js:2887-2903 | nobody is picked iff no confidence exceeds one half; otherwise the pick is the first patient with the highest confidence |
| SmartUpload.DetectPatient | app.js:2881-2912 | nobody, with confidence 0, iff there are no patients; when some confidence exceeds one half, the first patient with the highest confidence, with that confidence; otherwise the patient at the random pick with confidence 0.3 |
| SmartUpload.FullNameWins | app.js:2887-2903 | a file whose name contains all of exactly one patient's name parts is given that patient with confidence 1 |
| Practice.CheckPatientForm | app.js:1138-1146 | refused for the name iff the trimmed name is empty; for the age iff the name is fine and the age is missing or outside 1..100; accepted iff both are fine |
| Practice.NewPatient | app.js:1148-1160 | the new record holds the trimmed name, email, phone and notes and the form's gender, treatment and age, with the given id and day, status Active, no next appointment; the name is non-empty and the age in 1..100 |
| Practice.UpdatedPatient | app.js:1448-1458 | the updated record holds the trimmed name, email, phone and notes and the form's gender, treatment and age; it keeps id, dateAdded, status and next appointment, and records the day of the change |
| Practice.FindPatient | app.js:1221 | `find` by id: absent iff no patient has the id; otherwise the first patient of the list with that id |
| Practice.AppendedPatientFound | app.js:1163 | a record appended under a new id is what a lookup by that id finds |
| Practice.ReplacedPatientFound | app.js:1449 | after the slot found by id is replaced, a lookup by the id finds the new record |
| Practice.NewAppointment | app.js:1219-1231 | the new record is Scheduled with the given id and the form's patient id, date, time, type, duration and notes; the patient name is that of the first patient with the id, or 'Unknown' when none has it |
| Practice.ScoreEach | app.js:3859-3869 | each `forEach` of the search collects exactly the results of its scoring items, in order |
| Practice.DetectFor | app.js:2881-2912 | the per-file loop computes the suggestion the detection rule defines |
| Practice.OrthoApp.constructor | app.js:3-14 | the application starts with the given records, no search and no upload; the photo collection and the treatment tab do not exist yet |
| Practice.OrthoApp.SearchablePhotos | app.js:3885 | the photos the search visits: none before the collection is loaded, otherwise the collection |
| Practice.OrthoApp.LoadTreatmentsPage | app.js:287-290 | an unset tab becomes braces and a missing collection becomes the sample photos; a set tab and an existing collection are kept |
| Practice.OrthoApp.HandleGlobalSearch | app.js:3843-3851 | a query under two characters clears the search; a longer one activates it and stores the ranked results over the patients, the appointments and the photos if loaded |
| Practice.OrthoApp.ClearSearch | app.js:4110-4113 | the search is inactive and has no results |
| Practice.OrthoApp.PerformSearch | app.js:3854-3900 | the patient and appointment loops, the photo loop only when the collection exists, and the sort compute exactly the ranked search results |
| Practice.OrthoApp.AddNewPatient | app.js:1133-1163 | a refused form leaves the patients unchanged; an accepted one appends exactly the new record |
| Practice.OrthoApp.UpdatePatient | app.js:1426-1458 | an unknown id or a refused form changes nothing; otherwise only the first slot with that id is replaced by the updated record, and no id changes |
| Practice.OrthoApp.AddNewAppointment | app.js:1219-1231 | exactly one record is appended, numbered one past the collection length; completed appointments keep their slot |
| Practice.OrthoApp.AutoScheduleNextAppointment | app.js:1511-1562 | an unknown patient changes nothing; otherwise exactly the follow-up is appended and nothing is reordered |
| Practice.OrthoApp.MarkAppointmentComplete | app.js:1720-1775 | a missing or completed appointment and a cancelled prompt change nothing; otherwise only that slot is marked complete, and the follow-up is offered iff the patient has braces |
| Practice.OrthoApp.RescheduleAppointment | app.js:1780-1824 | a missing or completed appointment is refused; the custom path changes nothing; the quick path moves only that slot to the next working day |
| Practice.OrthoApp.SwitchTreatmentTab | app.js:1944-1947 | the tab becomes the chosen one, an empty choice becomes braces, and the collection is loaded if it was missing |
| Practice.OrthoApp.RenderTreatmentGallery | app.js:1959-1995 | for a loaded collection, the photos listed are the gallery view: a permutation of the photos that pass every facet |
| Practice.OrthoApp.TreatmentPhotoCount | app.js:1938-1942 | 0 before the collection is loaded; otherwise the size of the unfiltered gallery on that tab |
| Practice.OrthoApp.DetectPatientNames | app.js:2877-2914 | every analysed file gets the suggestion the detection rule defines, and nothing else changes |
| Practice.OrthoApp.ProcessSmartUpload | app.js:3267-3278 | the files committed are exactly the approved ones or those with confidence ≥ 0.8, in upload order with repeats kept; with none it refuses and changes nothing, otherwise the upload starts |

## Left out

- Page rendering, HTML strings, modals, DOM events, notifications and `console` output are presentation only.
- `alert`, `confirm` and `prompt`: alerts become refusal values; the answers become parameters (`notes` for the completion prompt, `quick` for the reschedule choice).
- The clock: `Date.now()` ids, `new Date()` for today and the completion and reschedule instants are parameters.
- Time zones: `new Date("YYYY-MM-DD")` parses as UTC while `getDay` and `setDate` work in local time. The model treats a date as a whole day with its weekday.
- Random choices: the fallback patient of `detectPatientNames` is the `roll` parameter. Confidence jitter, classification of stage and treatment, and the upload progress are not modelled.
- The asynchronous smart-upload pipeline (file reading, simulated upload, creating photo records after the eligibility gate) and `URL.createObjectURL`.
- The follow-up that `markAppointmentComplete` starts through `confirm` and `setTimeout` is reported as a flag; the caller then runs `AutoScheduleNextAppointment`.
- The `confirm` after auto-scheduling that opens the editor (`editAppointment`) is not modelled.
- The custom path of `rescheduleAppointment` only opens the editor; the editor itself is not part of this model.
- `getAutoScheduleSettings` is a constant record (`Scheduling.Settings`), as its body is.
- Text.Lower: lowercases ASCII letters only; `toLowerCase` also folds other scripts.
- Gallery.PhotoKey: the patient order compares character codes, not `localeCompare` collation.
- The sorts are a stable insertion sort over a value; the source sorts arrays in place with the engine's stable sort. Only the resulting order is modelled.
- Practice.CheckPatientForm: the age arrives as a number or as absent; the source compares the raw field text, so decimal ages such as "2.5" pass and are stored truncated, and non-numeric text is not modelled.
- Search: string lengths count code points, not UTF-16 units, and the `!query` check for a missing query is covered by the length test.
- Sample data: `loadSampleData` is replaced by the constructor's records, and the list `loadSampleTreatmentPhotos` returns by its `sample` parameter.
- `currentViewMode` (grid or list) only changes the layout and is not modelled.
- Practice.OrthoApp.RenderTreatmentGallery: requires a loaded collection; the source spreads `this.treatmentPhotos` and would throw before the treatments page has loaded it.
- SmartUpload.DetectPatient: the treatment classifier's own patient override and its capitalised 'Braces' value are not modelled.
- SmartUpload.NameConfidence: confidences are exact rationals; the source computes `matches / nameParts.length` and compares it with 0.5 and 0.8 in IEEE doubles. The two agree for realistic name-part counts, but rounding at a boundary is not modelled.
