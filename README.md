# Balance Health reporting core, modelled in Dafny

Balance Health is a clinical web application. Medical staff register patients and review the patients' balance-training history. Each patient's attempts sit in stored score documents. Each document maps an activity name to one attempt record: the activity name, the date, the max/min/average sensor values, a completed flag and the raw samples. The application recognises four activities: "Stand with your feet side-by-side" (feet-together), "Tandem Stance", "Instep Stance" and "Stand on one foot".

This project models the pure, sequential part of the application:

- **Flattening** (`ActivityRows`): `create_activity_rows` turns the score documents into one row list. It is an imperative loop that appends to a list, so it is modelled as a method with a `for` loop. The method is proved equal to the function `Flatten`, which states its result.
- **Percentages** (`Percentages`): `calculate_percentages` gives the completion percentage of each activity. A ZeroDivisionError for an activity without rows becomes a `Failure`.
- **Table views** (`Windows`): the table sorted latest first; the rows of the latest date; the rows of the last week (date > today − 7) and of the last month (date > today − 28).
- **Daily series** (`DailySeries`): the number of feet-together attempts per day over the last (at most) seven days. The days run from the first feet-together attempt through today.
- **Progress page** (`Progress`): the order in which `view_activity_progress` runs these steps, which faults it raises along the way, and which view its `results` selector shows.
- **Single-activity page** (`SelectedActivity`): the menu of the other activities, the rows of the chosen activity, and the rows that get a signal plot.
- **Forms** (`Forms`): the registration password check (`validate_register_details`) and the choice of which comment collection the patient page shows.
- **Patient record** (`PatientModel`): the `Patient` class, its constructor, and `to_dict`/`from_dict`, with round-trip lemmas over a pure record value.

Modelling choices:

- Dates are integer day numbers. Sensor values are exact reals. Percentages are exact rational ratios.
- Python's dynamically typed dictionary values are the datatype `Values.Value`.
- An exception the code raises becomes a `Failure` of `Wrappers.Fault`:
  - a KeyError on a form, a dictionary or a data-frame column;
  - a ZeroDivisionError;
  - a date range that starts at NaT.
- Each `Failure` is raised at the point the handler would raise the exception. Callers are never required to avoid these cases.
- "today" is an explicit parameter. The stored documents and the request form are parameters too: they stand in for the database and the HTTP request.

Two behaviours of the code that are easy to misread:

- The signal plots take `df.head(7)`: the first seven rows of the chosen activity in stored order, which need not be the seven most recent (app.py:487, 506). `SelectedActivity.PlottedRows` models exactly that.
- The percentage computation divides without a guard (app.py:444-449). `Percentages.CalculatePercentages` therefore returns `ZeroDivision` for the first activity, in list order, that has no rows.

## Model

| member | source | states |
|---|---|---|
| `ActivityRows.CreateActivityRows` | app.py:379-405 | The list the loop builds is exactly `Flatten` of the documents: each document's rows appended after those of all earlier documents |
| `ActivityRows.DocRows` | app.py:393-404 | One document contributes at most one row per known activity |
| `ActivityRows.Flatten` | app.py:391-405 | The flattened list has at most four rows per document |
| `ActivityRows.DocRowsOrder` | app.py:393-404 | One document gives its entries in the fixed order feet-together, Tandem, Instep, one-foot, each present key once and each absent key not at all |
| `ActivityRows.FlattenAppend` | app.py:392-405 | Flattening distributes over concatenation of document lists, so document order is kept |
| `ActivityRows.FlattenSplit` | app.py:392-405 | Document i's rows sit after every earlier document's rows and before every later document's rows |
| `ActivityRows.DocRowsLength` | app.py:393-404 | A document gives exactly as many rows as it has known activity keys |
| `ActivityRows.FlattenLength` | app.py:391-405 | The output length equals the number of known keys present, summed over all documents |
| `ActivityRows.OtherKeyIgnored` | app.py:393-404 | Adding or changing an entry under any other key leaves the document's rows unchanged |
| `ActivityRows.FlattenMember` | app.py:391-405 | A row is in the output if and only if some document holds it under one of the four known keys |
| `Percentages.Total` | app.py:421-442 | An activity's row count never exceeds the table's length |
| `Percentages.TotalZero` | app.py:421-442 | An activity has no rows exactly when no row carries its name |
| `Percentages.Completed` | app.py:421-442 | An activity's completed count never exceeds its row count |
| `Percentages.TotalCountsNamed` | app.py:424 | The row count of an activity is the length of the list filtered by that activity |
| `Percentages.Percentage` | app.py:445-448 | With at least one row: percentage × total = 100 × completed, and the value lies in [0, 100] |
| `Percentages.PercentagesOf` | app.py:444-449 | Succeeds if and only if every listed activity has rows, giving their percentages in list order; otherwise fails with ZeroDivision for the first activity without rows |
| `Percentages.CalculatePercentages` | app.py:408-450 | Exactly four values in the order feet-together, Instep, Tandem, one-foot, each in [0, 100]; succeeds if and only if all four activities have rows; otherwise a ZeroDivision fault for the first activity in that order that has no rows, every earlier one having rows |
| `Percentages.TandemScenario` | app.py:426-447 | One completed and one failed Tandem attempt give Tandem 50%, and the whole computation fails on feet-together |
| `Windows.SortByDateDesc` | app.py:328 | The sorted table is a permutation of the rows, with dates non-increasing |
| `Windows.MaxDate` | app.py:339 | The latest date is attained by some row and no row is later |
| `Windows.LastDate` | app.py:339 | Absent exactly for an empty table; otherwise a date some row carries and no row exceeds |
| `Windows.LastActivity` | app.py:340 | A subsequence of the table whose every row carries the latest date; empty only for an empty table |
| `Windows.LastWeek` | app.py:341 | A subsequence of the table holding only rows dated after today − 7, and every such row |
| `Windows.LastMonth` | app.py:342 | A subsequence of the table holding only rows dated after today − 28, and every such row |
| `Windows.LastActivityExact` | app.py:339-340 | The last view holds exactly the rows of the maximum date: ties included, with their multiplicities, in table order. It is non-empty exactly when the table is, and every excluded row is strictly older |
| `Windows.WindowsExact` | app.py:341-342 | The week view holds exactly the rows dated after today − 7, and the month view exactly those dated after today − 28, each with its multiplicities and in table order |
| `Windows.WeekWithinMonth` | app.py:341-342 | The week view is the month view filtered once more, so last week ⊆ last month ⊆ all rows |
| `Windows.KeepDescending` | app.py:328-342 | Any filtered view of a table sorted latest first is itself sorted latest first |
| `DailySeries.MinDate` | app.py:296 | The first date is attained by some row and no row is earlier |
| `DailySeries.FeetTogetherRows` | app.py:293-295 | A subsequence of the rows, all of them feet-together, holding every feet-together row |
| `DailySeries.Series` | app.py:301-302 | One entry per day, for that day; a count never exceeds the rows, and is 0 exactly when no row is dated that day |
| `DailySeries.Days` | app.py:299 | The date range lists lo, lo + 1, …, hi, and is empty when lo > hi |
| `DailySeries.DailyCounts` | app.py:293-302 | Fails exactly when there is no feet-together row. Otherwise: at most 7 entries, on consecutive days ending today, none before the first feet-together date, and min(7, today − first + 1) of them (none if first > today); each entry counts the feet-together rows of its day |
| `DailySeries.CountMeaning` | app.py:301-302 | An entry is 0 exactly when no feet-together attempt falls on its day, and otherwise equals the number of rows of that activity and day |
| `Progress.SelectView` | app.py:348-355 | The three selector values give the week, last-day and month views; any other value gives the whole table |
| `Progress.RowData` | app.py:344-362 | A plain visit, or a post that saves a comment, shows the last-day view; a post without a comment shows the selected view. A missing form field is a KeyError for `comment_made`, read first, or for `results`. The shown rows always form a subsequence of the sorted table |
| `Progress.ViewActivityProgress` | app.py:284-371 | An empty row list is a KeyError on `date_set`; rows without a feet-together attempt give `NoFirstDate`; then the percentage fault, then the form's KeyError, each passed through unchanged. A rendered page carries exactly `DailyCounts`, `CalculatePercentages`, the projection of the sorted rows, and the projection of `RowData`'s view of them |
| `Progress.ProgressSucceeds` | app.py:289-362 | The page renders if and only if all four activities have rows and the form holds the fields the request reads |
| `Progress.ProgressShows` | app.py:328-371 | The sorted frame the views are taken from has one row per known key present, holds the columns of every flattened row and nothing else; the page's last date is the rows' latest date, and the rows it shows are a subsequence of the sorted frame |
| `Progress.ProjectPermutation` | app.py:328-338 | Projecting the columns of a reordered table keeps its length, and holds each row's columns and nothing else |
| `Progress.SortedMaxDate` | app.py:328-339 | Sorting does not change the latest date |
| `Progress.SortedWindows` | app.py:328-342 | The week and month views of the sorted table hold the same rows as those of the unsorted rows, and are sorted latest first |
| `Progress.SortedLastActivity` | app.py:328-340 | The last-day view of the sorted table holds the same rows as that of the unsorted rows, and is sorted latest first |
| `Progress.ProgressNeedsEveryActivity` | app.py:421-448 | A patient who never attempted one of the four activities gets a failing progress page, provided each stored attempt is labelled with its key |
| `SelectedActivity.ActivityMenu` | app.py:475-478 | The menu is the catalogue with every entry named after the shown activity removed and the others kept in order, then {"name": "Overall"} last; an entry without a name is a KeyError |
| `SelectedActivity.MenuCounts` | app.py:476 | Every other activity appears in the menu as often as in the catalogue, and the shown one not at all |
| `SelectedActivity.SelectedRows` | app.py:482-484 | The chosen activity's rows, in stored order, all of that activity, and as many as its percentage denominator; an empty table has no activity column |
| `SelectedActivity.PlottedRows` | app.py:506 | The plotted attempts are the first min(7, n) rows in stored order |
| `Forms.ValidateRegisterDetails` | app.py:536-549 | Valid if and only if confirm_password equals password; a mismatch flashes the one notice "Passwords do not match."; a missing field is a KeyError, confirm_password being checked first |
| `Forms.CategoryOf` | app.py:211-222 | "feetTogether", "instep", "tandem" and "general" select the feet-together, Instep, Tandem and general collections; one-foot is chosen exactly for every other code |
| `Forms.CommentsCategory` | app.py:209-224 | A plain visit reads general comments; a post reads the collection its activity code names, or is a KeyError without the field |
| `Forms.CategoryOfCovers` | app.py:211-222 | The four named codes select four different collections, and every collection is selected by some code |
| `PatientModel.Encode` | models/patient.py:29-38 | The dictionary has exactly the six keys, each holding the matching field |
| `PatientModel.Decode` | models/patient.py:18-27 | Succeeds if and only if all six keys are present, taking each field from its key; otherwise a KeyError for the first missing key in reading order |
| `PatientModel.DecodeEncode` | models/patient.py:18-38 | from_dict(to_dict(p)) gives back p |
| `PatientModel.EncodeDecode` | models/patient.py:18-38 | to_dict(from_dict(d)) == d for a dictionary with exactly the six keys |
| `PatientModel.EncodeDecodeRestricts` | models/patient.py:18-38 | With extra keys, the round trip keeps exactly the six |
| `PatientModel.Patient.constructor` | models/patient.py:10-16 | Each of the six arguments is stored unchanged in the field of the same name |
| `PatientModel.Patient.ToDict` | models/patient.py:29-38 | Exactly the six keys, each with its field, and reading the dictionary back gives this patient's fields |
| `PatientModel.Patient.FromDict` | models/patient.py:18-27 | A new Patient whose fields are the values under the six keys, or the KeyError of the first missing one |

## Left out

- data_utils.py is not part of this model. It holds the document-store and authentication calls and their `flash` notices. The score documents, the activity catalogue and the request forms are parameters instead. `add_comment` and `retrieve_comments` are not modelled: the model ends at choosing which comment collection to read. `Progress.ViewActivityProgress` and `Progress.ProgressSucceeds` assume `add_comment` returns normally when a comment is saved (app.py:359). In the source, a comment post without a `comment` field fails inside `add_comment` and the page does not render.
- Flask routing, `render_template`, `redirect`, the `session` map and the process-wide login flag (app.py:43, 65-67, 79-81) are left out. They are framework plumbing, and the flag's only real issue is concurrent access.
- All chart construction and image output (app.py:303-326, 486-523) is left out: matplotlib and plotly figures, `savefig`/`write_image` to fixed paths, and PNG/base64 encoding. These are foreign rendering libraries and file I/O. Only the data handed to the plots is modelled: the daily series, and the rows of `PlottedRows`.
- Percentages.Percentage: the exact ratio, not Python's `round(…, 2)`. Floating-point rounding is not modelled.
- The dates are day numbers, so pandas date-string parsing (app.py:289-291) is not modelled, nor the difference between UTC-parsed dates and the local `date.today()`.
- DailySeries.DailyCounts: the per-day counts join on the day number. The source groups by `datetime.date` values and reindexes by a pandas `DatetimeIndex`; how pandas matches the two is assumed, not modelled.
- DailySeries.DailyCounts: `NoFirstDate` stands for the failure of `pd.date_range` when the feet-together table is empty and its minimum is NaT. That pandas raises here is assumed.
- Windows.SortByDateDesc: the contract promises a permutation with non-increasing dates. pandas's default sort is not stable, so the order of rows sharing a date is left open; the insertion sort used is one admissible order.
- Columns are projected to `Scores.TableRow`: the six shown columns, without `acc_data`. The shape `df.values.tolist()` gives the rows is not modelled further.
- The class-level attribute defaults of `Patient` (models/patient.py:3-8) are left out. The constructor always overrides them.
- The field values of `Patient` are untyped `Value`s, as in Python. The source checks no types, so the model checks none.
- tests/test_urls.py is left out. It holds HTTP smoke tests against the running application.
- Idempotence of the pipeline is not stated as a lemma. Every step is a function, so equal inputs give equal outputs by construction.
