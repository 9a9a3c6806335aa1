# Social media tracker: verified model of the snapshot rotation and name comparison

This project models, in Dafny, the logic of a small personal tool that keeps track of
who follows an account on a social network. The tool works on the data exports the
platform produces:

- **Latest dated folder.** `update_instagram_data.py` lists the `reports/` directory.
  It keeps the sub-directories named `YYYY.MM.DD` that are real calendar dates and picks
  the latest one. Module `DatedFolder`, file `dated_folder.dfy`.
- **Slot rotation.** It then rotates three slot files in `reports/`: it deletes
  `old_followers.json` and `following.json`, renames `followers_1.json` to
  `old_followers.json`, and copies the two exports of the chosen folder in. The first
  failing call ends the run and nothing is rolled back. Module `Rotation`, file
  `rotation.dfy`. The filesystem is a class `FileSystem` holding a `map<Path, Content>`,
  with one method per filesystem call.
- **Name extraction.** The analysis scripts turn an export into a set of account names.
  A JSON export is either a list of groups, each with a `string_list_data` list of
  entries carrying a `value`, or that list under the key `relationships_following`.
  An HTML export contributes the text of every `<a>` element that has an `href`.
  Modules `JsonValue` (`json_value.dfy`) and `NameExtraction` (`name_extraction.dfy`).
- **Difference reports.** Each script prints counts and a set difference sorted by code
  point. The three scripts are modules `JsonTracker`, `JsonHttpCompare` and
  `HttpTracker`, each keeping its own operand order. Python's `set()`, `str` ordering
  and `sorted` are in module `NameSets` (`name_sets.dfy`).

`Wrappers` (`wrappers.dfy`) holds the `Option` and `Result` datatypes.

`json_http_compare.py` repeats, character for character, the extractors of
`json_tracker.py` (its lines 15-24) and of `http_tracker.py` (its lines 5-8). Each
extractor is modelled once, in `NameExtraction`.

Inputs the program gets from the operating system or from libraries are parameters:

- the listing of `reports/`: a sequence of (name, is-directory) pairs, or `None` when
  the directory does not exist;
- whether each filesystem call raises `OSError`: a `Faults` record;
- the decoded JSON document: a `Json` value;
- the parsed HTML page: its elements in document order, each with its tag, whether it
  carries `href`, and its text.

## Model

| member | source | states |
|---|---|---|
| `DatedFolder.FindLatestDatedFolder` | update_instagram_data.py:18-45 | A missing directory gives `ReportsDirNotFound`. A listing with no candidate gives `NoDatedFolder`. Otherwise the result is the candidate whose date no other candidate exceeds, and every candidate listed before it is strictly earlier: the strict `>` keeps the first of equal dates. A candidate is a directory whose name matches the pattern and parses as a calendar date. |
| `DatedFolder.DaysInMonth` | update_instagram_data.py:29 | Every month has 28 to 31 days, and 29 only for February of a Gregorian leap year. |
| `DatedFolder.ParseDate` | update_instagram_data.py:29-35 | `strptime(name, '%Y.%m.%d')` on a matching name succeeds exactly when its three digit fields form a date `datetime` accepts (year 1 to 9999, month 1 to 12, a day of that month), and then yields those fields; otherwise it is the `ValueError` the loop skips. |
| `DatedFolder.Format` | update_instagram_data.py:20 | Writing a valid date as zero-padded `YYYY.MM.DD` always gives a name that `^\d{4}\.\d{2}\.\d{2}$` matches. |
| `DatedFolder.FormatInvertsParse` | update_instagram_data.py:20-29 | The date parsed from a folder name, formatted back, is that very name: a candidate's name and its date determine each other. |
| `DatedFolder.ParseInvertsFormat` | update_instagram_data.py:20-29 | For every date `datetime` accepts, parsing its formatted name gives back that date. |
| `DatedFolder.NearMissesDoNotMatch` | update_instagram_data.py:20 | The pattern is anchored at both ends and fixed-width: an unpadded month, dashes, a three-digit day, a prefix character and a letter among the digits are all rejected. |
| `DatedFolder.MonthThirteenIsSkipped` | update_instagram_data.py:29-35 | `2024.13.01` matches the pattern but is not a date, so it is never a candidate. |
| `DatedFolder.ThirtyFirstOfAprilIsSkipped` | update_instagram_data.py:29-35 | `2024.04.31` matches the pattern but is not a date. |
| `DatedFolder.NonLeapFebruary29IsSkipped` | update_instagram_data.py:29-35 | February 29 of 2023 and of 1900 is rejected. |
| `DatedFolder.LeapFebruary29IsAccepted` | update_instagram_data.py:29 | February 29 of 2024 and of 2000 parses. |
| `DatedFolder.YearZeroIsSkipped` | update_instagram_data.py:29-35 | Year `0000` is rejected. |
| `DatedFolder.LatestIsUnique` | update_instagram_data.py:30-32 | At most one position of a listing meets the selection property, so the choice is determined. |
| `DatedFolder.DigitsOrder` | update_instagram_data.py:20 | For digit strings of equal width, string order is numeric order, and equal strings are equal numbers. |
| `DatedFolder.DateOrderIsNameOrder` | update_instagram_data.py:20-30 | For names matching `^\d{4}\.\d{2}\.\d{2}$`, one parsed date is before another exactly when its name is smaller as a string. |
| `DatedFolder.LatestHasGreatestName` | update_instagram_data.py:20-32 | The selected name is not smaller than any candidate's name. Every candidate listed before it has a strictly smaller name. |
| `Rotation.FileSystem.Remove` | update_instagram_data.py:92 | `os.remove` succeeds exactly when the file exists and no fault occurs. On success the file is gone; on failure nothing changes. |
| `Rotation.FileSystem.Rename` | update_instagram_data.py:108 | `os.rename` moves the content to the destination and drops the source, or changes nothing on failure. |
| `Rotation.FileSystem.Copy2` | update_instagram_data.py:119-122 | `shutil.copy2` gives the destination the source's content and keeps the source, or changes nothing on failure. |
| `Rotation.RotationOutcome` | update_instagram_data.py:79-125 | A missing export leaves the files as they were. Otherwise a run always stops after a prefix of the five steps: the files are those after the first `k` steps, there is no error exactly when all five ran, and otherwise the error names step `k`. |
| `Rotation.Rotate` | update_instagram_data.py:76-125 | The final files and the error equal `RotationOutcome` of the initial files. That means: a missing export stops the run before any change; then delete, delete, rename, copy, copy run in order; the first reached call that faults ends the run with the earlier steps applied. |
| `Rotation.UpdateInstagramData` | update_instagram_data.py:69-125 | A missing directory or no candidate ends the run with the files unchanged. Otherwise the chosen folder is the latest candidate, and the files and error are those of `RotationOutcome`. |
| `Rotation.StepsUnfolded` | update_instagram_data.py:88-122 | The exact file map after each of the five steps. |
| `Rotation.RotationSucceedsIff` | update_instagram_data.py:79-125 | A run succeeds exactly when both exports exist and none of the calls it reaches faults. The deletes and the rename are reached only for slots that exist. |
| `Rotation.RotationSuccess` | update_instagram_data.py:90-122 | After success, `followers_1.json` and `following.json` hold the folder's exports. `old_followers.json` holds the previous `followers_1.json`, or is absent on a first run. Every non-slot path is unchanged. |
| `Rotation.FaultPicksTheStep` | update_instagram_data.py:79-125 | Which error a run reports: a missing `followers_1.json` export, else a missing `following.json` export; otherwise the first call, in the order delete, delete, rename, copy, copy, that is reached (its slot exists, for the deletes and the rename) and faults. With `NoRollback` this fixes the files left behind by every fault. |
| `Rotation.NoRollback` | update_instagram_data.py:79-125 | A missing export leaves every file as it was. Each failing step leaves exactly the earlier steps applied, spelled out as an explicit map per error. |
| `Rotation.OnlySlotsChange` | update_instagram_data.py:88-122 | Any number of steps changes nothing but the three slots. |
| `Rotation.RotationKeepsSnapshots` | update_instagram_data.py:116-122 | Whatever the outcome, every file inside a dated folder is unchanged. |
| `JsonValue.LastMember` | json_tracker.py:11-12 | A decoded object's member lookup: it succeeds exactly when some member has the key, and then returns the value of the last such member; otherwise `KeyMissing`. |
| `JsonValue.Lookup` | json_tracker.py:11-12 | `x[key]` succeeds only on an object having the key, and returns the value of its last member named `key`. A missing key is `KeyMissing`; a non-object is `NotAnObject`. |
| `JsonValue.Iterate` | json_tracker.py:11-12 | `for` visits a list's items in order, a dict's keys in member order, or a string's characters one by one, each as a string. Anything else is `NotIterable`. |
| `NameExtraction.EntryName` | json_tracker.py:11 | `entry['value']` gives a name exactly when the subscript succeeds on a string. A non-object entry is `NotAnObject` and an entry without `value` is `KeyMissing`. |
| `NameExtraction.EntryNames` | json_tracker.py:11-12 | Succeeds exactly when every entry yields a name, and then lists those names one per entry, in order. |
| `NameExtraction.GroupNames` | json_tracker.py:11-12 | Succeeds exactly when every group is well formed. It then lists exactly the names carried by some entry of some group, one per entry: its length is the total number of entries across the groups. |
| `NameExtraction.ExtractNamesFromFollowers` | json_tracker.py:10-13 | Succeeds exactly when the document is iterable and all its groups are well formed. The set then holds exactly the `value` of every entry of every group's `string_list_data`. |
| `NameExtraction.ExtractNamesFromFollowing` | json_tracker.py:4-7 | A non-object, or an object without `relationships_following`, is an error. Success gives exactly the names carried by the groups of the wrapped list. |
| `NameExtraction.FollowingUnwrapsFollowers` | json_tracker.py:4-13 | On a document whose `relationships_following` is L, the following extractor equals the followers extractor on L, failures included. |
| `NameExtraction.ExportShapesAgree` | json_tracker.py:4-13 | The keyed shape and the list shape, holding the same groups, give identical results. |
| `NameExtraction.EmptyExports` | json_tracker.py:10-13 | No groups, or groups whose `string_list_data` is empty, give the empty set and no error. |
| `NameExtraction.MissingKeyFails` | json_tracker.py:11-12 | A group without `string_list_data`, or an entry without `value`, fails the whole extraction and never yields a partial set. |
| `NameExtraction.CountIsDistinctNames` | json_tracker.py:11-13 | The set is `set()` of the raw name list, which has one name per entry. Its size is at most the total number of entries, and equal to it exactly when no name repeats. |
| `NameExtraction.AnchorTexts` | http_tracker.py:6 | The list holds exactly the texts of the `<a>` elements carrying `href`, and is no longer than the element list. |
| `NameExtraction.ExtractNamesFromHtml` | http_tracker.py:4-7 | A name is in the set exactly when some `<a>` element with `href` has that text. |
| `NameExtraction.NonLinkAddsNothing` | http_tracker.py:6 | Appending an element that is not an `<a>` with `href` leaves the name set unchanged. |
| `NameSets.ToSet` | json_tracker.py:13 | `set(names)` has exactly the list's members and at most its length. |
| `NameSets.ToSetSizeExact` | json_tracker.py:13 | `set(names)` has exactly the list's length precisely when the list has no duplicate. |
| `NameSets.LexLessIsFirstDifference` | json_tracker.py:33 | Python's `<` on strings: `a < b` exactly when `a` is a proper prefix of `b`, or at the first differing position `a` has the smaller code point. |
| `NameSets.LexTransitive` | json_tracker.py:33 | Python's `<` on strings is transitive. |
| `NameSets.LexTotal` | json_tracker.py:33 | Two distinct strings are ordered one way or the other. |
| `NameSets.Sorted` | json_tracker.py:33 | `sorted(s)` is strictly ascending by code point, holds exactly the members of `s`, and is as long as `s`. |
| `NameSets.SortedIsUnique` | json_tracker.py:33 | Any strictly ascending listing of a set equals `sorted` of it, so the printed list depends only on the set. |
| `JsonTracker.NotFollowingBackReport` | json_tracker.py:27-34 | The first two counts are the sizes of the followers and following sets. The names are strictly ascending and are exactly the followed accounts not among the followers. The third count is their number. |
| `JsonTracker.Analyze` | json_tracker.py:23-34 | The report exists exactly when both extractions succeed. A followers error is the one reported; when only the following export is malformed, its error is reported. On success the report is `NotFollowingBackReport` of the two extracted sets: both counts, the strictly ascending following-minus-followers names and their number. |
| `JsonTracker.NoneMissingIffSubset` | json_tracker.py:27-34 | The list is empty exactly when the following set is a subset of the followers set. |
| `JsonTracker.ExampleReport` | json_tracker.py:27-34 | Followers {alice, bob} and following {bob, carol, dave} give counts 2, 3, 2 and the names carol, dave. |
| `JsonHttpCompare.PastMinusCurrentReport` | json_http_compare.py:35-42 | The first two counts are the sizes of the HTML and JSON sets. The names are strictly ascending and are exactly the HTML names missing from the JSON set. The third count is their number. |
| `JsonHttpCompare.Analyze` | json_http_compare.py:31-42 | The report exists exactly when the JSON extraction succeeds, whose error is otherwise reported. On success the report is `PastMinusCurrentReport` of the HTML and JSON sets: both counts, the strictly ascending HTML-minus-JSON names and their number. |
| `JsonHttpCompare.DifferenceIsHtmlMinusJson` | json_http_compare.py:31-35 | A name is listed exactly when some HTML link has it as text and the JSON export does not name it. |
| `HttpTracker.Analyze` | http_tracker.py:16-28 | The counts are the sizes of the two HTML name sets. The names are strictly ascending and are exactly the link texts of the following page absent from the followers page. |
| `HttpTracker.NothingAfterHeaderIffSubset` | http_tracker.py:21-28 | Nothing follows the header exactly when the following set is a subset of the followers set. |
| `HttpTracker.NonLinksAreIgnored` | http_tracker.py:4-7 | Adding an element that is not an `<a>` with `href` to either page changes no part of the report. |

## Left out

- `build.py`: it packages the program with PyInstaller and moves files around. It is
  packaging, not logic.
- `run_script` and step 5 of `main` (update_instagram_data.py:47-67, 127-132): they
  start the analysis scripts as child processes and relay their output. The analyses
  are modelled as separate functions, not as a step of the rotation.
- Printed text and `sys.exit` codes: a report is a record of counts and names, and a
  fatal condition is an `UpdateError` or `ShapeError` value.
- File reads and `json.load` (json_tracker.py:16-20, json_http_compare.py:11-12 and
  27-28): the model starts from a decoded `Json` value, so undecodable files are not
  modelled.
- BeautifulSoup's HTML parsing: the model starts from the parsed element list. A tag is
  taken as the parser reports it, lower-cased.
- Errors of `os.listdir` other than a missing directory (PermissionError,
  NotADirectoryError): the source catches only FileNotFoundError
  (update_instagram_data.py:36), so these end it with a traceback before any slot is
  touched. The listing parameter is either a listing or a missing directory and does
  not model them.
- The listing of `reports/` is a parameter. It is not derived from the file map, and
  `os.listdir` order is whatever the sequence says.
- Filesystem detail: `copy2` metadata, platform behaviour of `os.rename`, and the causes
  of `OSError`. A call fails only when its file is absent or its `Faults` flag is set.
  A failing call changes nothing.
- Python regular-expression quirks: `\d` also matches non-ASCII digits, and `$` also
  matches before a final newline. The model accepts ASCII digits only and exactly ten
  characters.
- `DatedFolder.ParseDate` covers `strptime` only on names that passed the pattern check,
  which is the only way the source calls it.
- `NameExtraction.EntryName`: a `value` that is not a JSON string is a `NotAName` error.
  Python would add numbers, booleans or `null` to the set, and fail only later, when
  `set()` meets a list or dict or `sorted` compares mixed types.
- `JsonValue.Iterate`: iterating an object yields one key per member as listed. A
  decoded dict has no duplicate keys; the difference cannot change a result, because
  any key reached is a string and the next subscript fails on it.
- JSON numbers keep their literal text. Nothing in the scripts reads them.
- json_http_compare.py keeps its result in `names_in_following_not_in_followers` and
  prints it under "Accounts Not Following Back" (lines 35 and 40). What it computes is
  the link texts of `followers_1.html` minus the JSON set of `followers_1.json`, and no
  script reads the rotated `old_followers.json`. The model follows the subtraction.
