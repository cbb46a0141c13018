# Field journal report service: a Dafny model

This project models the core of `maphost.py`, the Flask service that
publishes field-work reports. Each report is a `report_*` folder holding an
XML document and photos. The model covers four parts:

- **Scanner (`load_reports`).** It lists the working directory and admits the
  folders named `report_*` that hold an `.xml` file which parses. From each it
  builds one flat record:
  - fixed fields, each with its own default;
  - a date normalized from `DD/MM/YYYY` to `YYYY-MM-DD`, with the sentinel
    `"Unknown Date"` for anything else;
  - a `dynamic_fields` map where the last field with a name wins;
  - the `.jpg` and `.png` photo names;
  - the folder path.
- **Index page.** It offers four filter lists: the sorted distinct dates,
  regions, activity types and work types, each without its sentinel value.
- **Detail endpoint (`get_report`).** It finds the first record with the
  requested id, or answers 404. It replaces the record's photo names with
  `data:image/jpeg;base64,` URIs of the photo files.
- **Statistics endpoint (`get_statistics`).** It validates a date range and
  answers 400 when a bound is missing, empty or not a `YYYY-MM-DD` date.
  Otherwise it counts the records per date within the inclusive range.

The modules follow that structure:

- `Util`: Option, bytes, `split`/`join`, zero-padded decimals.
- `StringOrder`: Python's string order, and `sorted(set(...))`.
- `Dates`: the `strptime`/`strftime` date grammar and the calendar.
- `Base64`: section 4 of RFC 4648.
- `Reports`: the scanner.
- `Views`: the three endpoints.

The filesystem and the XML parser are inputs:

- A folder is a value: its name, whether it is a directory, its listing, and
  the parsed document of its first `.xml` file. A parse error is `None`.
- A parsed document gives, for each tag, the text of the first element with
  that tag, plus the ordered `DynamicFieldsData/Field` elements.
- Photo files are a map from path to bytes. A missing path is a read fault.

The scanner's record loop, the dynamic-field loop, the photo loop and the
statistics counter are methods with loops. Each is proved equal to a
specification function, or to a characterization of its result. Date
parsing, formatting and the filter lists are pure functions.

The two central results are these:

- Every normalized date other than the sentinel parses back under
  `%Y-%m-%d` (`Dates.NormalizeReparses`, `Reports.ScanDates`). So, given
  the four-digit year that `Dates.Format` writes (see "## Left out"), the
  `except ValueError` in the statistics loop is never taken for a scanned
  record.
- Comparing zero-padded `YYYY-MM-DD` texts as strings agrees with calendar
  order (`Dates.FormatOrder`). So the sorted date filter is chronological
  (`Views.DateFilterChronological`), and the `datetime` range test agrees
  with a string comparison (`Views.RangeAsStrings`).

`findtext` returns `""` for an element that exists but has no text, so such a
fixed field is `""` rather than its default. An empty `Date` element becomes
`"Unknown Date"` because `""` does not parse.

## Model

| member | source | states |
|---|---|---|
| Util.FirstIndex | maphost.py:20 | `next(x for x in s if p(x))`: the first index whose element satisfies `p`, and None exactly when no element does |
| Util.Filter | maphost.py:55 | a list comprehension with a condition: the kept elements are exactly those of the input that satisfy the condition |
| StringOrder.LessPad | maphost.py:75 | zero-padded decimals of one width compare as strings exactly as the numbers compare |
| StringOrder.SortedSet | maphost.py:75-80 | `sorted(set(values))` is strictly increasing in Python string order and holds exactly the input's values |
| StringOrder.StrictlyIncreasingUnique | maphost.py:75-80 | a strictly increasing list is fixed by its element set, so `sorted(set(...))` has one answer |
| Dates.DayToken | maphost.py:33 | a `%d` field gives a day between 1 and 31 |
| Dates.MonthToken | maphost.py:33 | a `%m` field gives a month between 1 and 12 |
| Dates.YearToken | maphost.py:33 | a `%Y` field gives a year of at most 9999 |
| Dates.ParseDayMonthYear | maphost.py:33 | `strptime(raw, "%d/%m/%Y")` yields only real calendar days |
| Dates.ParseIso | maphost.py:116-117 | `strptime(s, "%Y-%m-%d")` yields only real calendar days |
| Dates.Format | maphost.py:33 | `strftime("%Y-%m-%d")` is a 10-character text, never the sentinel |
| Dates.DayTokenSpellings | maphost.py:33 | `%d` reads day n exactly from "0n"/"nn", and for n < 10 also from "n" and " n" |
| Dates.MonthTokenSpellings | maphost.py:33 | `%m` reads month n exactly from its two-digit text, and for n < 10 also from "n" |
| Dates.YearTokenPad | maphost.py:33 | `%Y` reads year y exactly from its four-digit zero-padded text |
| Dates.ParseDayMonthYearSpellings | maphost.py:33 | `"%d/%m/%Y"` reads a text as day d exactly when d is a real day and the text is one of d's day/month/year spellings |
| Dates.ParseIsoSpellings | maphost.py:116-117 | `"%Y-%m-%d"` reads a text as day d exactly when d is a real day and the text is one of d's year-month-day spellings |
| Dates.ParseIsoFormat | maphost.py:33 | the text `strftime` writes for a real day reads back under `"%Y-%m-%d"` as the same day |
| Dates.FormatInjective | maphost.py:33 | two real days with the same `YYYY-MM-DD` text are the same day |
| Dates.NormalizeSpelling | maphost.py:29-35 | a raw date spelling a real day becomes that day's zero-padded text, with the same day, month and year |
| Dates.NormalizeSentinel | maphost.py:29-35 | the date becomes `"Unknown Date"` exactly when the raw text spells no real day |
| Dates.NormalizeReparses | maphost.py:29-35 | every normalized date other than the sentinel parses under `"%Y-%m-%d"`, back to the day the raw text spelled |
| Dates.FormatOrder | maphost.py:75 | comparing two days' `YYYY-MM-DD` texts as strings agrees with comparing the days |
| Dates.NormalizeLeapDay | maphost.py:32-33 | 29/02 of a leap year is kept |
| Dates.NormalizeNonLeapDay | maphost.py:32-35 | 29/02 of any other year is the sentinel |
| Dates.NormalizeExample | maphost.py:33 | "05/03/2024" and "5/3/2024" both become 5 March 2024's text |
| Dates.FormatExample | maphost.py:33 | 5 March 2024 is written "2024-03-05" |
| Dates.NormalizeEmptyAndDefault | maphost.py:29-35 | empty text and the missing-element default both become the sentinel |
| Dates.NormalizeWithoutSlash | maphost.py:32-35 | a raw date without a slash becomes the sentinel |
| Base64.EncodeLength | maphost.py:98 | `b64encode` gives four characters per group of up to three bytes |
| Base64.DecodeEncode | maphost.py:98 | decoding the Base64 text of any bytes gives back those bytes |
| Reports.DynamicFieldsKeys | maphost.py:58-61 | `dynamic_fields` has exactly one key per distinct field name, with a missing name counted as "Unknown Field" |
| Reports.DynamicFieldsLastWins | maphost.py:58-61 | the value stored under a name comes from the last field with that name; missing or empty text gives "Нет данных" |
| Reports.CollectDynamicFields | maphost.py:58-61 | the in-place loop leaves exactly the last-wins map of all fields |
| Reports.AdmittedIff | maphost.py:19-22 | a folder yields a record exactly when it is a directory named `report_*`, lists an `.xml` file, and that file parsed |
| Reports.ScanAppend | maphost.py:16 | scanning a listing in two parts gives the first part's records, then the second's |
| Reports.ScanRecords | maphost.py:16-66 | the records correspond one to one, in listing order, to the admitted folders, each built from its folder's document |
| Reports.RecordIdentity | maphost.py:38 | a record's id is its folder's name, and its photos are exactly the folder's `.jpg`/`.png` names in listing order |
| Reports.RecordFields | maphost.py:39-53 | each fixed field is the first matching element's text when one exists, and otherwise its own default |
| Reports.RecordDate | maphost.py:29-35 | the date field is the normalized text of the first `Date` element, or the sentinel when there is none |
| Reports.RecordDateReparses | maphost.py:29-35 | a record's date is the sentinel or the text of a real day that `"%Y-%m-%d"` reads back |
| Reports.ScanDates | maphost.py:29-35 | every scanned record's date is the sentinel or the text of a real day that reads back |
| Reports.LoadReports | maphost.py:12-66 | the scanning loop returns exactly the records of the admitted folders, in listing order |
| Views.DistinctValues | maphost.py:75 | one filter list is strictly increasing and holds exactly the non-sentinel values of its column |
| Views.FilterListContents | maphost.py:74-81 | each of the four filter lists is sorted without duplicates, holds exactly the values some record carries, and never the field's sentinel |
| Views.DistinctValuesOrderFree | maphost.py:75-80 | the filter lists depend only on which values occur, not on the record order |
| Views.DateFilterChronological | maphost.py:75 | over scanned records, every date filter entry is a real day's text and the list is in calendar order |
| Views.DataUriDecodes | maphost.py:98-99 | each photo URI starts with `data:image/jpeg;base64,` and its payload decodes to the photo's bytes |
| Views.Lookup | maphost.py:89 | the first record with the id, and None exactly when no record has it |
| Views.EncodePhotos | maphost.py:94-99 | the photo loop gives one URI per photo, in order, each the data URI of that file's bytes; a missing file is a fault |
| Views.GetReport | maphost.py:88-102 | 404 when no record has the id; otherwise the first such record with only its photos replaced by their data URIs, or a fault when a photo cannot be read |
| Views.CheckRequestSpec | maphost.py:112-119 | a request is refused for missing dates exactly when a bound is absent or empty; otherwise it is accepted with days s and e exactly when the bounds spell those real days; every refusal is a 400 |
| Views.OccurrencesPositive | maphost.py:132 | a date's count is positive exactly when some record carries it |
| Views.CountByDate | maphost.py:122-134 | the keys are exactly the in-range dates some record carries; each maps to its number of records; "Unknown Date" never appears |
| Views.GetStatistics | maphost.py:107-136 | a missing or empty bound gets 400 with "Нужно указать начальную и конечную дату"; a bound that does not parse gets 400 with "Неверный формат даты"; an accepted request gets the per-date counts of the scanned records within the range |
| Views.RangeAsStrings | maphost.py:129-134 | for a scanned record with a real date, the parse succeeds and the `datetime` range test agrees with comparing the texts as strings |

## Left out

- Flask routing, `jsonify`, `render_template`, the request's JSON decoding, and the argparse and `FLASK_PORT` startup are HTTP and CLI glue. The statistics request is a pair of optional strings, and a JSON value that is not a string is not modelled.
- `os.listdir`, `os.path.isdir`, `os.getcwd` and the photo reads are filesystem I/O and become inputs. The listing of a report folder is read twice in the source, for the `.xml` search and for the photos. The model uses one listing for both, so a folder changing between the two reads is not modelled.
- `ET.parse`, `findtext` and `findall` are a foreign library. The parsed document is an input, and a parse error is its absence. An exception other than `ParseError`, such as a directory whose name ends in `.xml`, is not modelled.
- `xmlparce.py` (the upload handler) is not part of this model.
- The console message printed for a parse error, and concurrency between requests, are left out.
- Dates.DayToken: strptime's `\d` in `[12]\d` also matches non-ASCII decimal digits, so it reads "1٥" as day 15. The model accepts ASCII digits only, and the "exactly" of `Dates.DayTokenSpellings` holds over ASCII spellings.
- Dates.YearToken: `%Y` is `\d\d\d\d`, so strptime also reads four non-ASCII decimal digits as a year. The model accepts ASCII digits only, and the "exactly" of `Dates.YearTokenPad`, `Dates.ParseDayMonthYearSpellings` and `Dates.ParseIsoSpellings` holds over ASCII spellings.
- Dates.Format: always pads the year to four digits. Some platforms' `strftime` writes years below 1000 without padding, and such a date would then not reread under `%Y`.
- Views.EncodePhotos: a failed photo read is an unhandled exception in the source. The model returns a fault value, and which path failed is not reported.
- Views.GetReport: returns the record as a value. The source mutates the dictionary it found, and no other holder of that dictionary is modelled.
