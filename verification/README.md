# Booking calendar core, modelled in Dafny

A property manager uploads an Airbnb export (delimited text) and a Booking.com
export (a spreadsheet). The page reads both into booking records, merges them
into a dictionary that holds, for each calendar day, the bookings that occupy
it, and colours each day of the calendar as free (`none`), booked by one
source (`Airbnb` or `Booking`) or double-booked (`Overbooking`). Two revisions
of the script hold this core:

- `script.js`, taken to be the later revision (the order is inferred from the
  content of the two files; neither is dated). Its readers drop blank lines and rows whose
  arrival or departure is an Invalid Date. Its spreadsheet reader replaces
  missing cells with `""` or `0`.
- `front-end/script.js`, taken to be the earlier revision. Its readers keep every line and
  row, and its text reader takes the columns from other positions.

Both revisions share the same `unifyBookings`, the same per-day rule in
`renderCalendar` and the same `formatDate`.

Modules, one per file:

- `Wrappers` (`wrappers.dfy`): `Option`. `None` stands for `null` and for an
  Invalid Date.
- `Seqs` (`seqs.dfy`): `.filter(row => row !== null)`, and the positions it keeps.
- `JsValues` (`js_values.dfy`): the JavaScript semantics the readers rely on.
  It covers values and truthiness (for `x || default`), `trim`, `split` and
  `join` on one character, `String(n)`, `padStart`, and `parseInt` with no
  radix (whitespace, sign, `0x` prefix).
- `Bookings` (`bookings.dfy`): the booking record, a calendar day as a day
  number, the split line or spreadsheet row it is read from, and the host
  functions `new Date(x)` and `parseFloat(x)`. Those two are given as
  parameters (`JsRuntime`).
- `ScriptReaders` (`script_readers.dfy`): `readCSV` and `readExcel` of `script.js`.
- `FrontEndReaders` (`front_end_readers.dfy`): `readCSV` and `readExcel` of
  `front-end/script.js`.
- `Unification` (`unification.dfy`): `unifyBookings`. It is an imperative
  method whose nested loops build the dictionary in a local `map`. It is proved
  equal to `BuildMap`, a fold over the tagged bookings, and the lemmas about
  the dictionary are stated on `BuildMap`.
- `Calendar` (`calendar.dfy`): the per-day rule of `renderCalendar`, and
  `formatDate`.

Three behaviours of the code worth stating outright:

- A row whose arrival is after its departure is kept by both readers. It adds
  nothing to the dictionary, because the day walk never runs for it
  (`Unification.EmptyStayAddsNothing`).
- Rows with an Invalid Date are kept by the earlier revision. They do not make
  the day walk loop: comparing an Invalid Date with `<=` is false, so the walk
  never runs for such a row. The loop terminates (the `decreases` of
  `Unification.WalkStay`), and the row changes nothing (`EmptyStayAddsNothing`).
  A blank or comma-free line of the earlier revision is such a row
  (`FrontEndReaders.ShortLineAddsNothing`).
- In the text readers, `rooms` and `persons` come from `parseInt` with no
  default. A missing or non-numeric field gives `NaN`, not `0`. Defaults exist
  only in the later revision's spreadsheet reader.

`new Date(x)` and `parseFloat(x)` are parameters (`Bookings.JsRuntime`). The
only facts assumed of them are those ECMAScript fixes without a date parser
(`Bookings.ValidRuntime`): `new Date(undefined)` is an Invalid Date, and `parseFloat(undefined)` is `NaN`. Lemmas that need these facts
require `ValidRuntime`.

## Model

| member | source | states |
|---|---|---|
| `Seqs.DropNullsExact` | script.js:45 | `.filter(row => row !== null)` keeps exactly the non-null entries, each once, in input order. The k-th kept value is the one at the k-th non-null position. |
| `Seqs.DropNullsAppend` | script.js:127-130 | Filtering the concatenation of two sequences gives the concatenation of the two filtered sequences. |
| `JsValues.TrimStart` | script.js:39-40 | The first step of `parseInt`: the whitespace removed at the front is all JavaScript whitespace, and what remains does not start with whitespace. |
| `JsValues.Split` | script.js:21 | `split(c)` yields at least one piece, and no piece contains `c`. |
| `JsValues.JoinSplit` | script.js:9 | Joining the pieces of `s.split(c)` with `c` gives `s` back. |
| `JsValues.SplitJoin` | front-end/script.js:12 | Splitting a join of separator-free pieces gives exactly those pieces back. |
| `JsValues.Decimal` | script.js:278 | `String(n)` is non-empty and all digits. It starts with `0` only for 0, and it has one digit below 10 and two digits from 10 to 99. |
| `JsValues.PadStartZeros` | script.js:278-279 | `padStart(w, '0')` gives length the larger of the length of `s` and `w`: zeros followed by `s`. |
| `JsValues.ParseIntField` | script.js:39-40 | `parseInt` of a field gives a number or `NaN`. A missing field gives `NaN`. A field of decimal digits gives the number those digits denote. |
| `JsValues.ParseIntPaddedDecimal` | script.js:278-279 | `parseInt` reads back the number that `String(n).padStart(w, '0')` wrote. |
| `Bookings.Tail` | script.js:77 | `slice(1)` drops the first element, and drops nothing more. |
| `Bookings.DataLines` | script.js:9 | There is one data line fewer than the lines of the text: the header is dropped. Data line i is line i+1 of the text. |
| `Bookings.DataLinesOfFile` | front-end/script.js:7 | A header line plus newline-free lines, joined with newlines, give back exactly those lines as data lines. |
| `ScriptReaders.CsvRecord` | script.js:12-44 | A line yields a record exactly when it is not blank and both of its date columns parse. A record always has both dates. |
| `ScriptReaders.ReadCsv` | script.js:9-45 | Every record `readCSV` returns has a valid arrival and a valid departure. |
| `ScriptReaders.CsvShortLineDropped` | script.js:19-33 | Under `ValidRuntime`, a line with fewer than five fields has no departure, so it is dropped. |
| `ScriptReaders.CsvKeepsValidLines` | script.js:26-33 | The header is dropped. Each data line yields exactly one record, in input order, exactly when it is non-blank and both of its dates parse. An unparseable line never appears. |
| `ScriptReaders.CsvColumns` | script.js:19-44 | A line of at least 19 comma-free fields maps arrival to column 3, departure 4, guest 6, rooms 7, persons 8, amount 11, hotel 17 and property 18. The line is dropped exactly when a date is invalid. |
| `ScriptReaders.ExcelRecord` | script.js:82-106 | A row yields a record exactly when both of its date cells parse. A record always has both dates. |
| `ScriptReaders.ReadExcel` | script.js:77-107 | Every record `readExcel` returns has a valid arrival and a valid departure. |
| `ScriptReaders.ExcelKeepsValidRows` | script.js:77-107 | Row 0 is dropped. A later row yields a record, in row order, exactly when both dates parse. Guest, hotel and property are the cell or `""`. Rooms, persons and amount are the cell or `0`. |
| `FrontEndReaders.ReadCsv` | front-end/script.js:7-24 | The reader returns one record per line after the header, in order, each mapped from its own line. |
| `FrontEndReaders.CsvKeepsEveryLine` | front-end/script.js:7-25 | A file with a header and n lines yields exactly n records, including blank lines. |
| `FrontEndReaders.CsvColumns` | front-end/script.js:9-23 | On a line of at least 13 comma-free fields, columns 3 and 4 are the dates, 5 the guest, 6 rooms, 7 persons, 8 amount, 11 hotel and 12 property. |
| `FrontEndReaders.CsvShortLine` | front-end/script.js:14-23 | A line with no comma still yields a record. Its dates are `new Date(undefined)`, its counts are `NaN`, and its other fields are `undefined`. Under `ValidRuntime` both dates are Invalid and the amount is `NaN`. |
| `FrontEndReaders.ShortLineAddsNothing` | front-end/script.js:14-23 | Under `ValidRuntime`, a booking read from a line with no comma, blank lines included, changes nothing in the dictionary: removing it leaves `BuildMap` equal. |
| `FrontEndReaders.ReadExcel` | front-end/script.js:42-51 | The output has exactly rows−1 records, in row order. Cells 3, 4, 6, 7, 8, 11, 17 and 18 are copied as they are, with no default. |
| `Unification.SourceName` | script.js:128-129 | The tag is the string `Airbnb` or `Booking`. It is `Airbnb` exactly for the Airbnb source. |
| `Unification.Unified` | script.js:127-130 | The combined list has as many records as the two inputs together. The first records, as many as the Airbnb input has, are the Airbnb ones, tagged `Airbnb`, in order. The rest are the Booking ones, tagged `Booking`, in order. |
| `Unification.UnifyBookings` | script.js:126-155 | The dictionary the nested loops build equals `BuildMap` of the unified list, and none of its buckets is empty. |
| `Unification.WalkStay` | script.js:134-151 | Walking one reservation from its arrival while the date is `<=` its departure gives `AddStay` of the dictionary, which pushes its entry onto the bucket of every day of the stay. The walk terminates, even for an Invalid Date, and keeps every bucket non-empty. |
| `Unification.Hit` | script.js:136 | A booking contributes to day d exactly when arrival ≤ d ≤ departure and both dates are valid. |
| `Unification.PushDaysBucket` | script.js:136-151 | Walking days lo..hi−1 adds the entry once to each of those days' buckets, and to no other bucket. A key exists afterwards exactly when it existed before or lies in the range. |
| `Unification.AddStayBucket` | script.js:135-151 | One booking's walk appends its entry exactly once to each covered day's bucket, and leaves every other day alone. |
| `Unification.BuildMapBuckets` | front-end/script.js:69-87 | Every day's bucket holds the entries of the covering bookings, in unification order. A key exists exactly when some booking covers that day. |
| `Unification.BucketExact` | script.js:134-152 | Day d's bucket lists one entry per booking with arrival ≤ d ≤ departure, at increasing positions in the unified list. Nothing else is in it. |
| `Unification.BucketSourceOrder` | script.js:127-141 | In every bucket, all Airbnb entries come before all Booking entries, and each source keeps its input order. |
| `Unification.SourcesOf` | front-end/script.js:63-64 | Entries drawn from bookings that all have source s carry source s. |
| `Unification.EmptyStayAddsNothing` | front-end/script.js:70-71 | Removing a booking with an Invalid Date, or with arrival after departure, leaves the dictionary unchanged. |
| `Unification.EmptyStayCovering` | front-end/script.js:70-86 | Such a booking appears in no day's list of covering entries. |
| `Unification.AddStayCount` | script.js:135-151 | One booking's walk adds departure−arrival+1 entries in total, or none, counted over any run of days that contains the stay. |
| `Unification.BuildMapCount` | front-end/script.js:69-87 | The whole dictionary holds as many entries as the stays have days. |
| `Calendar.Classify` | script.js:189-198 | With no bucket the day is `none`. With one entry it shows that entry's source. With two or more it shows `Overbooking` and sets the overbooking flag. |
| `Calendar.ClassifyUnified` | front-end/script.js:124-133 | On the unified dictionary, a day is `none` exactly when no booking covers it. With exactly one covering booking it shows that booking's source. It is `Overbooking` exactly when two or more bookings cover it, whatever their sources. |
| `Calendar.TwoDigits` | script.js:278-279 | A number from 0 to 99 becomes its two-digit padded text (`PaddedPart`, which `PaddedPartReads` reads back). `NaN` prints as `NaN`. |
| `Calendar.FormatDate` | script.js:276-282 | An Invalid Date formats as `NaN-NaN-NaN`. |
| `Calendar.FormatDateParts` | front-end/script.js:211-217 | A valid date with a year from 0 on splits on `-` into three parts: the day as two digits, the 1-based month as two digits, and the year. Each part reads back as its number. |
| `Calendar.FormatDateSplit` | front-end/script.js:211-217 | For a valid date with a year from 0 on, splitting the text on `-` gives exactly the padded day, the padded 1-based month and the year digits. |
| `Calendar.PaddedPartReads` | script.js:278-279 | `parseInt` reads a padded day or month back as the number it came from. |
| `Calendar.YearReads` | script.js:280 | The year's digits are all decimal digits, and `parseInt` reads them back as the year. |
| `Calendar.PaddedPart` | script.js:278-279 | A day or month number below 100 is written as exactly two digits, with no `-`. |

## Left out

- File reading: `FileReader`, the Promises, `readAsText`, `readAsArrayBuffer`
  and the load button's handler. Both readers start from the file's text, or
  from the first sheet's rows.
- `XLSX.read` and `sheet_to_json`. The sheet is given as a sequence of rows of
  cell values.
- Date parsing and time zones. JavaScript's parsing of date strings and numbers
  is the abstract function `JsRuntime.newDate`, constrained only by
  `ValidRuntime`. So is the reading of a
  spreadsheet's numeric date serial, which `new Date(n)` takes as milliseconds.
  The same goes for `toISOString`, `setDate`/`getDate` in local time, and the
  time zone `formatDate` reads its getters in.
- The `YYYY-MM-DD` key. The dictionary is keyed by the day number the key
  names. The model assumes that a date's key text is unique to it.
- `Calendar.FormatDate` takes the getters of the parsed Date (`JsDate`), not
  the date string, and does not say which date a string parses to.
- `parseFloat` is the abstract function `JsRuntime.parseFloat`, and numbers are
  exact reals. There is no floating point, no `toFixed(2)`, and no loss of
  precision beyond 2^53 in `parseInt`.
- `parseInt` with an explicit radix, which the readers never use.
  `JsValues.ParseInt` models the call without a radix: whitespace, sign, `0x`
  prefix and digits.
- The time of day. A date is a day number, so `currentDate <= departure`
  compares days, not milliseconds. In JavaScript, an arrival at 15:00 and a
  departure at 10:00 two days later cover two days. In the model they cover
  three.
- DOM rendering: the calendar grid, month names, the hard-coded year 2024 and
  the click handlers. The modal (`openModal`) and the close handler are left
  out too. Only the per-day rule is modelled.
- The hard-coded login gate and the password toggle. They are UI over fixed
  credentials, not logic to verify.
- The WhatsApp message and `encodeURIComponent`/`window.open`. These are a
  foreign call and a browser action.
- Console logging.
