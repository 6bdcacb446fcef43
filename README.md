# stormpath-tenant-usage: the billing-period resolver, in Dafny

`stormpath-tenant-usage` exports a Stormpath tenant's billed API usage from Redshift. For
each of one or more billing periods it runs one fixed query and writes the rows to a
pipe-delimited file. It can then zip the files with a random passphrase, upload the archive
to S3, email the link and text the passphrase.

The only part of the script with real logic is the **billing-period resolver**,
`ExportUsage.get_timestamps`. It takes the tenant's current cycle `(start, end)` from the
warehouse and a period count N, and builds the dict `timestamps` from period index to
`{start, end}` strings:

- period 1 is the current cycle;
- period 2 is `[start − 1 month, start)`;
- period k ≥ 3 is `[start − (k−1) months, start − (k−2) months)`.

A month shift follows `dateutil.relativedelta`. It moves the year and month, clamps the day
to the length of the target month and keeps the time of day. It raises when the year leaves
1..9999.

Around the resolver the model also covers:

- `set_billing_periods`;
- the explicit `-y/-z` range of `main`;
- the export file name and the header row of `query_redshift` / `export_to_csv`;
- the path `set_location` returns;
- the loop and re-prompt test of `configure`;
- the passphrase, given the random draws;
- the flow of `main` that ties these together.

Files, one module each:

- `outcomes.dfy`: `Option`, `Result` and the script's failure kinds.
- `decimal.dfy`: `%d` and `int()` on strings.
- `calendar.dfy`: datetimes, month lengths, `+ relativedelta(months=m)`.
- `timestamp_format.dfy`: `strftime` / `strptime` with `'%Y-%m-%d %H:%M:%S'`.
- `export_files.dfy`: `os.path.join`, the `set_location` path, `'%d-%s.csv'`, the header, the
  CSV row writer for the header.
- `billing_periods.dfy`: the insertion-ordered dict, `set_billing_periods`, the resolver's
  rule (`PeriodDates`), the `get_timestamps` loop (`GetTimestamps`) and its properties, and
  the explicit range.
- `tenant_usage.dfy`: `query_redshift`, `main`, `configure`, the passphrase.

The Python dict is modelled as its entries plus its keys in insertion order. CPython 3.6
iterates a dict in insertion order, so `query_redshift` visits the periods from N down to 1.
The dict's values hold strings after `get_timestamps` and datetimes after `-y/-z`, so a bound
is `Text(string)` or `Moment(DateTime)`.

## Model

| member | source | states |
|---|---|---|
| `Decimal.NatToStringDigits` | build/scripts-3.6/stormpath-tenant-usage.py:166 | the decimal numeral of n is all digits, has no leading zero, and reads back as n |
| `Decimal.IntToStringDigits` | build/scripts-3.6/stormpath-tenant-usage.py:166 | `%d` of a negative number is a minus sign followed by the digits of its magnitude; of any other number, digits that read back as the number |
| `Decimal.IntToStringInjective` | build/scripts-3.6/stormpath-tenant-usage.py:166 | distinct integers have distinct `%d` renderings |
| `Decimal.ParseIntOfIntToString` | build/scripts-3.6/stormpath-tenant-usage.py:284 | `int()` reads back every integer `%d` writes, negative numbers included |
| `Decimal.ParseIntIgnoresSpace` | build/scripts-3.6/stormpath-tenant-usage.py:284 | `int()` gives the same result with any run of space, \t, \n, \v, \f or \r before and after its argument |
| `Decimal.ParseIntAccepts` | build/scripts-3.6/stormpath-tenant-usage.py:284 | `int()` succeeds exactly when the stripped string is one or more digits, possibly after a single `+` or `-` |
| `Decimal.ParseIntOfPlusSign` | build/scripts-3.6/stormpath-tenant-usage.py:284 | `int()` reads a non-negative numeral after a plus sign as its value |
| `Decimal.ParseIntOfZeroPadded` | build/scripts-3.6/stormpath-tenant-usage.py:284 | `int()` reads a numeral with leading zeros, unsigned or after either sign, as the value of its digits (`"007"` and `"+007"` are 7, `"-0"` is 0) |
| `Calendar.DaysInMonth` | build/scripts-3.6/stormpath-tenant-usage.py:122 | a month has 28 to 31 days; February has 29 exactly in Gregorian leap years |
| `Calendar.AddMonths` | build/scripts-3.6/stormpath-tenant-usage.py:122-129 | a shift by m months succeeds exactly when the target month is in years 1..9999; it then moves the month index by exactly m, clamps the day to the target month's length, and keeps hour, minute, second and microsecond |
| `Calendar.AddMonthsZero` | build/scripts-3.6/stormpath-tenant-usage.py:120-124 | a zero shift is the identity, so period 2 fits the general rule with its end at the cycle start |
| `Calendar.AddMonthsIncreasing` | build/scripts-3.6/stormpath-tenant-usage.py:126-129 | a larger offset gives a strictly later datetime, whatever the day clamping did |
| `Calendar.AddMonthsDefinedBetween` | build/scripts-3.6/stormpath-tenant-usage.py:126-131 | when a backward shift is in range, every smaller backward shift is too |
| `Calendar.ClampExample` | build/scripts-3.6/stormpath-tenant-usage.py:122 | one month before 31 March is 28 February (29 in a leap year), and one month after 28 February is 28 March: shifts do not compose |
| `Calendar.OutOfRangeExample` | build/scripts-3.6/stormpath-tenant-usage.py:122 | a shift from January of year 1 back one month raises |
| `TimestampFormat.Format` | build/scripts-3.6/stormpath-tenant-usage.py:117-118 | the formatted timestamp has 19 characters |
| `TimestampFormat.Parse` | build/scripts-3.6/stormpath-tenant-usage.py:371-372 | parsing succeeds exactly when the string follows the zero-padded layout and its fields form a valid datetime; the result has each field's digits as its value and no microseconds |
| `TimestampFormat.ParseFormat` | build/scripts-3.6/stormpath-tenant-usage.py:117-118 | parsing a formatted datetime gives the datetime back to the second |
| `TimestampFormat.FormatInjective` | build/scripts-3.6/stormpath-tenant-usage.py:117-118 | two datetimes format alike exactly when they agree to the second |
| `TimestampFormat.ParseExample` | build/scripts-3.6/stormpath-tenant-usage.py:20-21 | the help text's example parses; 29 February 2015 and a timestamp without seconds are rejected |
| `ExportFiles.PathJoin` | build/scripts-3.6/stormpath-tenant-usage.py:166 | an absolute name replaces the directory; a relative one gives a path that starts with the directory and ends with the name, with exactly one slash between them when the directory is not empty, added only when the directory does not already end in one |
| `ExportFiles.CsvPathInjective` | build/scripts-3.6/stormpath-tenant-usage.py:166 | different period indices give different export paths |
| `ExportFiles.CsvPathLayout` | build/scripts-3.6/stormpath-tenant-usage.py:286-306 | for a non-empty tenant name that does not end in a slash, the path string handed to `open()` for period k is `<base>/<tenant>/<k>-<tenant>.csv`, with base `<home>/stormpath-tenant-usage/` for the default location and the -l value otherwise |
| `ExportFiles.HeaderColumns` | build/scripts-3.6/stormpath-tenant-usage.py:263-266 | the header has 6 columns in verbose mode and 7 otherwise, the first five are the same key columns, and the two headers differ |
| `ExportFiles.SplitJoin` | build/scripts-3.6/stormpath-tenant-usage.py:270-271 | splitting a `\|`-joined row gives back its fields when none holds the delimiter |
| `ExportFiles.HeaderRowRoundTrip` | build/scripts-3.6/stormpath-tenant-usage.py:263-271 | the header row is written without quotes, so splitting the written line gives back the header |
| `BillingPeriods.Insert` | build/scripts-3.6/stormpath-tenant-usage.py:116-127 | dict assignment keeps each key listed once and the listed keys equal to the map's keys; it sets the value; a new key goes last, an existing key keeps its place |
| `BillingPeriods.SetBillingPeriodsOfNumeral` | build/scripts-3.6/stormpath-tenant-usage.py:281-284 | a numeral argument, with any run of whitespace `int()` ignores on either side, gives its value, zero and negative values included; a non-negative one may also carry a plus sign |
| `BillingPeriods.SetBillingPeriodsZeroPadded` | build/scripts-3.6/stormpath-tenant-usage.py:281-284 | a count with leading zeros, unsigned or after either sign and with any whitespace `int()` ignores around it, gives the value of its digits: `-b 02` asks for two periods |
| `BillingPeriods.SetBillingPeriodsDefault` | build/scripts-3.6/stormpath-tenant-usage.py:281-284 | no argument or an empty one gives 1; any other argument, a blank one included, is an error exactly when its stripped form is not a numeral |
| `BillingPeriods.PeriodDatesDefined` | build/scripts-3.6/stormpath-tenant-usage.py:114-131 | when the oldest period is in range, every period 1..N is defined and its bounds are valid datetimes |
| `BillingPeriods.CountDown` | build/scripts-3.6/stormpath-tenant-usage.py:112-131 | the insertion order is N, N−1, …, 1, and empty for N ≤ 0 |
| `BillingPeriods.PeriodFor` | build/scripts-3.6/stormpath-tenant-usage.py:115-130 | one loop pass of `get_timestamps` fails exactly when its start shift is out of range; otherwise it yields period num of the resolver's rule, formatted |
| `BillingPeriods.InsertPeriod` | build/scripts-3.6/stormpath-tenant-usage.py:114-131 | inserting period num extends the periods built so far by one step of the count-down |
| `BillingPeriods.GetTimestamps` | build/scripts-3.6/stormpath-tenant-usage.py:106-131 | the loop fails exactly when the oldest period starts before year 1; otherwise the keys are exactly 1..N (none for N ≤ 0), inserted from N down to 1; period 1 is the current cycle reformatted, and every period k is the resolver's period k, formatted |
| `BillingPeriods.AddPeriod` | build/scripts-3.6/stormpath-tenant-usage.py:114-131 | one pass of the loop fails exactly when the oldest period is out of range; otherwise it extends the periods built so far by period num |
| `BillingPeriods.PeriodsContiguous` | build/scripts-3.6/stormpath-tenant-usage.py:120-130 | for k ≥ 2, the end of period k is the start of period k−1 |
| `BillingPeriods.PeriodOrdered` | build/scripts-3.6/stormpath-tenant-usage.py:122-129 | for k ≥ 2, period k starts strictly before it ends, spans one month step, and keeps the cycle start's time of day |
| `BillingPeriods.PeriodsDisjoint` | build/scripts-3.6/stormpath-tenant-usage.py:120-130 | an older period ends no later than a newer one starts |
| `BillingPeriods.PeriodTextOrdered` | build/scripts-3.6/stormpath-tenant-usage.py:117-129 | a derived period's start and end strings parse back to its dates, and the start is strictly before the end |
| `BillingPeriods.DocumentedExample` | build/scripts-3.6/stormpath-tenant-usage.py:83-88 | the docstring's example: a cycle starting 2017-03-19 18:09:47 gives periods starting 2017-02-19 and 2017-01-19 at the same time of day |
| `BillingPeriods.ThreePeriodExample` | build/scripts-3.6/stormpath-tenant-usage.py:115-130 | a cycle starting 2024-01-01 gives December and November 2023 as periods 2 and 3 |
| `BillingPeriods.MonthEndExample` | build/scripts-3.6/stormpath-tenant-usage.py:122-129 | a cycle starting 31 March gives [28 Feb, 31 Mar) and [31 Jan, 28 Feb), which still meet |
| `BillingPeriods.ExplicitTimestamps` | build/scripts-3.6/stormpath-tenant-usage.py:368-374 | an explicit range fails exactly when one of its bounds does not parse; otherwise the dict holds the single key 1 with the parsed bounds, which are not compared |
| `TenantUsage.QueryRedshift` | build/scripts-3.6/stormpath-tenant-usage.py:163-167 | one export per dict entry, in insertion order, each with its dict entry's bounds, the query and header the verbosity selects, and the path `<location>/<k>-<tenant>.csv`; no two exports share a path |
| `TenantUsage.DistinctPaths` | build/scripts-3.6/stormpath-tenant-usage.py:166 | the exports of distinct dict keys are written to distinct paths |
| `TenantUsage.DerivedExports` | build/scripts-3.6/stormpath-tenant-usage.py:163-167 | the exports of get_timestamps' dict are indexed N down to 1, and the export at position j carries period N−j of the resolver's rule |
| `TenantUsage.ExportPeriods` | build/scripts-3.6/stormpath-tenant-usage.py:368-378 | with both -y and -z the explicit range decides: an unparsable bound is an error, otherwise one export keyed 1 with the parsed range; otherwise a missing cycle row means the tenant is not found, and a present one gives max(N, 0) exports indexed N down to 1, each with its period, or an error exactly when the oldest period is out of range; every export has the path, header and query of QueryRedshift |
| `TenantUsage.Run` | build/scripts-3.6/stormpath-tenant-usage.py:365-382 | no credentials, then an invalid count, are errors; an explicit range gives exactly one export keyed 1 whatever the count; a missing tenant is an error; otherwise the run fails exactly when the oldest period is out of range, and else there are max(N, 0) exports, indexed N down to 1, each carrying its period; an unparsable explicit bound is an error; every export's path string is the CSV name joined to the tenant directory `set_location` returns, with the selected header; notification happens exactly when both -e and -s are given |
| `TenantUsage.RepromptOnlyWhenAllEmpty` | build/scripts-3.6/stormpath-tenant-usage.py:327-329 | `configure` asks again exactly when all five answers are empty; one non-empty answer is enough to go on |
| `TenantUsage.Configure` | build/scripts-3.6/stormpath-tenant-usage.py:318-351 | the saved credentials are the stripped answers of the first round that is not all empty and connects; every earlier round was rejected; with no such round nothing is saved once the answers run out |
| `TenantUsage.AlphabetChar` | build/scripts-3.6/stormpath-tenant-usage.py:228 | each of the 62 symbols is an ASCII letter or digit, and distinct positions give distinct symbols |
| `TenantUsage.Passphrase` | build/scripts-3.6/stormpath-tenant-usage.py:228 | the passphrase has exactly 12 symbols, each an ASCII letter or digit, the one at the drawn position |
| `TenantUsage.PassphraseInjective` | build/scripts-3.6/stormpath-tenant-usage.py:228 | distinct draws give distinct passphrases |

## Behaviour of note

- `configure` asks again only when all five stripped answers are empty (line 327,
  `RepromptOnlyWhenAllEmpty`). A partly empty set of answers goes on to the connection attempt.
- The count is whatever integer `int()` reads (line 284), so zero and negative counts are
  accepted. For N ≤ 0 the loop at lines 114-131 never runs: no period, no export.
- `start < end` holds for the derived periods k ≥ 2 (`PeriodOrdered`). The explicit `-y/-z` bounds
  (lines 368-375) are never compared, and period 1 is whatever the warehouse returns.
- When the tenant has no cycle row, line 103 calls an undefined `logger`, so the run stops with a
  NameError before its `exit(1)`. Either way it ends without exports, which the model records as
  `Err(TenantNotFound)`.
- With the default location the returned directory is `<home>/stormpath-tenant-usage//<tenant>`,
  with a doubled slash (lines 292 and 305).

## Left out

- The Redshift connection, cursor and SQL text. The filtering, grouping and ordering happen in
  the warehouse, which is not modelled: `Query` only tells the two query shapes apart.
- The rows `writerows(self.cur)` writes after the header. The aggregated query returns 8
  columns (count, five keys, min and max timestamp) against a 7-column header; the model does
  not represent rows, so it states nothing about this mismatch.
- Directory creation and `chdir` in `set_location` and `send_email`: file-system effects. Only
  the returned path string is modelled (`SetLocation`). Two consequences are therefore not
  captured. First, with a relative -l, the `chdir(location)` at line 296 or 302, when it runs, makes `open()`
  at line 268 resolve the path below `location` a second time. Second, the existence test at
  lines 295 and 301 looks at `location + tenant` with no separator; with a non-default location
  that does not end in a slash, a second run finds `<location>/<tenant>` already present, and
  `makedirs` raises FileExistsError where `Run` returns a plan.
- The `zip` call, the S3 upload and presigned URL, the Mandrill email and the Twilio SMS: these
  are external services. `Plan.notify` only records whether they would be attempted.
- The random source: `Passphrase` takes the twelve drawn indices as a parameter.
- `configure`'s terminal input, JSON file and `chmod`. The connection attempt is the `connects`
  parameter. Running out of answers stands for end of input. A failure while writing the file
  is not modelled.
- docopt parsing (an `Arguments` value stands for its result), logging, `print(arguments)`, and
  `setup.py`, which is packaging metadata.
- `TimestampFormat.Parse`: accepts only the zero-padded 19-character layout that `Format`
  writes. `strptime` also accepts one-digit fields, a space-padded day and runs of whitespace;
  the model rejects those.
- `TimestampFormat.Format`: pads the year to four digits. For years before 1000 the C library's
  `%Y` may print fewer digits.
- `Decimal.ParseInt`: strips space and \t, \n, \v, \f, \r only. It does not accept the underscores or
  non-ASCII digits that Python 3.6's `int()` accepts.
- `ParseIntAccepts`: "exactly when" holds for the numerals modelled here; Python 3.6's `int()`
  also accepts underscores between digits (`"1_0"`), non-ASCII digits and non-ASCII whitespace,
  which `Decimal.ParseInt` rejects.
- `Decimal.Strip`: strips space and \t, \n, \v, \f, \r only. `str.strip()`, used by `configure`,
  also strips \x1c-\x1f and non-ASCII whitespace; `int()` also ignores non-ASCII whitespace.
- Time zones: warehouse timestamps are naive datetimes.
