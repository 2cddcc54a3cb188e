# Service quota checker — a Dafny model

`service_quota_check.py` reports, for one AWS region or for every active
region, the EC2 capacity reservations and a fixed set of EC2 service quotas.
It collects one CSV row per reservation and per quota lookup in the checker's
`csv_data` list. `main` gathers these rows across regions and writes them to
a CSV file.

This project models how those rows come about:

- **`get_quota`**: one quota lookup. It retries after a 2-second sleep while
  the service answers with a `TooManyRequestsException`, and otherwise appends
  exactly one normalised row: the quota on success, or `'Not available'` on
  any other error.
- **`get_capacity_reservations`**: builds one dict and one row per
  reservation, in response order.
- **`get_compute_quotas`**: resolves the instance family (the text before the
  first `.`) to a quota code through the static table, falling back to
  `L-34B43A08`. It then looks up that code and the spot-request code.
- **`get_gpu_quotas`**: four lookups in a fixed order.
- **`generate_report`**: the reservations, then the compute lookups when an
  instance type is given, then the GPU lookups.
- **`get_active_regions` and `validate_region`**: region discovery and
  validation.
- **`main`**: the region loop. An invalid `--region` stops the run before
  anything is written. A region whose report raises adds no rows.
- **`print_quota_section`**: the rule that truncates a displayed quota name.

The two AWS clients are modelled by what they answer:

- the Service Quotas client is the finite sequence of outcomes it still has
  to give, one per `get_service_quota` attempt;
- `describe_capacity_reservations` is the one response it gives in a region;
- `describe_regions` is one response, shared by `get_active_regions` and
  `validate_region`;
- `world` maps each region name to what that region's clients answer.

If the outcomes run out while the service is still throttling, the model
treats the lookup as raising. This is the model's stand-in for an exception
that escapes `generate_report`, which `main`'s per-region `try` catches; it
is not what the program does under sustained throttling (see "## Left out").

Modules:

- `Strings` (strings.dfy): Python's substring test and `str()` of an integer.
- `Quotas` (quotas.dfy): values, plus the specification functions for:
  - one lookup (`LookupQuota`);
  - a sequence of lookups, folded over a `Progress` state (`Step`, `Run`);
  - the reservation listing (`ListReservations`).
- `Catalog` (catalog.dfy): the family table, the lookup lists and the display
  rule.
- `Checker` (checker.dfy): the `CapacityChecker` class. Its `csvData`,
  `quotaAnswers` and `sleeps` fields are updated in place by methods proved
  against the specification functions.
- `Cli` (cli.dfy): region discovery, validation and the region loop of
  `main`, as a function `Checked` and a method `CheckRegions` proved equal to
  it.

Where the wider design of the tool differs from the code, the model follows
the code:

- there are only the compute (on-demand and spot) and GPU sections, with no
  storage or networking sections and no dedicated hosts;
- every failed lookup becomes `'Not available'`, never "Unable to fetch";
- a region that fails partway keeps none of its rows in the CSV data.

## Model

| member | source | states |
|---|---|---|
| Strings.Contains | service_quota_check.py:47-51 | Python's `sub in s`: true exactly when some slice of `s` equals `sub` |
| Strings.NatToStringRoundTrip | service_quota_check.py:85 | the decimal digits written for a count read back to that count |
| Strings.IntToString | service_quota_check.py:85 | `str()` of an integer: at least one character, a leading `-` exactly for a negative integer, digits everywhere else; `IntToStringInjective` states that it determines the integer |
| Strings.IntToStringInjective | service_quota_check.py:85 | two integers that print alike are equal |
| Quotas.CountsText | service_quota_check.py:85 | the `Current_Limit` text the program writes for a reservation, `Total: n, Available: m`; the model's row holds the two counts (`Limit.Counts`) and this is the text they stand for; `CountsTextInjective` states that it determines both counts |
| Quotas.CountsTextInjective | service_quota_check.py:85 | the text `Total: n, Available: m` determines both counts |
| Quotas.Classify | service_quota_check.py:46-54 | an error is rate limiting exactly when its message contains `TooManyRequestsException`; it is not-found exactly when it is not rate limiting and contains `NoSuchResourceException`, so throttling is tested first |
| Quotas.InfoOf | service_quota_check.py:31-35 | the dict of a non-throttled attempt: the provider's name, value and unit on success, the default name with `Not available` and an empty unit on an error; `RecordMirrorsInfo` relates it to the row |
| Quotas.RecordOf | service_quota_check.py:37-44 | the row of a non-throttled attempt, built from the same answer as `InfoOf`; its fields are stated by `RecordMirrorsInfo` |
| Quotas.LookupQuota | service_quota_check.py:24-64 | `get_quota`'s recursion: a throttled attempt sleeps and tries again, any other answer gives its row and dict; what it computes is stated by `LookupTakesFirstAnswer`, `LookupThrottledThroughout` and `LookupUsesOneAnswer` |
| Quotas.LookupTakesFirstAnswer | service_quota_check.py:24-64 | with k throttled answers before the first other answer, a lookup sleeps k times, records that answer's row and dict, and leaves the answers after it unread |
| Quotas.LookupThrottledThroughout | service_quota_check.py:46-50 | when every remaining answer is throttling, the lookup sleeps once per answer, records nothing and never returns normally |
| Quotas.LookupUsesOneAnswer | service_quota_check.py:24-64 | a lookup returns exactly when some answer is not throttling; it consumes exactly one such answer; its row carries the checker's region, the requested service and the requested code |
| Quotas.RecordMirrorsInfo | service_quota_check.py:31-64 | the appended row and the returned dict carry the same name, value and unit; the row carries the region, service and code |
| Quotas.Step | service_quota_check.py:104-105 | one `get_quota` call made from a checker state: its row and dict appended when it is answered, the series stopped when it raises |
| Quotas.Run | service_quota_check.py:103-117 | a fixed series of `get_quota` calls in order, stopping at the first that raises; its outcome is stated by `RunRows` and `RunAppend` |
| Quotas.RunRows | service_quota_check.py:103-117 | a series of lookups keeps the rows before it; it completes exactly when at least as many non-throttling answers remain as there are lookups; it then adds one row per lookup, in lookup order with the looked-up codes; a series that raises adds one row per answered lookup and has used every answer |
| Quotas.RunAppend | service_quota_check.py:142-144 | running two series of lookups one after the other ends where running their concatenation ends |
| Quotas.Project | service_quota_check.py:71-77 | the dict built from one response entry, or nothing when one of its five keys is missing |
| Quotas.ProjectedPrefix | service_quota_check.py:70-78 | the reservations read are the dicts of the first entries, stopping at the first entry that lacks a key |
| Quotas.ProjectedPrefixUnique | service_quota_check.py:70-78 | any run of readable entries that ends at the end of the response or at an unreadable entry is the reservations read |
| Quotas.ReservationRecord | service_quota_check.py:80-87 | the row appended for one reservation; its fields are stated by `ListingFollowsResponse` |
| Quotas.ReservationRecords | service_quota_check.py:79-86 | one row per reservation, row i from reservation i |
| Quotas.ListReservations | service_quota_check.py:66-91 | what `get_capacity_reservations` returns and appends; stated field by field by `ListingFollowsResponse` |
| Quotas.ListingFollowsResponse | service_quota_check.py:66-91 | a failed call returns and appends nothing; otherwise row i comes from entry i, with service `capacity-reservation`, name `Capacity Reservation - ` + type, the reservation id as code, the counts as limit and the state as unit; reservations are returned only when no entry lacked a key, and then reservation i is the dict of entry i |
| Catalog.FamilyOf | service_quota_check.py:94 | `split('.')[0]`: the longest prefix without a dot, followed by a dot or the end |
| Catalog.FamilyBeforeDot | service_quota_check.py:94 | a family name followed by a dot and any size resolves to that family |
| Catalog.FamilyQuotaCode | service_quota_check.py:95-104 | the family's code when the table has the family, `L-34B43A08` otherwise; always one of the table's codes |
| Catalog.FamilyQuotaCodeOfP4d | service_quota_check.py:95-104 | `p4d.24xlarge` resolves to `L-417A185B` |
| Catalog.FamilyQuotaCodeOfR5 | service_quota_check.py:95-104 | `r5.large` resolves to `L-0E3CBAB9` |
| Catalog.FamilyQuotaCodeOfUnknown | service_quota_check.py:95-104 | an unknown family resolves to `L-34B43A08` |
| Catalog.ComputeRequests | service_quota_check.py:103-105 | the two lookups of `get_compute_quotas`: the family code with default name `Unknown`, then `L-34B43A08` for spot requests |
| Catalog.Given | service_quota_check.py:142 | Python truthiness of `instance_type`: present and not empty |
| Catalog.ReportRequests | service_quota_check.py:142-144 | the lookups `generate_report` makes, in order; stated by `ReportCodes` |
| Catalog.ReportCodes | service_quota_check.py:142-144 | a report looks up six `ec2` quotas when an instance type is given (the family code, then `L-34B43A08`) and four otherwise, ending with `L-DB2E81BA`, `L-417A185B`, `L-1945791B` and `L-2C3B7624` |
| Catalog.DisplayName | service_quota_check.py:123 | a name of at most 50 characters is shown unchanged; a longer one as its first 50 characters followed by `...`, 53 characters in all |
| Catalog.DisplayNameBounded | service_quota_check.py:123 | a shown name has at most 53 characters and starts like the full name |
| Checker.RegionReport | service_quota_check.py:127-144 | `generate_report` on a fresh checker: the reservation rows, then the report's lookups; stated by `RegionReportRows` |
| Checker.RegionReportRows | service_quota_check.py:127-144 | a region's report completes exactly when enough non-throttling answers remain (6 or 4); it holds the reservation rows first and then one row per lookup in lookup order; every row belongs to the region |
| Checker.CapacityChecker.constructor | service_quota_check.py:9-14 | a new checker has its region's clients and no rows |
| Checker.CapacityChecker.GetQuota | service_quota_check.py:24-64 | the retry loop sleeps once per throttled answer; it appends exactly the one row of the first other answer and returns its dict; when the answers run out while throttled it appends nothing and does not return normally |
| Checker.CapacityChecker.GetCapacityReservations | service_quota_check.py:66-91 | returns the reservations and appends the rows that `ListReservations` gives, including the rows kept when an entry lacks a key |
| Checker.CapacityChecker.GetComputeQuotas | service_quota_check.py:93-107 | ends in the state of the two-lookup series (family code, then spot) and returns both dicts in order unless a lookup raised |
| Checker.CapacityChecker.GetGpuQuotas | service_quota_check.py:109-117 | ends in the state of the four GPU lookups in order and returns their dicts unless a lookup raised |
| Checker.CapacityChecker.GenerateReport | service_quota_check.py:127-144 | appends the reservation rows, then runs the report's lookups; returns normally exactly when that series completes |
| Cli.ActiveRegions | service_quota_check.py:16-22 | the region names of the `describe_regions` response, in response order; `['us-east-1']` when the call fails |
| Cli.ValidateRegion | service_quota_check.py:184-191 | `validate_region`: the region is named in the `describe_regions` response, and a failed call validates nothing |
| Cli.ValidRegionsAreActive | service_quota_check.py:184-191 | a valid region is active, and the only active region that is not valid is the us-east-1 fallback of a failed discovery |
| Cli.RegionRows | service_quota_check.py:228-233 | the rows one region adds to the CSV data: all of its checker's rows when the report returns, none when it raises; stated by `RegionRowsBelong` |
| Cli.AllRows | service_quota_check.py:223-233 | the CSV data gathered over a list of regions, in list order; stated by `AllRowsFromCompletedRegions` |
| Cli.Checked | service_quota_check.py:201-238 | `main` as a function of its inputs: the invalid-region stop, else the rows of the given region or of every active region; stated by `InvalidRegionStops` and `CheckedRowsFromCompletedRegions` |
| Cli.InvalidRegionStops | service_quota_check.py:202-204 | a run ends with the invalid-region message exactly when a non-empty region is given and is not valid |
| Cli.RegionRowsBelong | service_quota_check.py:211-216 | a region's rows all belong to it, and it has rows only if its report completed |
| Cli.AllRowsFromCompletedRegions | service_quota_check.py:223-233 | every row gathered over the regions belongs to one of them whose report completed |
| Cli.CheckedRowsFromCompletedRegions | service_quota_check.py:201-238 | every row written belongs to a completed report of the given region, or of an active region when none is given |
| Cli.CheckRegion | service_quota_check.py:228-233 | a fresh checker's rows are kept exactly when its report returns normally |
| Cli.CheckRegions | service_quota_check.py:193-238 | the region loop computes `Checked`: stop on an invalid region, otherwise the rows of each completed region in discovery order |

## Left out

- Network calls to AWS. The boto3 clients become the answers they give, as
  described above. Exceptions raised while constructing a client are not
  modelled.
- A `get_service_quota` response that lacks a key raises a `KeyError`. The
  `except` clause treats it like any other error, so the model represents it
  as an `Error` outcome whose message has neither marker.
- Python's recursion depth limit. Each throttled retry adds a `get_quota`
  frame (service_quota_check.py:50). The limit is most likely first exceeded
  inside the client call at line 27, within the `try`. There `except
  Exception` (line 46) catches the `RecursionError`, whose message has
  neither marker. The program would then record a `'Not available'` row and
  carry on. The model instead treats running out of answers while throttled
  as the lookup raising, and the region then keeps no rows. It does not
  model how many retries Python allows.
- `time.sleep(2)`. The sleeps are counted in the `sleeps` field; time itself
  is not modelled.
- Console output. This covers all prints, the report header with its
  timestamp, and the guidance text. Only the truncation rule of
  `print_quota_section` is modelled (`DisplayName`).
- `write_csv_report`. The file name with its timestamp and CSV quoting are
  not modelled. The rows handed to it are the `rows` of `CsvWritten`, in the
  field order of `Record`.
- Argument parsing and the unused `--service` option. The parsed options are
  the `Args` value.
- The quota value. It is a `real` and is never computed with.
- Reservation counts. A row holds them as the two integers
  (`Limit.Counts`); their text is `CountsText`, which is proved readable back.
- The numbers in `Limit.Number`. Their textual form is not modelled.
