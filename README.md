# QR URL safety backend: labelling rule and bucket state machine

This project models the decision logic of the QR security backend in Dafny.
The backend takes a URL, usually decoded from a QR image, and labels it 안전 (safe), 의심 (suspicious) or 위험 (dangerous).
It then files the URL in three MySQL tables:

- `reports` counts every scan.
- `suspected` holds suspicious URLs that users may report.
- `warning` holds the URLs the dashboard lists.

The model has two parts.

- **Analysis** (`qr-backend/analyze_url.py`).
  - The domain is `netloc or path`.
  - `ssl_valid` means the redirected URL starts with `https://`.
  - The WHOIS creation date is written with `strftime("%Y-%m-%d %H:%M:%S")`. When WHOIS returns a list, its first element is used.
  - `check_virustotal` maps its inputs to a summary string.
  - The first-match-wins rule maps these signals to a label.
  - `AnalyzeUrl` is a method that, like the source, starts from the default result dictionary and overwrites its fields one by one.
  - The outcomes of `urlparse`, the WHOIS lookup, the HTTP fetch and the VirusTotal request are parameters.
- **Record store** (`qr-backend/app.py`).
  - The three tables are maps from `original_url` to a row with the schema's columns, including the per-table AUTO_INCREMENT `id`.
  - `Saved` and `Reported` give the effect of `save_report` and `report_qr` as functions from tables to tables.
  - The class `Store` holds the three maps as fields. Its methods `SaveReport` and `ReportQr` update them in place, and each is proved to produce exactly what `Saved` or `Reported` gives.
  - The module `StoreLaws` proves the lifecycle properties about those functions.

Modules:

- `Optional`: the Option type.
- `Decimal`: decimal text, as `str(int)` writes it.
- `DateFormat`: the date format and its parser.
- `VirusTotal`: `check_virustotal` and a reader for its summary.
- `UrlAnalysis`: the labels, the signals, the rule and `AnalyzeUrl`.
- `RecordStore`: rows, tables, the two operations, the invariants and the `Store` class.
- `StoreLaws`: the lemmas about the two operations.

Behaviour of the code worth knowing:

- There is no promotion after three suspicious scans. The `suspected` insert is `INSERT IGNORE`, which never counts anything. Only user reports move a URL to `warning`. `StoreLaws.RepeatedSuspiciousScans` proves that repeated suspicious scans never touch `warning`.
- `suspected` has no occurrence counter of its own, and its `count` stays at 1.
- When a URL moves, the copied `warning` row keeps the `suspected` row's `id`, `created_at` and `reported_count`. This `reported_count` is the value before the final report, because the code never stores the incremented count before copying.
- The move is an `INSERT IGNORE ... SELECT *` followed by an unconditional `DELETE`. If `warning` already holds another row with the same `id`, the copy is ignored. Unless `warning` already has a row for this URL, the URL is then in neither table.
- A dangerous scan of a URL that is in `suspected` leaves it there, so the URL is in both `suspected` and `warning`.

## Model

| member | source | states |
|---|---|---|
| `DateFormat.FormatParse` | qr-backend/analyze_url.py:95-96 | Parsing the `%Y-%m-%d %H:%M:%S` text of any valid `datetime` gives back the same date and time with no microseconds, so the year is the creation year |
| `DateFormat.CreationInstant` | qr-backend/analyze_url.py:72-79 | A single `datetime` reply gives that date. For a list reply, the first element decides, and a `datetime` there gives that date. There is a date exactly in these two cases. An empty list, a missing value, text or a failed lookup give none |
| `DateFormat.CreationDateTextParses` | qr-backend/analyze_url.py:73-77 | `whois_creation_date` is set exactly when WHOIS gave a `datetime`. It is then 19 characters long and parses back to that date |
| `VirusTotal.SummaryRoundTrip` | qr-backend/analyze_url.py:35-39 | The four tallies can be read back from the 200 summary string, negative ones included |
| `VirusTotal.CheckVirusTotalOutcomes` | qr-backend/analyze_url.py:19-46 | No key (unset or empty) gives exactly "API key not set". A 404 gives exactly "URL not found in VT". The text reads back as tallies exactly for a 200, with each missing stat 0. It starts with "error: " exactly when the request raised or returned another status. The rest is then the exception's text, or the status number read back as an integer |
| `UrlAnalysis.DomainOf` | qr-backend/analyze_url.py:66-68 | The domain is the netloc when it is non-empty, else the path. It is empty only when both are empty |
| `UrlAnalysis.SslValid` | qr-backend/analyze_url.py:82-87 | `ssl_valid` holds exactly when the fetch succeeded and the final URL starts with the eight characters `https://`. A failed fetch gives false |
| `UrlAnalysis.ClassifyWithoutHttps` | qr-backend/analyze_url.py:93-94 | Without HTTPS the label is 위험 whatever the creation date |
| `UrlAnalysis.ClassifyByYear` | qr-backend/analyze_url.py:95-100 | With HTTPS and a creation date, the label is 의심 for a year of 2023 or later and 안전 otherwise |
| `UrlAnalysis.ClassifyWithoutDate` | qr-backend/analyze_url.py:101-102 | With HTTPS and no creation date the label is 의심 |
| `UrlAnalysis.ClassifySignals` | qr-backend/analyze_url.py:92-102 | From the derived signals the rule always gives a label. 위험 holds iff there is no HTTPS. 안전 holds iff there is HTTPS and a creation year before 2023. 의심 holds iff there is HTTPS and either no date or a year of 2023 or later |
| `UrlAnalysis.NameInjective` | qr-backend/analyze_url.py:92-102 | The three label names are distinct, so the stored name determines the label |
| `UrlAnalysis.AnalyzeUrl` | qr-backend/analyze_url.py:49-107 | If `urlparse` raises, the result is the default plus the exception's text under `error`. Otherwise domain, creation date, `ssl_valid`, `final_url` (`None` when the fetch failed) and the VirusTotal score come from their derivations, `phishtank_result` is false, and a label is always set with no `error` key |
| `RecordStore.SavedValid` | qr-backend/app.py:99-192 | `save_report` keeps ids unique and below the AUTO_INCREMENT counter, `reports` counts at 1 or more, `suspected` rows suspicious with fewer than 3 reports, and `warning` rows dangerous or suspicious |
| `RecordStore.SelectById` | qr-backend/app.py:214-221 | With unique ids, the rows carrying a `suspected` row's `id` are exactly the row at its URL. So the copy, delete and update by `id` act on the URL's row, and deleting by `id` is deleting that URL |
| `RecordStore.ReportedValid` | qr-backend/app.py:197-230 | `report_qr` keeps the same invariants, including id uniqueness in `warning` after the copy |
| `RecordStore.Store.constructor` | qr-backend/app.py:62-94 | `init_db` on an empty database gives three empty tables whose AUTO_INCREMENT starts at 1 |
| `RecordStore.Store.SaveReport` | qr-backend/app.py:99-192 | The in-place update of the three maps produces exactly `Saved` of the old tables and keeps the invariants |
| `RecordStore.Store.ReportQr` | qr-backend/app.py:197-230 | The in-place update and the answer are exactly `Reported` of the old tables, and the invariants are kept |
| `StoreLaws.SaveUnstorable` | qr-backend/app.py:73-78 | A value wider than its column makes `save_report` change nothing |
| `StoreLaws.SaveCreatesReport` | qr-backend/app.py:128-144 | A new URL gets exactly one new `reports` row. It has count 1, no reports, `created_at` now and the analysis columns. Other rows are unchanged |
| `StoreLaws.SaveRefreshesReport` | qr-backend/app.py:107-127 | An existing row gets count plus one and all analysis columns overwritten. It keeps its id, creation time and `reported_count`. Other rows are unchanged |
| `StoreLaws.SaveKeepsRows` | qr-backend/app.py:99-192 | A scan deletes no row, lowers no count and changes no existing `suspected` or `warning` row |
| `StoreLaws.ReportKeepsRows` | qr-backend/app.py:197-230 | A report leaves `reports` as it was, deletes or changes no `warning` row, and only ever deletes `suspected` rows |
| `StoreLaws.SuspiciousScan` | qr-backend/app.py:147-165 | After a 의심 scan the URL is in `suspected`. An existing row is left exactly as it was. Otherwise one new row is added with no reports. `warning` is untouched |
| `StoreLaws.DangerousScan` | qr-backend/app.py:167-185 | After a 위험 scan the URL is in `warning`, and an existing row there wins. `suspected` is untouched |
| `StoreLaws.DangerousScanIdempotent` | qr-backend/app.py:167-185 | A second dangerous scan changes neither `suspected` nor `warning` |
| `StoreLaws.OtherVerdictScan` | qr-backend/app.py:146-185 | A 안전 label or no label changes neither `suspected` nor `warning` |
| `StoreLaws.ReportWithoutUrl` | qr-backend/app.py:200-203 | A missing or empty `url` gives the first 400 answer, and nothing changes |
| `StoreLaws.ReportNotSuspected` | qr-backend/app.py:207-212 | A URL absent from `suspected` gives the second 400 answer, and nothing changes |
| `StoreLaws.ReportBelowThreshold` | qr-backend/app.py:214-225 | Below 3, the answer is the old `reported_count` plus one. Only that row's `reported_count` changes |
| `StoreLaws.ReportAtThreshold` | qr-backend/app.py:214-225 | At 3 or more, the answer is the new count and the URL leaves `suspected`. It is in `warning` iff it was there already or no `warning` row has its id. A copied row is the `suspected` row as stored. Other `warning` rows and `reports` are unchanged |
| `StoreLaws.ThreeReportsEscalate` | qr-backend/app.py:207-219 | From a fresh `suspected` row, three reports answer 1, 2 and 3 and remove the URL from `suspected`. A fourth is rejected with no change. A later 의심 scan re-creates the row with no reports |
| `StoreLaws.RepeatedScansCount` | qr-backend/app.py:107-111 | After `n` scans of one URL its `reports` count is the old count plus `n` (0 for a new URL) |
| `StoreLaws.RepeatedSuspiciousScans` | qr-backend/app.py:147-165 | Any number of 의심 scans leave `suspected` as the first scan left it and never touch `warning`. There is no occurrence-based promotion |

## Left out

- Flask: routing, CORS, the `after_request` headers, the OPTIONS answer, multipart upload, file saving and JSON response shaping in `decode_qr_route` and `get_warning`. These are transport. Of `report_qr`, only its table effect and its 400/200 decision are modelled.
- The 500 paths of `report_qr`. A request body that is not JSON and database outages raise before `commit`, so they give 500 and change nothing. `save_report` catches every exception itself, so a scan whose save fails still gets its 200 answer with nothing stored. This is the unchanged state that `Saved` gives for that case.
- The type of `url`. The model takes the `url` field as `Option<string>`. JSON values of other types (numbers, booleans, lists, objects) are not modelled.
- MySQL connections, cursors, commits and the DDL of `init_db`. The constructor stands for an empty database after `init_db`. Each route is one atomic step.
- Key comparison. Keys are compared as exact strings. MySQL's default `utf8mb4` collation compares case- and accent-insensitively, so the database would merge URLs that differ only in letter case.
- Strict SQL mode. `Storable` assumes MySQL's default strict mode, in which an over-long VARCHAR value raises. Without strict mode the value would be truncated and stored.
- `analysis_json` is kept as the analysis value, not as JSON text. A TEXT column cannot overflow for values within the VARCHAR limits.
- `count` and `reported_count` are unbounded. The 32-bit `INT` limit of MySQL is not modelled, because no real scan count reaches it.
- Row ids are one admissible allocation: each table's counter advances when a row is inserted. InnoDB may also skip values on ignored inserts or rolled-back statements. `StoreLaws.ReportAtThreshold` states the id collision for whatever ids the rows carry.
- Concurrency. Concurrent `report_qr` calls on one URL race in the read-increment-write, and there is no lock. The model is sequential.
- External lookups are inputs. These are the WHOIS library, `requests.get` with redirects, the VirusTotal HTTP call with its base64url URL id, and `urlparse` (given as its netloc and path, or as raising). The text of an exception (`str(e)`) is an input string too.
- `DateFormat.Format` zero-pads years to four digits. Older CPython builds on glibc wrote years below 1000 without padding, and no WHOIS creation date is that old.
- `DateFormat.Parse` accepts only the zero-padded fixed-width form. `strptime` also accepts unpadded months, days and times, but only text written by `Format` ever reaches it.
- The `label` default of `save_report` (`.get("label", "의심")`) never applies, because `analyze_url` always sets the key. A `None` label is stored as NULL and changes only `reports`.
- `phishtank_result` is the constant false of `analyze_url`, carried as a column.
- QR image decoding (`qr-backend/qr_decoder.py`) and the React frontend.
