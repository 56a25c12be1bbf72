# Selic tools: simulation and CSV export

A Dafny model of the two pieces of logic in `SelicController` of the Selic
tools web application. The application fetches the Brazilian central bank's
daily Selic rate series (records `{"data": "DD/MM/YYYY", "valor": "0,035"}`)
for a date range, and the controller either

- `simular`: compounds a principal over the series, multiplying the running
  total once per record, in series order, by `1 + (rate / 100) / 252`, where
  the rate is the record's text with every `,` replaced by `.` and then read
  as a number; the result is rounded to two decimals and returned as
  `{"valorfinal": …}`; or
- `exportar`: refuses with status 400 and a message naming both requested
  dates when the fetched data is not an array, is empty, or its first record
  has no `data`; otherwise it builds `Data;Valor\n` followed by one
  `date;value\n` line per record and returns it with status 200 and CSV
  download headers.

Files:

- `selic_data.dfy` (module `SelicData`): records, the decoded payload, the
  HTTP response.
- `text.dfy` (module `Text`): the comma-to-point substitution applied to a
  rate, and the line and field structure used to read a CSV document back.
- `simulation.dfy` (module `Simulation`): the daily factor, the left fold
  `Compound` that specifies the loop, its closed form as a product, and the
  method `Simulate` with the loop of `simular`.
- `csv_export.dfy` (module `CsvExport`): the guard, the error message, the
  CSV document, the response, and the method `Export` with the accumulating
  loop of `exportar`.

The fetched series is a parameter of both methods. So are the functions that
the model does not interpret: the float cast of a rate (`parse`), PHP's
`round($total, 2)` (`round`) and `number_format(…, 6, ',', '')` (`format`).
Arithmetic is over `real`.

Two things the code does that a reader may not expect:

- The value cell of the CSV is `number_format` applied to the record's raw
  rate text. That text still holds its decimal comma, unlike the text read in
  `simular`, where the comma is replaced first. The model applies `format` to
  the raw text and makes no claim about what PHP produces for it; for text
  with a decimal comma PHP raises a warning, which the framework turns into
  an exception (see "Left out").
- Only the first record's date is checked. A later record whose `data` is
  null is not refused: string interpolation renders it as an empty string, so
  its line starts with `;`.

## Model

| member | source | states |
|---|---|---|
| `Text.CommaToDot` | app/Http/Controllers/SelicController.php:26 | the rate text after `str_replace(',', '.', …)` has the same length, and each position holds `.` where the input held `,` and the input's character elsewhere |
| `Text.CommaToDotLeavesNoComma` | app/Http/Controllers/SelicController.php:26 | no comma is left after the substitution |
| `Text.CommaToDotIdentity` | app/Http/Controllers/SelicController.php:26 | a rate text without commas is left unchanged |
| `Text.CommaToDotIdempotent` | app/Http/Controllers/SelicController.php:26 | substituting twice is the same as substituting once |
| `Text.CommaToDotIgnoresSeparator` | app/Http/Controllers/SelicController.php:26 | two texts that differ only by `,` versus `.` at the same positions give the same substituted text |
| `Simulation.DailyFactor` | app/Http/Controllers/SelicController.php:26-27 | the factor `1 + (rate / 100) / 252` of one record, with the rate read after the comma substitution; it is 1 for a rate reading as zero, at least 1 for a non-negative rate and below 1 for a negative one |
| `Simulation.Accrue` | app/Http/Controllers/SelicController.php:27 | one step of `$total *=`: the running total times the record's daily factor; its properties are stated by the fold lemmas below |
| `Simulation.Compound` | app/Http/Controllers/SelicController.php:25-28 | the left fold of `Accrue` over the series in order, starting from the principal; its properties are stated by `CompoundAppend`, `CompoundSnoc`, `CompoundIsPrincipalTimesProduct`, `ZeroRatesKeepTotal` and `CompoundNeverShrinks` |
| `Simulation.DailyFactorIgnoresSeparator` | app/Http/Controllers/SelicController.php:26-27 | a rate written with a decimal comma and the same rate written with a point give the same daily factor |
| `Simulation.CompoundAppend` | app/Http/Controllers/SelicController.php:25-28 | compounding over a series split in two stretches is compounding over the first stretch and continuing from that total over the second |
| `Simulation.CompoundSnoc` | app/Http/Controllers/SelicController.php:25-28 | one more record at the end multiplies the total by `1 + (rate / 100) / 252` for that record |
| `Simulation.CompoundIsPrincipalTimesProduct` | app/Http/Controllers/SelicController.php:23-28 | the fold equals the principal times the product of all daily factors |
| `Simulation.ZeroRatesKeepTotal` | app/Http/Controllers/SelicController.php:26-27 | days whose rate reads as zero, as unreadable text does under the float cast, leave the total unchanged |
| `Simulation.CompoundNeverShrinks` | app/Http/Controllers/SelicController.php:23-28 | a non-negative principal with non-negative rates never ends below the principal |
| `Simulation.OneDayScenario` | app/Http/Controllers/SelicController.php:23-27 | one day at `0,0500` turns 1000 into `1000 * (1 + 0.0005 / 252)` before rounding |
| `Simulation.Simulate` | app/Http/Controllers/SelicController.php:20-30 | the loop returns the rounded left fold of the daily factors over the series in order, which is the rounding of the principal times their product, and the rounded principal for an empty series |
| `CsvExport.ExportRejected` | app/Http/Controllers/SelicController.php:39 | the guard: the payload is not an array, is empty, or its first record has no date; `ExportResponse` and `OnlyFirstDateChecked` state what it decides |
| `CsvExport.DateText` | app/Http/Controllers/SelicController.php:47 | a record's date as string interpolation renders it, the empty string for a missing or null date; `OnlyFirstDateChecked` states the consequence |
| `CsvExport.RowText` | app/Http/Controllers/SelicController.php:46-47 | a record's line without its newline: date, `;`, formatted raw rate text; `CsvLines` proves it splits back into date and value |
| `CsvExport.RowTexts` | app/Http/Controllers/SelicController.php:45-47 | one line per record, in series order; `RowTextsAppend`, `CsvLines` and `Export` state its properties |
| `CsvExport.RowTextsAppend` | app/Http/Controllers/SelicController.php:45-47 | the lines of two consecutive stretches of records are the lines of the first followed by those of the second, which is what appending inside the `foreach` relies on |
| `CsvExport.NoDataMessage` | app/Http/Controllers/SelicController.php:40 | the error message contains both the requested start date and the requested end date |
| `CsvExport.Csv` | app/Http/Controllers/SelicController.php:43 | every CSV document begins with `Data;Valor\n` |
| `CsvExport.ExportResponse` | app/Http/Controllers/SelicController.php:39-53 | status 400 exactly when the payload is not an array, is empty, or its first record has no date, with a body naming both dates; otherwise status 200, the CSV document as body, `Content-Type: text/csv` and `Content-Disposition: attachment; filename=selic.csv` |
| `CsvExport.CsvLines` | app/Http/Controllers/SelicController.php:43-48 | when no date holds `;` or a newline and no formatted value holds a newline, the CSV document splits into the header followed by one line per record in input order, so it has one line more than the series |
| `CsvExport.RowFields` | app/Http/Controllers/SelicController.php:46-47 | a record's line splits at its first `;` back into the record's date and its formatted value, when the date holds no `;` |
| `CsvExport.OnlyFirstDateChecked` | app/Http/Controllers/SelicController.php:39-48 | once the first record has a date the response is status 200 with the CSV document whatever the later records hold, and a later record whose date is null gets the line `;` followed by its formatted value |
| `CsvExport.OneRecordExport` | app/Http/Controllers/SelicController.php:43-48 | a one-record series whose value formats as `0,035000` exports exactly as `Data;Valor\n01/01/2024;0,035000\n` |
| `CsvExport.Export` | app/Http/Controllers/SelicController.php:32-54 | the guard and the accumulating loop build exactly the response `ExportResponse` describes |

## Left out

- `historico` (app/Http/Controllers/SelicController.php:13-18): it returns the fetched payload unchanged as JSON; there is no logic to model.
- `SelicService::getSelicData` and `SelicService::getLatestSelic`: the HTTP request to the central bank's endpoint, the disabled TLS verification and the JSON decoding are network I/O. The decoded payload is a parameter of the model instead.
- The routes and their authentication middleware and page rendering are framework configuration.
- Floating point: PHP float multiplication and division are modelled as exact `real` arithmetic. Over reals the order of the factors does not change the product, so the model cannot show the order sensitivity of floating point; it keeps the series order in the fold all the same.
- The float cast of a rate (`(float)` on the substituted text), `round($total, 2)` and `number_format(…, 6, ',', '')` are abstract function parameters. Their digit-level behaviour, including how `number_format` coerces text with a decimal comma, is not modelled.
- `Simulate`: the principal is taken as a number. The source reads it from the request as text and relies on PHP's coercion in `*=`; that coercion is not modelled.
- `Simulate`: only a list of records is simulated. A `foreach` over a payload that is not an array raises a warning, which the framework's error handler turns into an exception that ends the request; that failure is not modelled.
- Records always carry their rate text. A record without a `valor` key, which PHP would read as null, is not modelled.
- `DateText`: its `None` case stands for a null date. For a record after the first, a missing `data` key raises an "undefined array key" warning, which the framework's error handler turns into an exception that ends the request; that failure is not modelled.
- `ExportResponse`: `format` is a total function, so it cannot express `number_format` raising. Under the framework's error handler, passing it a leading-numeric text such as `0,035` raises a warning (a notice before PHP 8) that becomes an exception. The "otherwise 200" case of `ExportResponse` therefore assumes that the formatting and interpolation on lines 46-47 raise nothing.
- The 400 response carries no explicit headers in the source; the framework's default headers for it are not modelled.
- A decoded JSON object without a key `"0"` is represented as `NotArray`: it has no element 0, so the guard refuses it exactly as it refuses a non-array.
- A decoded JSON object with a key `"0"` is not modelled. PHP decodes it as an associative array whose key becomes the integer 0, so the guard lets it through when that entry has a `data` field and the export answers 200; the model has no value for such a payload.
