# Cash register: change making, batch endpoints and client state

This project models the core of a small cash-register system in Dafny:

- **The change-making engine** (back end, Go). `CalculateChange` turns an amount owed and an amount paid into change and a breakdown by US denomination (dollar 100, quarter 25, dime 10, nickel 5, penny 1). A negative change is an error, and zero change is the empty breakdown. Lines 59-61 of change.go redeclare the parameters `divisor`, `country` and `specialCases` in the function's outermost block, which Go rejects at compile time, so as written no change is computed at all. `Change.CalculateChangeAsWritten` models the reading in which the local `divisor` of 3 wins: a change that is a multiple of 3 gets a randomised breakdown (see "## Findings"). The model's `CalculateChange`, which the handlers use, tests the divisor it is given instead. Any other change gets the greedy minimum breakdown. `FormatResult` prints a breakdown as text.
- **The HTTP handlers** (back end, Go). There are three POST endpoints:
  - a single calculation;
  - a batch of calculations;
  - a CSV upload of `owed,paid` lines.

  The model covers their method checks, the CSV line parser, and the per-row loops that stop at the first failing row.
- **The client controllers** (front end, TypeScript). The calculator form and the upload component write six shared state cells (Recoil atoms). The model covers those cells, the form's config push and fetch, and the order in which each handler writes cells and sends requests.

Money is counted in integer cents throughout. `rand.Intn(max + 1)` becomes a nondeterministic choice in `[0, max]`. `strconv.ParseFloat` and `parseFloat` become a parse oracle of type `string -> Option<int>`, where `None` means the text does not parse. Decoded request bodies, the first read of an uploaded file, and the settlement of each awaited promise are all parameters.

Modules:

- `Wrappers` (`Option`, `Result`)
- `Text` (Go's `strings.TrimSpace`, `strings.Split`, `strings.HasSuffix`)
- `Change` (backend/internal/domain/change.go)
- `Api` (response, request and error shapes)
- `Handler` (backend/internal/adapters/http/handler.go)
- `Atoms` (frontend/src/state/atoms.ts)
- `CalculatorForm` (frontend/src/components/ChangeCalculatorForm.tsx)
- `FileUpload` (frontend/src/components/FileUploadComponent.tsx)
- `Session` (both controllers on one store)

The engine's loops are methods proved against specification functions:

- `MinimumChange` equals `Greedy`;
- `RandomizeChange` is one of the outcomes `IsRandomOutcome` allows;
- `FormatResult` equals `Formatted`.

The handlers' loops are methods proved against `CheckRows` and `Answers`. Each client handler is a method on a class over the shared `Store`. Its `ensures` ties the new cells and the request log to a pure transition function (`AfterCalculate`, `AfterClear`, `AfterFileSelect`, `AfterClearResults`). The lemmas then state the source's promises about those functions.

The code puts the config push at ChangeCalculatorForm.tsx:92 inside the `try`. A rejected push is therefore caught, becomes the error, and the calculation is skipped. A push that resolves with any HTTP status is ignored.

## Model

| member | source | states |
|---|---|---|
| `Text.TrimSpace` | backend/internal/adapters/http/handler.go:145 | the result is the input with only leading and trailing white space removed, and it neither starts nor ends with white space |
| `Text.Split` | backend/internal/adapters/http/handler.go:154 | there is one more piece than there are separators, and no piece contains the separator |
| `Text.JoinSplit` | backend/internal/adapters/http/handler.go:145 | joining the pieces with the separator gives back the text, so splitting loses nothing |
| `Text.SplitJoin` | backend/internal/adapters/http/handler.go:145 | splitting the join of separator-free pieces gives back exactly those pieces |
| `Change.DenominationsWellFormed` | backend/internal/domain/change.go:96-105 | the denomination table has positive values and five distinct names |
| `Change.MinimumChange` | backend/internal/domain/change.go:95-122 | the loop's breakdown is the greedy breakdown `Greedy(cents)`; the total is the input; for non-negative input, the breakdown is valid and worth exactly `cents` |
| `Change.GreedySumsTo` | backend/internal/domain/change.go:107-116 | the greedy breakdown uses only known names and positive counts, and it sums to exactly `cents` |
| `Change.GreedyCounts` | backend/internal/domain/change.go:110-116 | the greedy counts in closed form: `c/100` dollars, `c%100/25` quarters, and so on down to the pennies |
| `Change.GreedyBounds` | backend/internal/domain/change.go:110-116 | a denomination is present iff the remainder reaching it affords it; at most 3 quarters, 2 dimes, 1 nickel and 4 pennies |
| `Change.FewestPieces` | backend/internal/domain/change.go:94 | every combination of dollars, quarters, dimes, nickels and pennies has at least as many pieces as the greedy count for its worth |
| `Change.GreedyIsOptimal` | backend/internal/domain/change.go:94-116 | no breakdown worth `cents` uses fewer coins and notes than the greedy one |
| `Change.RandomPrefixSound` | backend/internal/domain/change.go:143-153 | for any in-range draws, the remainder stays non-negative, and what was drawn plus the remainder is worth exactly `cents`, with positive counts only |
| `Change.RandomStep` | backend/internal/domain/change.go:144-151 | one draw of `k` in `[0, remaining/value]` stays valid; it records `k` and subtracts `k*value` when `k > 0`, and changes nothing when `k = 0` |
| `Change.RandomizedSumsTo` | backend/internal/domain/change.go:143-158 | after four valid draws, the leftover paid in pennies gives a valid breakdown worth exactly `cents` |
| `Change.RandomizeChange` | backend/internal/domain/change.go:125-164 | the result is one of the allowed random outcomes, is worth exactly `cents` with positive counts, has total `cents`, and the error is always nil |
| `Change.GreedyIsRandomOutcome` | backend/internal/domain/change_test.go:78-81 | the greedy breakdown is itself a possible randomised outcome, so a randomised result may equal the greedy one |
| `Change.CalculateChange` | backend/internal/domain/change.go:40-92 | error iff paid < owed, with the engine's message; otherwise total = paid − owed, and the breakdown is valid and worth it; zero gives the empty map; a multiple of the divisor gives a random outcome; anything else gives exactly the greedy breakdown |
| `Change.CalculateChangeAsWritten` | backend/internal/domain/change.go:59-69 | in the reading of lines 59-61 where the local declaration wins (Go itself rejects the redeclaration), the same as `CalculateChange` except that the divisibility test uses 3 whatever divisor the caller passes |
| `Change.ShadowedDivisorCounterexample` | backend/internal/domain/change.go:59-69 | with 99 cents of change, 99 pennies is allowed when the local 3 wins (99 is a multiple of 3) but not with the caller's divisor 5, where only the greedy breakdown is allowed |
| `Change.NatToString` | backend/internal/domain/change.go:184 | a count prints as decimal digits, starting with '0' exactly when the count is 0, which prints as "0" |
| `Change.NatToStringRoundTrip` | backend/internal/domain/change.go:184 | the decimal digits printed for a count read back as that count |
| `Change.FormatResult` | backend/internal/domain/change.go:167-189 | the loop's text is `Formatted(m)`: "" for an empty map, otherwise one entry per positive count, in dollar-to-penny order |
| `Change.EntryShape` | backend/internal/domain/change.go:177-184 | an entry starts with "," iff its denomination is not dollar, even when nothing was printed before it; it ends in "s" iff its count is not 1 |
| `Change.FormattedShape` | backend/internal/domain/change.go:168-179 | the text is empty iff no count is positive; a non-empty text starts with "," iff there are no dollars |
| `Change.GreedyExample` | backend/internal/domain/change.go:107-116 | 87 cents breaks down greedily as 3 quarters, 1 dime and 2 pennies |
| `Change.EntriesWithoutDollarsOrNickels` | backend/internal/domain/change.go:167-189 | with no dollars or nickels and positive quarter, dime and penny counts, the text is the quarter, dime and penny entries in that order, each led by a comma |
| `Change.QuarterEntryExample` | backend/internal/domain/change.go:177-184 | 3 quarters after the first position print as ",3 quarters" |
| `Change.DimeEntryExample` | backend/internal/domain/change.go:177-184 | 1 dime prints as ",1 dime", without the plural "s" |
| `Change.PennyEntryExample` | backend/internal/domain/change.go:177-184 | 2 pennies print as ",2 pennys": the plural only appends "s" |
| `Change.FormattedExample` | backend/internal/domain/change.go:167-189 | the greedy breakdown of 87 cents (see `Change.GreedyExample`) prints as ",3 quarters,1 dime,2 pennys" |
| `Handler.BuildResponse` | backend/internal/adapters/http/handler.go:53-70 | failure iff paid < owed, with the engine's message; otherwise the response echoes both amounts, carries the change, a valid breakdown chosen as `CalculateChange` chooses, and that breakdown's formatted text |
| `Handler.HandleCalculateChange` | backend/internal/adapters/http/handler.go:39-75 | 405 for a non-POST method regardless of the body; 400 "Invalid request body" for an undecodable body; 400 with the engine's message for negative change; otherwise a response answering the request |
| `Handler.HandleBatchCalculate` | backend/internal/adapters/http/handler.go:78-120 | 405 and 400 as above; if every request pays enough, one answer per request in input order (`null` for an empty batch); otherwise 400 with the engine's message and no partial list |
| `Handler.NonEmpty` | backend/internal/adapters/http/handler.go:149-152 | the kept lines are never empty and are no more than the input lines |
| `Handler.CheckRowsAbort` | backend/internal/adapters/http/handler.go:155-182 | once a prefix of the lines has failed, later lines do not change the outcome |
| `Handler.CheckRowsAccepted` | backend/internal/adapters/http/handler.go:149-192 | the upload is accepted iff every non-empty line is accepted; then it gives exactly one request per non-empty line, in file order, each the request its line reads as |
| `Handler.CheckRowsFirstFailure` | backend/internal/adapters/http/handler.go:149-182 | a rejected upload reports the first failing non-empty line, with that line's own message |
| `Handler.LineWithoutComma` | backend/internal/adapters/http/handler.go:154-157 | a line without a comma, including one that is only white space, fails with "Invalid line format: " and the line |
| `Handler.LineWithExtraComma` | backend/internal/adapters/http/handler.go:154-157 | a line with two or more commas fails with "Invalid line format: " and the line |
| `Handler.LineFields` | backend/internal/adapters/http/handler.go:160-170 | for `x,y`, the trimmed owed field is judged first, so an unreadable owed field is reported whatever the paid field holds; each message quotes the untrimmed field; two readable fields give the request |
| `Handler.InnerBlankLines` | backend/internal/adapters/http/handler.go:145 | for rows `x` and `y`, the text `x`, newline, space, newline, newline, `y`, newline gives the four lines `x`, " ", "", `y`: only the ends are trimmed, so an interior white-space line and an interior empty line both survive the split |
| `Handler.NonEmptyKeeps` | backend/internal/adapters/http/handler.go:149-152 | the loop acts on a line iff it is one of the file's lines and is not exactly empty, so a white-space-only line is not skipped |
| `Handler.BlankFileHasNoRows` | backend/internal/adapters/http/handler.go:145-152 | a file of white space only trims to one empty line, and no row is read from it |
| `Handler.BlankFileAnswersNull` | backend/internal/adapters/http/handler.go:145-196 | whatever the upload handler answers for a file of white space only is a success with body `null`, because `responses` is never appended to |
| `Handler.CommaFreeLineRejects` | backend/internal/adapters/http/handler.go:145-157 | any non-empty line without a comma anywhere in the file, including a white-space-only line between two rows, makes the whole upload fail |
| `Handler.HandleFileUpload` | backend/internal/adapters/http/handler.go:123-197 | 405 for non-POST; 400 "Failed to read file" and 400 "Failed to read file content"; otherwise 400 with the first failing line's message, or one answer per non-empty line in file order |
| `Handler.ProcessLines` | backend/internal/adapters/http/handler.go:147-196 | the loop over the lines ends with 400 and the message of the first non-empty line that fails, or else encodes one answer per non-empty line in file order (`null` when there are none) |
| `Atoms.Store.constructor` | frontend/src/state/atoms.ts:4-32 | a fresh store holds the declared defaults: "", "", no result, not loading, no error, an empty batch-results array |
| `CalculatorForm.EncodeConfig` | frontend/src/components/ChangeCalculatorForm.tsx:66-70 | divisor and country are sent as they are; special case "None" is sent as [], and any other value `s` as [s] |
| `CalculatorForm.DecodeConfig` | frontend/src/components/ChangeCalculatorForm.tsx:55-58 | a falsy divisor becomes 3, a falsy country becomes "US", and a missing, empty or "" first special case becomes "None"; truthy values are kept, and only element 0 of the special cases is used |
| `CalculatorForm.ConfigRoundTrip` | frontend/src/components/ChangeCalculatorForm.tsx:56-69 | decoding what was pushed gives back the settings iff none of them is falsy |
| `CalculatorForm.ConfigFetchThenPush` | frontend/src/components/ChangeCalculatorForm.tsx:56-69 | a fetched config pushed back keeps a truthy divisor and country and only its first special case |
| `CalculatorForm.ValidationBeforeDispatch` | frontend/src/components/ChangeCalculatorForm.tsx:75-88 | nothing is sent iff the amounts do not parse or paid < owed (equal amounts pass); then the error names the reason, the result is cleared, and loading is untouched |
| `CalculatorForm.DispatchOrder` | frontend/src/components/ChangeCalculatorForm.tsx:90-104 | on valid amounts, the config push goes first and sees the old cells with error and result cleared and loading set; the calculation of exactly the parsed amounts follows iff the push resolved, and sees the same cells; loading ends false |
| `CalculatorForm.ResultOrError` | frontend/src/components/ChangeCalculatorForm.tsx:91-104 | on valid amounts, exactly one of result and error is set; the result is the response; the error is the rejection's message, or 'Failed to calculate change' for a non-Error; a rejected push skips the calculation |
| `CalculatorForm.CalculateLeavesOtherCells` | frontend/src/components/ChangeCalculatorForm.tsx:74-105 | submitting never writes the amount texts or the batch results |
| `CalculatorForm.ClearProperties` | frontend/src/components/ChangeCalculatorForm.tsx:107-112 | clearing puts the amount, result and error cells at their defaults and keeps loading and the batch results; a second clear changes nothing |
| `CalculatorForm.Form.constructor` | frontend/src/components/ChangeCalculatorForm.tsx:38-40 | a form starts with divisor 3, country "US" and special case "None" |
| `CalculatorForm.Form.LoadConfig` | frontend/src/components/ChangeCalculatorForm.tsx:52-60 | a fetched config replaces the settings with its decoding; a failed fetch leaves them as they were |
| `CalculatorForm.Form.HandleCalculate` | frontend/src/components/ChangeCalculatorForm.tsx:74-105 | the new cells and the requests sent are those of `AfterCalculate` on the old cells and the form's settings |
| `CalculatorForm.Form.HandleClear` | frontend/src/components/ChangeCalculatorForm.tsx:107-112 | the new cells are `AfterClear` of the old ones, and nothing is sent |
| `FileUpload.CsvExamples` | frontend/src/components/FileUploadComponent.tsx:40 | a file is accepted by its ".csv" name or by its "text/csv" type alone, so "data.txt" typed text/csv passes |
| `FileUpload.NothingUploaded` | frontend/src/components/FileUploadComponent.tsx:36-43 | with no file, nothing changes; a rejected file only sets 'Please upload a valid CSV file'; neither uploads, touches loading or the results, or resets the input |
| `FileUpload.AcceptedFile` | frontend/src/components/FileUploadComponent.tsx:45-61 | one upload is sent, and it sees the old cells with the error cleared, the results emptied and loading set; afterwards loading is off and the input is ""; success replaces the results with the returned body and clears the error, and a `null` body leaves the results `null`, where the table's `length` test has no value; failure leaves an empty array and sets the message or 'Failed to process file' |
| `FileUpload.ClearResultsProperties` | frontend/src/components/FileUploadComponent.tsx:64-67 | clearing empties the results (hiding the table, even after a `null` upload) and the error and nothing else; a second clear changes nothing |
| `FileUpload.Uploader.constructor` | frontend/src/components/FileUploadComponent.tsx:31 | a new upload component is on the given store, with an empty input |
| `FileUpload.Uploader.HandleFileSelect` | frontend/src/components/FileUploadComponent.tsx:35-62 | the new cells, requests and input value are those of `AfterFileSelect` on the old ones |
| `FileUpload.Uploader.HandleClearResults` | frontend/src/components/FileUploadComponent.tsx:64-67 | the new cells are `AfterClearResults` of the old ones, and nothing is sent |
| `Session.CalculateThenUpload` | frontend/src/state/atoms.ts:19-27 | a form and an uploader on one store act on the same cells: the upload starts from the cells the calculation left, the log holds both controllers' requests in order, and the file input ends as the upload left it |
| `Session.BlankFileNullsResults` | frontend/src/components/FileUploadComponent.tsx:50-51 | an accepted CSV file of white space only is answered with `null`, the upload stores that as the batch results, and the render test `batchResults.length > 0` at line 103 then has no value |
| `Session.SharedErrorCell` | frontend/src/components/FileUploadComponent.tsx:28-29 | an error the form set is cleared by an accepted, successful upload, and an upload's error is cleared by the next successful submit |

## Left out

- Floating point. Amounts are integer cents. `math.Round(change*100)/100`, the cents conversion, the `float64(cents)/100` totals, `toFixed` and the parsing of numbers are not modelled; parsing is an oracle.
- The random distribution. Only the range of each `rand.Intn` draw is modelled. The test at change_test.go:78-81 expects a randomised result to differ from the greedy one, and the code does not guarantee that (`GreedyIsRandomOutcome`).
- `Change.CalculateChange` requires a divisor greater than 0. The guard `divisor <= 0` at change.go:85-88 comes after a `return` and never runs. The configured divisor is not validated by the config endpoint, so the handlers carry the same requirement.
- Handler.BuildResponse, Handler.HandleCalculateChange, Handler.HandleBatchCalculate, Handler.HandleFileUpload, Handler.ProcessLines: their contracts are stated over the corrected `Change.CalculateChange`, which randomises on multiples of the configured divisor they are given. As written, change.go:59-61 redeclare that parameter, which Go rejects, so the source does not build. In the reading where the local 3 wins (`Change.CalculateChangeAsWritten`), the function ignores the divisor the handlers pass, and the handlers behave as the instance of these contracts with divisor 3 (see "## Findings").
- The country and special-case branches at change.go:71-81 have empty bodies and no effect. They are left out.
- JSON and HTTP plumbing is left out: request decoding and response encoding, headers, `r.FormFile`, and the single 1 MB `file.Read`. These are parameters: the decoded body, or what the first read gave. A file longer than one read is not modelled.
- The config store in backend/internal/adapters/http/config.go is not part of this model, and neither is `GetConfig`. It is a mutex-guarded global whose point is concurrent access. The handlers take the configured divisor as a parameter.
- The router, CORS and server start-up in backend/cmd/main.go are left out.
- The network and hook wrappers are not part of this model: frontend/src/api, the react-query hooks, and the health poll. The outcome of each awaited request is a parameter.
- Presentation is left out: JSX, the result card and table (apart from the table's `batchResults.length > 0` test, which `FileUpload.ResultsTableShown` models because a `null` list breaks it), the `?flag=true` switch, and the dropdown option lists. The dropdowns' `onChange` setters, which store the chosen value in the form's settings, are left out too.
- Overlapping submissions are not modelled. The only guard is the buttons' `disabled={loading}`. Each handler runs to completion before the next one starts.
- `Text.IsSpace` covers white space in the Latin-1 range only, not every Unicode space that Go's `unicode.IsSpace` accepts.
- The `fileInputRef.current` null check (FileUploadComponent.tsx:58) assumes the component is mounted, so the input is always reset on the accepted paths.

## Findings

| source | as written | input that shows it | evidently intended | confidence | as-written member | corrected member |
|---|---|---|---|---|---|---|
| backend/internal/domain/change.go:59-69 | `var divisor int = 3` (with `country` and `specialCases`) redeclares the parameters in the function's outermost block; Go rejects this ("divisor redeclared in this block"), so the package does not compile; read with the local declaration winning, the test `changeCents%divisor == 0` always uses 3 | divisor 5, owed 1.00, paid 1.99: 99 cents, and 99 % 3 == 0, so a randomised breakdown such as 99 pennies may be returned where change_test.go:39-48 expects the greedy 3 quarters, 2 dimes, 4 pennies | the caller's divisor decides whether to randomise | not executed; the compile error is certain from Go's scoping rule, and the as-written member models the reading in which the local declaration wins | `Change.CalculateChangeAsWritten`, `Change.ShadowedDivisorCounterexample` | `Change.CalculateChange` |
