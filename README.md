# Money Mind receipt intake and dashboard, in Dafny

This project models two parts of the Money Mind web client.

- **Receipt upload modal** (`UploadReceiptModal.jsx`). The user picks an image of a receipt. The modal checks the file's type, shows a preview and sends the file to the `/ocr-upload` endpoint. It then shows the recognised text or the error. When the text holds a positive money figure, the modal files an expense for the largest one. A figure that reads as zero, such as "0.00", files nothing.
- **Dashboard derivations** (`Dashboard.jsx`):
  - the list of the five most recent transactions;
  - the six-month income-versus-expenses chart;
  - the progress bar and over-budget flag of each budget;
  - the colour of the budget-used figure.

Files:

- `common.dfy` (module `Common`): `Option`, decimal digits and prefixes.
- `amount_extractor.dfy` (module `AmountExtractor`): `parseAmountFromText`.
  - Normalisation of commas and whitespace.
  - A hand-written scanner that makes the same matches the regular expression at line 28 makes.
  - Values in cents, and selection of the largest positive value.
  - Proofs that every match has one of the three money shapes and is bounded by word boundaries, and, the other way round, that every such token starts inside a match. It need not end inside it: in "1.23 456" the token "23 456" starts inside the match "1.23" and runs past it.
  - A proof that each match is the longest bounded money token from where it starts.
  - The value of every money token, and a proof that the result is the largest positive candidate.
- `amount_examples.dfy` (module `AmountExamples`): receipts worked through the scanner. `"0.00"` has no amount, `"1 234"` is 1234.00, `"1,234.56"` is 1234.56, and `"12.50 15.00 8.75"` gives 15.00.
- `receipt_intake.dfy` (module `ReceiptIntake`):
  - the type filter, and the reply of the OCR endpoint;
  - the `Intake` class, whose fields are the modal's state plus logs of preview URLs given back, files sent, and `addTransaction` calls.
- `dashboard.dfy` (module `Dashboard`): the dashboard's pure derivations, and `GenerateMonthlyData` as a loop.

Representation choices:

- Receipt amounts are natural numbers of cents, so `Number(amount.toFixed(2))` keeps the value.
- Dashboard amounts are integer cents. A missing amount is `None`.
- A transaction date is a `(year, month)` pair. `None` stands for a date string that does not parse, and it matches no month.
- "Now" is a parameter.
- A preview URL is a numbered token `Url(id)`. A fresh one has the next number.
- `handleUpload` is split at its `await fetch(...)`:
  - `HandleUpload` is the part that runs when the form is submitted.
  - `SettleUpload` is the rest, once the request has settled.
  - The field `pending` holds the file the submitted upload captured.
- Four behaviours of the code are easy to miss, and the model keeps each:
  - Selecting a new file does not revoke the previous preview URL.
  - A request without a file gets status 500 with "OCR failed", not a bad-request reply. The route reads `req.file` inside its `try` (`backend/index.js:24-25`).
  - `addTransaction` is awaited, so the upload counts as in flight until the filed expense settles (`UploadReceiptModal.jsx:91`).
  - The allow-list has four entries, including `application/pdf`, which is then rejected with its own message.

## Model

| member | source | states |
|---|---|---|
| AmountExtractor.Normalize | src/components/Modals/UploadReceiptModal.jsx:27 | length is kept; each comma or whitespace character becomes exactly one space and every other character stays; the result has no comma and no whitespace other than a plain space |
| AmountExtractor.DigitRun | src/components/Modals/UploadReceiptModal.jsx:28 | the run from p is all digits and is maximal (the next character, if any, is not a digit) |
| AmountExtractor.GroupRun | src/components/Modals/UploadReceiptModal.jsx:28 | the greedy `(?:\s\d{3})*`: that many thousands groups follow one another and no further group follows |
| AmountExtractor.MatchEnd | src/components/Modals/UploadReceiptModal.jsx:28 | the three alternatives in their order, with the one backtracking step the engine can take; a match ends after the digit run and within the text |
| AmountExtractor.MatchAt | src/components/Modals/UploadReceiptModal.jsx:28 | a match starting at p is non-empty and ends within the text; MatchAtLongest says which end it takes |
| AmountExtractor.IsJsWhitespace | src/components/Modals/UploadReceiptModal.jsx:27-30 | the code points `\s` matches: the ECMAScript WhiteSpace and LineTerminator characters |
| AmountExtractor.IsMoneyToken | src/components/Modals/UploadReceiptModal.jsx:28 | the three shapes of the pattern on their own: grouped integer with cents, digits with cents, grouped integer with at least one group; the soundness and completeness lemmas are stated against it |
| AmountExtractor.IsBoundary | src/components/Modals/UploadReceiptModal.jsx:28 | `\b`: a word character on exactly one side of the position |
| AmountExtractor.Scan | src/components/Modals/UploadReceiptModal.jsx:28 | the global match: spans lie in the text, are non-empty and come in order without overlapping; ScanSpansAreMatches ties each span to the match at its start |
| AmountExtractor.ScanCovers | src/components/Modals/UploadReceiptModal.jsx:28 | the scan misses no match: every position where a match could start lies inside a reported span, either starting it or stepped over by an earlier match |
| AmountExtractor.MatchAtComplete | src/components/Modals/UploadReceiptModal.jsx:28 | a money token with a word boundary on both sides always starts a match, one lemma per alternative |
| AmountExtractor.MatchAtLongest | src/components/Modals/UploadReceiptModal.jsx:28 | the match at p reaches at least as far as every money token from p with a word boundary after it, so it is the longest such token: the alternatives' order and greedy groups give that |
| AmountExtractor.ScanSpansAreMatches | src/components/Modals/UploadReceiptModal.jsx:28 | every span of the scan is exactly the match that starts at its start |
| AmountExtractor.SpansAreLongest | src/components/Modals/UploadReceiptModal.jsx:28 | no bounded money token starting where a span starts ends after it, so "1 234.56" is taken whole and not as "1 234" |
| AmountExtractor.TokensAreCovered | src/components/Modals/UploadReceiptModal.jsx:28 | every money token bounded by word boundaries starts inside a match of the global scan |
| AmountExtractor.MoneyMatches | src/components/Modals/UploadReceiptModal.jsx:28 | the matched substrings, one per span of the scan, in order; their shape is stated by MatchesAreMoneyTokens |
| AmountExtractor.MatchEndSound | src/components/Modals/UploadReceiptModal.jsx:28 | whatever the alternatives accept is a money token of one of the three shapes followed by a word boundary |
| AmountExtractor.MatchAtSound | src/components/Modals/UploadReceiptModal.jsx:28 | a match has a word boundary on both sides and is a money token |
| AmountExtractor.ScanSound | src/components/Modals/UploadReceiptModal.jsx:28 | every span of the scan is a money token bounded by word boundaries |
| AmountExtractor.MatchesAreMoneyTokens | src/components/Modals/UploadReceiptModal.jsx:27-28 | every matched substring of the normalised text is one of: grouped thousands with cents, digits with cents, grouped thousands with at least one group |
| AmountExtractor.StripWhitespace | src/components/Modals/UploadReceiptModal.jsx:30 | no whitespace is left, the result is no longer than the token and every character of it comes from the token; StripKeeps and StripDigitsAndSpaces say what stays |
| AmountExtractor.StripKeeps | src/components/Modals/UploadReceiptModal.jsx:30 | a stretch without whitespace is kept as it is |
| AmountExtractor.StripDigitsAndSpaces | src/components/Modals/UploadReceiptModal.jsx:30 | stripping digits and spaces leaves exactly the digits, in order |
| AmountExtractor.TokenCents | src/components/Modals/UploadReceiptModal.jsx:30 | `toNumber` in cents: the stripped token's integer part times 100 plus its cents; its value over all tokens is stated by TokenValue |
| AmountExtractor.TokenValue | src/components/Modals/UploadReceiptModal.jsx:30 | every money token is worth the number its digits spell once the spaces and the dot are dropped, times 100 when it has no cents |
| AmountExtractor.Candidates | src/components/Modals/UploadReceiptModal.jsx:27-31 | every candidate is positive; CandidatesFrom states they are the positive values of the matches in order |
| AmountExtractor.Positives | src/components/Modals/UploadReceiptModal.jsx:31 | keeps exactly the positive values: all kept values are positive and come from the input, and no positive value is dropped |
| AmountExtractor.MaxOf | src/components/Modals/UploadReceiptModal.jsx:34 | the result is one of the values and no value exceeds it |
| AmountExtractor.Largest | src/components/Modals/UploadReceiptModal.jsx:32-34 | none exactly when there are no candidates; otherwise a candidate that no candidate exceeds |
| AmountExtractor.ParseAmount | src/components/Modals/UploadReceiptModal.jsx:25-35 | null for empty text and exactly when there is no positive candidate; otherwise positive, one of the candidates, and at least every candidate |
| AmountExtractor.ZeroMatchesGiveNoAmount | src/components/Modals/UploadReceiptModal.jsx:29-32 | when every match parses to zero there is no amount |
| AmountExamples.NoDigitsNoAmount | src/components/Modals/UploadReceiptModal.jsx:28-29 | a text without digits has no match and no amount |
| AmountExamples.ScanSkips | src/components/Modals/UploadReceiptModal.jsx:28 | the scan passes over a stretch without digits unchanged |
| AmountExamples.CandidatesFrom | src/components/Modals/UploadReceiptModal.jsx:30-31 | the candidates are the positive values of the matches, in order |
| AmountExamples.PositivesKeepsPositive | src/components/Modals/UploadReceiptModal.jsx:31 | values that are all positive pass the filter unchanged and in order |
| AmountExamples.LargestAt | src/components/Modals/UploadReceiptModal.jsx:34 | the candidate that no other exceeds is the result |
| AmountExamples.CentsOfUnits | src/components/Modals/UploadReceiptModal.jsx:30 | `d.dd` parses to its value in cents |
| AmountExamples.CentsOfTens | src/components/Modals/UploadReceiptModal.jsx:30 | `dd.dd` parses to its value in cents |
| AmountExamples.CentsOfOneGroup | src/components/Modals/UploadReceiptModal.jsx:30 | `d ddd` parses with its space removed |
| AmountExamples.CentsOfOneGroupWithCents | src/components/Modals/UploadReceiptModal.jsx:30 | `d ddd.dd` parses with its space removed |
| AmountExamples.NoNumbersHere | src/components/Modals/UploadReceiptModal.jsx:29 | "no numbers here" has no amount |
| AmountExamples.ZeroMatch | src/components/Modals/UploadReceiptModal.jsx:28-30 | `0.00` is one match, worth zero cents |
| AmountExamples.ZeroReceipt | src/components/Modals/UploadReceiptModal.jsx:28-32 | "0.00" is matched as a single token, parses to zero and gives no amount |
| AmountExamples.GroupedThousandsMatch | src/components/Modals/UploadReceiptModal.jsx:28-30 | `d ddd` with the digits 1234 is one match, worth 123400 cents |
| AmountExamples.GroupedThousandsReceipt | src/components/Modals/UploadReceiptModal.jsx:28-34 | "1 234" is one grouped token worth 1234.00, and that is the amount |
| AmountExamples.CommaThousands | src/components/Modals/UploadReceiptModal.jsx:27-34 | "1,234.56" normalises to "1 234.56" and gives 1234.56 |
| AmountExamples.CommaThousandsReceipt | src/components/Modals/UploadReceiptModal.jsx:27-34 | "1,234.56" gives 1234.56 |
| AmountExamples.ThreeFiguresScan | src/components/Modals/UploadReceiptModal.jsx:28 | "12.50 15.00 8.75" has three matches at the expected places |
| AmountExamples.ThreeFiguresCandidates | src/components/Modals/UploadReceiptModal.jsx:30-31 | its candidates are 12.50, 15.00 and 8.75 in text order |
| AmountExamples.LargestFigureReceipt | src/components/Modals/UploadReceiptModal.jsx:33-34 | the result is 15.00: the maximum, neither the first nor the last figure |
| ReceiptIntake.CheckFileType | src/components/Modals/UploadReceiptModal.jsx:40-51 | accepted exactly for image/jpeg, image/png and image/jpg; PDF rejected on its own; anything outside the four-entry list rejected |
| ReceiptIntake.RejectionAlert | src/components/Modals/UploadReceiptModal.jsx:42-50 | an alert exactly for a rejected file |
| ReceiptIntake.AcceptedIsImage | src/components/Modals/UploadReceiptModal.jsx:55-61 | every accepted type starts with `image/`, so an accepted file always gets a preview |
| ReceiptIntake.FormatFileSize | src/components/Modals/UploadReceiptModal.jsx:118-119 | an empty file is "0 Bytes" |
| ReceiptIntake.OcrReply | backend/index.js:23-38 | status 200 with the text exactly when a file came and the OCR engine succeeded; otherwise 500 with error "OCR failed" |
| ReceiptIntake.OrElse | src/components/Modals/UploadReceiptModal.jsx:104 | JavaScript's `or` on a string and its fallback: one of the two, empty only when both are, and s itself when s is non-empty |
| ReceiptIntake.ResultOf | src/components/Modals/UploadReceiptModal.jsx:78-104 | text exactly for an OK reply with a JSON body, `''` when it has none; a non-OK reply fails with its `error` field or "Upload failed"; a rejected fetch or a body that is not JSON fails with its own message or "Something went wrong"; every failure message is non-empty |
| ReceiptIntake.UploadAgainstEndpoint | backend/index.js:24-38 | against the endpoint, an upload yields the recognised text or "OCR failed" |
| ReceiptIntake.FirstSegment | src/components/Modals/UploadReceiptModal.jsx:92 | the prefix of the name before its first dot: a prefix, dot-free, and followed by a dot unless it is the whole name |
| ReceiptIntake.FirstSegmentWithoutDot | src/components/Modals/UploadReceiptModal.jsx:92 | a name without a dot is its own first segment |
| ReceiptIntake.FirstSegmentOfExtension | src/components/Modals/UploadReceiptModal.jsx:92 | `base.ext` gives `base` for a dot-free base |
| ReceiptIntake.Description | src/components/Modals/UploadReceiptModal.jsx:92 | never empty; the first segment when that is non-empty, "Receipt OCR" when it is empty |
| ReceiptIntake.DraftFor | src/components/Modals/UploadReceiptModal.jsx:88-98 | a draft exactly when an amount was found; it carries that positive amount, the description, the date, and the fixed category, type and payment method |
| ReceiptIntake.Filed | src/components/Modals/UploadReceiptModal.jsx:88-101 | at most one call, and one exactly when an amount was found |
| ReceiptIntake.NoFigureNoDraft | src/components/Modals/UploadReceiptModal.jsx:29-32 | a text whose money figures all parse to zero, or that has none, files nothing |
| ReceiptIntake.Intake.SubmitEnabled | src/components/Modals/UploadReceiptModal.jsx:212 | the submit button is enabled exactly when a file is selected and no upload is in flight; each method states its value afterwards |
| ReceiptIntake.Intake.constructor | src/components/Modals/UploadReceiptModal.jsx:18-22 | nothing selected, no preview, not uploading, both messages empty, submit disabled |
| ReceiptIntake.Intake.HandleFileSelect | src/components/Modals/UploadReceiptModal.jsx:37-63 | no file or a rejected one changes nothing and alerts for the latter; an accepted one is selected with a new preview URL never handed out before, the previous URL is not revoked, and submit is then enabled unless an upload is in flight |
| ReceiptIntake.Intake.HandleUpload | src/components/Modals/UploadReceiptModal.jsx:65-78 | both messages cleared first; without a file an alert, no request and no upload; otherwise the upload starts with that file sent and submit disabled |
| ReceiptIntake.Intake.SettleUpload | src/components/Modals/UploadReceiptModal.jsx:79-107 | on failure the message is shown, the text stays empty and nothing is filed; on success the text is shown, the message stays empty, the draft is filed at most once whatever `addTransaction` settles with; the upload is over either way |
| ReceiptIntake.Intake.RemoveFile | src/components/Modals/UploadReceiptModal.jsx:110-116 | no selection, no preview, the preview URL revoked if there was one, submit disabled |
| ReceiptIntake.UploadReceipt | src/components/Modals/UploadReceiptModal.jsx:65-107 | one accepted receipt against the endpoint: recognised text shown and its amount filed, or "OCR failed" shown and nothing filed |
| Dashboard.Entry | src/pages/Dashboard.jsx:51-58 | identity fields copied; an income amount kept, any other type's amount negated; a missing amount stays missing, which also stands for the NaN that negating a missing amount gives |
| Dashboard.RecentTransactions | src/pages/Dashboard.jsx:51 | min(5, n) entries, the i-th projected from the i-th transaction |
| Dashboard.RecentIgnoresOlder | src/pages/Dashboard.jsx:51 | transactions after the fifth do not change the list |
| Dashboard.ShownAsGain | src/pages/Dashboard.jsx:280-296 | the entry gets the `+` sign and the success colour: its amount is present and positive |
| Dashboard.Magnitude | src/pages/Dashboard.jsx:296 | `Math.abs`: the non-negative one of a and -a |
| Dashboard.EntrySign | src/pages/Dashboard.jsx:280-296 | `+` and the success colour exactly for positive income or a negative amount of another type; the figure shown is the stored magnitude |
| Dashboard.MonthsBefore | src/pages/Dashboard.jsx:66 | a valid month exactly i months before now |
| Dashboard.MonthNumberInjective | src/pages/Dashboard.jsx:66-69 | a valid year and month are determined by their month count |
| Dashboard.MonthsBeforeWraps | src/pages/Dashboard.jsx:66 | within the year when i is at most the month index, otherwise the previous year with the month wrapped |
| Dashboard.MonthsBeforeStep | src/pages/Dashboard.jsx:65-66 | one more step back is the month before; zero steps is now |
| Dashboard.MonthLabel | src/pages/Dashboard.jsx:67 | the three-letter English month name |
| Dashboard.ChartMonth | src/pages/Dashboard.jsx:65-66 | the k-th chart month is k months after the oldest, five before now |
| Dashboard.ChartMonths | src/pages/Dashboard.jsx:65-66 | the six chart months are consecutive, end at now and are distinct |
| Dashboard.InMonth | src/pages/Dashboard.jsx:71-75 | exactly the transactions dated in that year and month |
| Dashboard.OfKind | src/pages/Dashboard.jsx:77-78 | exactly the transactions of that type |
| Dashboard.AmountOrZero | src/pages/Dashboard.jsx:79 | `parseFloat` of the amount or 0: the amount, or nothing when it is missing |
| Dashboard.Sum | src/pages/Dashboard.jsx:79 | the fold from 0; SumAppend states how it distributes over lists |
| Dashboard.MonthTotal | src/pages/Dashboard.jsx:71-83 | the sum of one type in one month; MonthTotalAppend, FiltersCommute and OtherKindsIgnored state its properties |
| Dashboard.SumAppend | src/pages/Dashboard.jsx:79 | the sum of two lists is the sum of their sums |
| Dashboard.MonthTotalAppend | src/pages/Dashboard.jsx:71-83 | one more transaction adds its amount, or 0 when missing, to the total of its month and type and changes no other total |
| Dashboard.FiltersCommute | src/pages/Dashboard.jsx:71-83 | filtering by month then type equals filtering by type then month |
| Dashboard.OtherKindsIgnored | src/pages/Dashboard.jsx:77-83 | a transaction neither income nor expense changes neither total |
| Dashboard.RoundToUnits | src/pages/Dashboard.jsx:87-88 | within half a unit of the amount, halves rounding up |
| Dashboard.RoundToUnitsUnique | src/pages/Dashboard.jsx:87-88 | no other whole number is within half a unit |
| Dashboard.PointFor | src/pages/Dashboard.jsx:67-89 | the month's short label and its income and expense totals rounded to whole units |
| Dashboard.GenerateMonthlyData | src/pages/Dashboard.jsx:61-93 | six points, oldest first, the k-th for the k-th chart month |
| Dashboard.Percentage | src/pages/Dashboard.jsx:234 | 0 without a positive limit; otherwise spent as a percentage of the limit |
| Dashboard.ViewOf | src/pages/Dashboard.jsx:232-251 | progress never above 100, and exactly the percentage when that is at most 100; over budget exactly when the percentage exceeds 100; the excess is spent minus limit |
| Dashboard.OverBudgetMeansExceeded | src/pages/Dashboard.jsx:234-251 | over budget exactly when a positive limit is exceeded, and then the excess is positive |
| Dashboard.BudgetTone | src/pages/Dashboard.jsx:173 | destructive above 90, warning above 75 up to 90, accent at 75 or below |
| Dashboard.BudgetToneMonotone | src/pages/Dashboard.jsx:173 | a higher percentage never gets a calmer colour |

## Left out

- Floating point. `parseFloat`, `toFixed(2)`, `Math.round` and the chart sums are exact here: cents, integers and reals. Rounding differences of IEEE doubles are not modelled.
- The JavaScript regular-expression engine itself. The scanner makes the same choices for this one pattern, and the explanation sits beside `MatchEnd`.
- Characters outside the Basic Multilingual Plane are single characters here, while JavaScript strings count UTF-16 code units.
- `alert` is reduced to the message a method returns. Rendering and the React re-render cycle are not modelled. Neither is the dialog's open state.
- `URL.createObjectURL` and `URL.revokeObjectURL` are numbered tokens and a log of revoked tokens.
- `fetch`, `FormData` and `getApiBaseUrl` are replaced by an outcome parameter.
- ReceiptIntake.Body: JSON bodies other than an object with string fields are not modelled. These are `null`, arrays, and non-string `text` or `error`.
- `addTransaction`'s internals are not modelled; its calls are logged and its outcome is ignored, as the code ignores it.
- ReceiptIntake.Intake.SettleUpload sets the recognised text only once `addTransaction` has settled. The source sets it (`UploadReceiptModal.jsx:85`) before it awaits that call (line 91), so there the text is already visible while the upload is still in flight. `Intake.Valid` keeps the text empty during an upload.
- ReceiptIntake.Intake.HandleUpload requires that no upload is in flight, because the submit button is disabled then (`UploadReceiptModal.jsx:212`). A second submission while one is in flight is not modelled.
- Interleavings of other handlers with an upload in flight are covered only as far as the methods allow: a file may be selected or removed between `HandleUpload` and `SettleUpload`.
- ReceiptIntake.FormatFileSize covers only the empty file. Other sizes need `Math.log`, `toFixed` and `parseFloat`, which are floating-point formatting.
- The clock and locale: `new Date()`, `toISOString` and `toLocaleDateString` of a transaction. Now is a parameter, and the filed date is an opaque string.
- Parsing date strings, and the time zone in which `getMonth` reads them, are not modelled. A transaction's month is given.
- Dashboard.Transaction: amounts that are strings in the store are not modelled (`parseFloat(t.amount || 0)` of a string). Amounts are numbers of cents.
- `getFinancialMetrics`, `getSpendingByCategory` and `getBudgetMetrics` live in the transaction and budget stores, which are not part of this model. Only the budget-used percentage they produce is classified.
- The server's file staging, static file serving, logging and listening, in `backend/index.js`. Only the reply of the OCR route is modelled.
- `src/lib/api.js` is a configuration lookup and is not part of this model.
