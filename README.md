# Form-submission pipeline, modelled in Dafny

This project models the core of a TypeScript service that accepts a customer's
form submission, validates it, and then sends it to each of the customer's
configured endpoints. For each endpoint the service builds a payload field by
field (default values, inclusion predicates, transform steps, merging) and
posts it under a retry loop with exponential backoff. Every outcome is recorded
in a shared metrics record.

Modules, one per source file:

- `JsValues` (`values.dfy`) and `JsText` (`text.dfy`): the JavaScript
  semantics the source relies on.
  - The dynamic value (`Value`: string, number, boolean, null, undefined,
    array, object).
  - `Number(...)` and `String(...)` coercion.
  - `trim`, `split` and `join` with a one-character separator.
  - Decimal printing.
- `Config` (`config.dfy`): the submission and the customer and endpoint
  configuration of `src/types/customerConfig.ts`. Inclusion predicates and
  validation rules are function-valued fields.
- `Transformer` (`transformer.dfy`): `src/utils/transformer.ts`.
  - Name splitting.
  - Date-of-birth reformatting.
  - The nine code tables.
  - Credit-score bands.
  - The boolean converters.
  - The `applyCustomTransform` dispatch.
  - The step-by-step `applyTransformPipeline` loop, as a method proved against
    the chain function `RunChain`.
- `Validator` (`validator.dfy`): `src/utils/validator.ts`.
  - The intrinsic predicates, with the regular expressions written out as
    predicates on characters.
  - `validateSubmission`, as a method that pushes messages, proved equal to
    `Violations`.
- `Retry` (`retry.dfy`): `src/utils/retry.ts`.
  - The `while` loop is a method that returns the result and the number of
    calls.
  - It also returns the trace of calls, waits and hook firings, and is proved
    equal to `RetrySpec`.
- `Metrics` (`metrics.dfy`): `src/utils/metrics.ts`.
  - The record is the class `RunMetrics`, whose methods update its fields in
    place.
  - Each method's effect is stated as one `MetricsUpdate` applied to the
    record's snapshot `Data()`.
- `Pipeline` (`pipeline.dfy`): `src/pipeline/processFormSubmission.ts`.
  - The validation gate.
  - The payload-building loop.
  - The retry-wrapped post.
  - The metrics bookkeeping, with a specification `RunSpec` for the whole run
    and `RunUpdates` for its effect on the metrics.

The service's collaborators are parameters:

- the language-model extraction service, `Externals.extract`;
- JavaScript `Date` parsing behind the `dob-ISO` and `timestamp` steps;
- `Date.UTC` normalisation of out-of-range dates;
- the HTTP post (`Poster`, the answer to the n-th post of a payload);
- the clock (`start` and `now`);
- the clock-dependent `isValidDOB` check.

Throughout, `Err` stands for a thrown exception.

## Model

| member | source | states |
|---|---|---|
| JsText.TrimEmptyIff | src/utils/validator.ts:35 | `trim()` yields the empty string exactly when every character is whitespace |
| JsText.JoinSplit | src/utils/transformer.ts:8-9 | joining the pieces of `split(sep)` with `sep` gives the string back |
| JsText.SplitJoin | src/utils/transformer.ts:8-9 | splitting a join of separator-free pieces gives the pieces back |
| JsText.SplitPiecesIff | src/utils/validator.ts:7 | `split(sep)` yields at least two pieces exactly when `sep` occurs |
| JsText.CanonicalDigits | src/utils/transformer.ts:29-33 | printing the value of a digit string without a leading zero gives the string back |
| JsValues.DigitStringToNumber | src/utils/transformer.ts:19-22 | `Number` of a non-empty digit string is its decimal value |
| Transformer.SplitFullName | src/utils/transformer.ts:7-11 | the first name never contains a space |
| Transformer.SplitFullNameRoundTrip | src/utils/transformer.ts:7-11 | first name + " " + last name is the trimmed input when it has a space; otherwise all of it is the first name and the last name is empty |
| Transformer.SplitFullNameThreeWords | src/utils/transformer.ts:8-9 | only the first space separates: of three words, the last two stay together as the last name |
| Transformer.SplitFullNameExample | tests/util/transformer.test.ts:8-11 | "Jane Doe" splits into "Jane" and "Doe" |
| Transformer.ConvertDobRejectsIff | src/utils/transformer.ts:17-25 | convertDOB throws exactly when the input has neither '-' nor '/', and then with "Invalid date format" |
| Transformer.ConvertDobReadsDashFirst | src/utils/transformer.ts:17-22 | with a '-' the pieces are read as year, month, day; else with a '/' as month, day, year; an exact date so read is printed in the requested format |
| Transformer.FormattedPieces | src/utils/transformer.ts:28-33 | `Number` of the printed year and the padded month and day gives back the date's numbers |
| Transformer.ReadYearMonthDay | src/utils/transformer.ts:17-33 | a date printed as YYYY-MM-DD takes the '-' branch and is read back as the same date |
| Transformer.ReadMonthDayYear | src/utils/transformer.ts:20-33 | a date printed as MM/DD/YYYY has no '-', takes the '/' branch and is read back as the same date |
| Transformer.ConvertDobRoundTrip | src/utils/transformer.ts:13-34 | converting an exact date printed in either format yields that date printed in the requested format, so converting back returns the original |
| Transformer.FormatDateExample | tests/util/transformer.test.ts:13-21 | 2000-01-15 prints as "2000-01-15" and "01/15/2000" |
| Transformer.ConvertDobExamples | tests/util/transformer.test.ts:13-21 | "2000-01-15" converts to "01/15/2000" and "01/15/2000" converts to "2000-01-15" |
| Transformer.LookupCodeOrFallback | src/utils/transformer.ts:46-137 | a lookup yields the code of the entry the value names, and the table's fallback when it names none |
| Transformer.TableFallbacks | src/utils/transformer.ts:46-137 | the nine fallbacks: "UE", 0, 1, 0, "E", 1, "A", "O", "LN" |
| Transformer.EmploymentCodesTruthy | src/utils/transformer.ts:47-54 | every employment code is truthy, so that table's `\|\|` falls back exactly where `??` would |
| Transformer.LookupExamples | src/utils/transformer.ts:46-137 | a known key of each table yields its mapped code |
| Transformer.LookupAsWrittenMissesFallback | src/utils/transformer.ts:47-54 | the lookup as written returns an inherited member for "constructor"; the corrected lookup returns "UE" |
| Transformer.LookupAsWrittenAgreesElsewhere | src/utils/transformer.ts:46-137 | outside the names of Object.prototype members, the lookup as written and the corrected lookup agree |
| Transformer.CreditCategoryBands | src/utils/transformer.ts:139-144 | Poor below 580, Fair from 580 below 670, Good from 670 below 740, Excellent from 740 (each an if-and-only-if) |
| Transformer.CreditCategoryMonotone | src/utils/transformer.ts:139-144 | a higher score never gets a lower category |
| Transformer.CreditCategoryExamples | tests/util/transformer.test.ts:69-71 | 720 is Good; beyond the test, 580 is Fair, and an undefined score becomes NaN, fails every comparison and is Excellent |
| Transformer.BooleanConvertersInjective | src/utils/transformer.ts:146-152 | true/false map to "Y"/"N" and "true"/"false", and distinct booleans give distinct strings |
| Transformer.ApplyCustomTransform | src/utils/transformer.ts:155-196 | an identifier outside the sixteen known ones returns the value unchanged |
| Transformer.UnknownStepIsIdentity | tests/util/transformer.test.ts:83-86 | an unknown identifier is the identity, alone or as a one-step chain |
| Transformer.RunChainAppend | src/utils/transformer.ts:201-213 | the chain is a left fold: running a + b is running b on the result of a, and a failure stops it |
| Transformer.LlmSeesIntermediate | src/utils/transformer.ts:205-207 | an "llm" step sends the current intermediate value to the extraction service |
| Transformer.LlmThenBoolStrExample | tests/util/transformer.test.ts:88-97 | ["llm", "boolStr"] with an extraction answer of true yields "true" |
| Transformer.ApplyTransformPipeline | src/utils/transformer.ts:201-214 | the loop yields the chain of the steps; a single identifier is a one-step chain |
| Validator.FullNameIff | src/utils/validator.ts:6-8 | a name is valid exactly when a space remains after trimming |
| Validator.TrimKeepsInnerSpace | src/utils/validator.ts:6-8 | a space remains after trimming exactly when some space has non-whitespace on both sides |
| Validator.NonEmptyIff | src/utils/validator.ts:34-36 | isNonEmpty holds exactly for strings with a non-whitespace character |
| Validator.CreditScoreBounds | src/utils/validator.ts:30-32 | 300 and 850 pass, 299 and 851 fail, and a numeric string fails |
| Validator.EmailIff | src/utils/validator.ts:20-23 | the e-mail pattern holds exactly for one '@' with text before it and an inner '.' after it, and no whitespace |
| Validator.PhoneDigits | src/utils/validator.ts:25-28 | a digit string is a phone number exactly when it has 7 to 20 digits; a character outside the class makes it invalid |
| Validator.PhoneDigitsNumber | src/utils/validator.ts:25-28 | a non-negative integer is a phone number exactly when it prints with 7 to 20 digits |
| Validator.OctetIff | src/utils/validator.ts:43 | an octet alternative matches exactly the decimal numerals of 0..255 without leading zeros |
| Validator.IPIff | src/utils/validator.ts:42-45 | the address pattern holds exactly for four dot-joined octets |
| Validator.CheckResults | src/utils/validator.ts:55-77 | one verdict for each of the eight intrinsic checks, in order: entry k holds exactly when check k passes |
| Validator.ValidateSubmission | src/utils/validator.ts:48-91 | the pushed messages are the failed checks' messages in check order, then the failing rules' messages in rule order |
| Validator.AppendRuleFailures | src/utils/validator.ts:80-88 | the rule loop appends the failing rules' messages to the list it is given |
| Validator.FailedChecksMessages | src/utils/validator.ts:55-77 | a check message is reported exactly when that check failed |
| Validator.FailedChecksEmptyIff | src/utils/validator.ts:55-77 | no check message is reported exactly when every check passes |
| Validator.FailedChecksCount | src/utils/validator.ts:55-77 | one message per failed check, with no short-circuit |
| Validator.RuleFailuresMessages | src/utils/validator.ts:80-88 | "Custom validation failed for f" is reported exactly when a rule registered under f fails |
| Validator.RuleFailuresEmptyIff | src/utils/validator.ts:80-88 | no rule message is reported exactly when every rule holds |
| Validator.ViolationsEmptyIff | src/utils/validator.ts:52-90 | the result is empty exactly when every check passes and every rule holds |
| Validator.CheckMessagesAreNotRuleMessages | src/utils/validator.ts:55-88 | no check message can be mistaken for a rule message |
| Validator.CheckMessagesDistinct | src/utils/validator.ts:55-77 | the eight check messages are pairwise distinct |
| Validator.CheckMessageIff | src/utils/validator.ts:55-77 | check k's message is in the result exactly when check k fails |
| Validator.RuleMessageIff | src/utils/validator.ts:80-88 | field f's rule message is in the result exactly when a rule for f fails |
| Retry.FirstSuccessFrom | src/utils/retry.ts:19-33 | the first successful call in a range, with every earlier call failed |
| Retry.FirstSuccessIs | src/utils/retry.ts:19-33 | a call preceded only by failures and itself successful (or the last) is that first success |
| Retry.Retry | src/utils/retry.ts:9-54 | the loop's result, number of calls and trace of calls, waits and hook firings are those of the specification `RetrySpec` |
| Retry.CallBounds | src/utils/retry.ts:16-53 | with retries >= 0, fn is called between 1 and retries + 1 times; with retries < 0 it is never called and "Unexpected retry loop exit" is thrown |
| Retry.StopsAtFirstSuccess | src/utils/retry.ts:19-31 | every call but the last failed, and the last call's outcome is returned |
| Retry.SuccessAt | src/utils/retry.ts:19-31 | when call k is the first to succeed and k <= retries, there are k + 1 calls and call k's value is returned |
| Retry.Exhausted | src/utils/retry.ts:33-41 | when all retries + 1 calls fail, the last call's error is rethrown |
| Retry.SucceedsIff | src/utils/retry.ts:19-41 | retry succeeds exactly when one of calls 0..retries would succeed |
| Retry.TwoFailuresThenSuccess | tests/pipeline/processFormSubmission.test.ts:138-160 | two failures then a success with retries = 2 give 3 calls and the exact trace of waits and hooks |
| Retry.RoundProjections | src/utils/retry.ts:21-49 | round k holds call k, and for k > 0 the wait delayMs * backoffFactor^(k-1) and hook firing k |
| Retry.ScheduleProjections | src/utils/retry.ts:17-49 | over n calls: calls 0..n-1, n - 1 hook firings and n - 1 waits, the k-th wait being delayMs * backoffFactor^k |
| Retry.HookPrecedesAttempt | src/utils/retry.ts:21-31 | the first event is call 0, and every later call is immediately preceded by the hook firing for it |
| Metrics.IncrementRetryEntry | src/utils/metrics.ts:38-43 | incrementRetry raises the named entry by one (an absent entry becomes 1) and leaves every other entry and key as it was |
| Metrics.ApplyAllConsistent | src/utils/metrics.ts:28-36 | updates preserve totalSubmissions == successCount + failureCount |
| Metrics.InitialConsistent | src/utils/metrics.ts:9-15 | the invariant holds from the initial record on |
| Metrics.NeverDecrease | src/utils/metrics.ts:22-43 | no update lowers a counter or a retry entry or drops a timing |
| Metrics.ApplyAllCounts | src/utils/metrics.ts:22-43 | outcomes raise success + failure and the total by their number, increments raise their entry, timings extend the list |
| Metrics.RunMetrics.constructor | src/utils/metrics.ts:9-15 | the record starts with zero counters, no retry entries and no timings |
| Metrics.RunMetrics.EndTimer | src/utils/metrics.ts:22-26 | returns now - start and appends it to submissionTimes, changing nothing else |
| Metrics.RunMetrics.RecordSuccess | src/utils/metrics.ts:28-31 | successCount and totalSubmissions grow by one, nothing else changes |
| Metrics.RunMetrics.RecordFailure | src/utils/metrics.ts:33-36 | failureCount and totalSubmissions grow by one, nothing else changes |
| Metrics.RunMetrics.IncrementRetry | src/utils/metrics.ts:38-43 | the record after one retry increment of the endpoint, nothing else changes |
| Pipeline.RawValueSource | src/pipeline/processFormSubmission.ts:37 | the raw value is the form value unless null or undefined, then the customer default, else undefined |
| Pipeline.FieldTransformIsChain | src/pipeline/processFormSubmission.ts:44-64 | the orchestrator's dispatch equals the chain of the configured steps, and no configuration is the identity |
| Pipeline.MergeKeys | src/pipeline/processFormSubmission.ts:66-70 | an object result is merged key by key with its keys winning, null adds nothing, any other result is stored under the field name; other keys keep their values |
| Pipeline.LlmThenSplitNameMerged | tests/pipeline/processFormSubmission.test.ts:99-136 | the chain ["llm", "splitName"] puts the extracted name's first word under firstName and the rest under lastName |
| Pipeline.KeptFields | src/pipeline/processFormSubmission.ts:39-42 | a field is kept exactly when it is one of the endpoint's fields and its inclusion predicate does not reject the form |
| Pipeline.ExcludedFieldsIgnored | src/pipeline/processFormSubmission.ts:39-42 | the payload equals the one built from the kept fields alone, defaults notwithstanding |
| Pipeline.PayloadKeyOrigin | src/pipeline/processFormSubmission.ts:35-70 | every key of a built payload was written by a kept field's transform, under the field's name or as a key of its object |
| Pipeline.PayloadKeyPresent | src/pipeline/processFormSubmission.ts:35-70 | conversely, every key a kept field's transform writes is in the built payload; later fields never remove it |
| Pipeline.PayloadLastWriter | src/pipeline/processFormSubmission.ts:35-70 | the last write wins: a key holds the value written by the last kept field whose transform produces it |
| Pipeline.TransformField | src/pipeline/processFormSubmission.ts:44-64 | the dispatch yields the field's transform |
| Pipeline.BuildPayload | src/pipeline/processFormSubmission.ts:32-76 | the loop yields the payload of the endpoint's fields, or the first transform error |
| Pipeline.FailureStays | src/pipeline/processFormSubmission.ts:31-101 | once a transform throws, the payload stays failed with that error |
| Pipeline.RetryDefaults | src/pipeline/processFormSubmission.ts:86-88 | missing retry options default to 3 retries, 500 ms and factor 2; given ones are used as is |
| Pipeline.DefaultWaits | src/pipeline/processFormSubmission.ts:86-88 | the default waits are 500, 1000 and 2000 ms |
| Pipeline.ReplayRetryHooks | src/pipeline/processFormSubmission.ts:92 | the hook's firings become retry increments of the endpoint, in order |
| Pipeline.DeliverToEndpoint | src/pipeline/processFormSubmission.ts:31-107 | the endpoint task's outcome is its specification; the metrics receive its hook increments, then one success (a post that resolved to a response) or failure |
| Pipeline.EmptyResponseRecordsFailure | src/pipeline/processFormSubmission.ts:81-107 | a first post that resolves to null or undefined ends the retries after one call, but reading its status throws, so the endpoint records exactly one failure |
| Pipeline.DeliverAll | src/pipeline/processFormSubmission.ts:30-110 | the tasks' outcomes and metrics updates, endpoint after endpoint |
| Pipeline.DeliverAndTime | src/pipeline/processFormSubmission.ts:110-112 | the tasks, then one timing of now - start |
| Pipeline.ProcessFormSubmission | src/pipeline/processFormSubmission.ts:13-115 | the run is `RunSpec`, and the metrics are the old record with the run's updates applied |
| Pipeline.GateRejectsIff | src/pipeline/processFormSubmission.ts:20-26 | the submission is rejected exactly when a check or a rule fails, with the validation messages as its errors |
| Pipeline.RejectedRunEffects | src/pipeline/processFormSubmission.ts:20-26 | a rejected run records one failure, and changes no success count, retry entry or timing |
| Pipeline.OneOutcomePerEndpoint | src/pipeline/processFormSubmission.ts:30-110 | one outcome per enabled endpoint, each that endpoint's own task, whatever the others did |
| Pipeline.HookUpdatesCounts | src/pipeline/processFormSubmission.ts:92 | the replayed hooks record no outcome and no timing, and increment only their endpoint, once per firing |
| Pipeline.EndpointUpdatesCounts | src/pipeline/processFormSubmission.ts:92-107 | each endpoint records exactly one outcome, and raises its counter once per re-attempt |
| Pipeline.DeliveredRunCounts | src/pipeline/processFormSubmission.ts:100-112 | a delivered run records one outcome per endpoint, one timing, and each endpoint name's re-attempts |
| Pipeline.DeliveredRunEffects | src/pipeline/processFormSubmission.ts:100-112 | after a passing gate, success + failure and the total grow by the number of endpoints, one timing of the duration is appended, and retry counters grow by the re-attempts |
| Pipeline.FirstDeliveryAttempt | src/pipeline/processFormSubmission.ts:81-94 | an endpoint whose payload builds is posted with that payload: the first event is call 0, a single call returns the answer to posting it to the endpoint's URL, and re-attempts are calls - 1 |
| Pipeline.TransformFailureNotPosted | src/pipeline/processFormSubmission.ts:101-107 | an endpoint whose payload cannot be built is not posted and records exactly one failure |

## Left out

- Concurrency of `Promise.all` (src/pipeline/processFormSubmission.ts:110): the endpoint tasks run one after the other. They share only the metrics updates.
- Retry.Retry: the `onRetry` hook is recorded in the trace, and the orchestrator replays its increments after the loop; nothing reads the metrics in between. The `setTimeout` waits are recorded in the trace rather than slept.
- Retry.Retry: `retries`, `delayMs` and `backoffFactor` are an integer and two exact reals. A fractional or NaN retry count, and floating-point rounding of the delays, are not modelled.
- Transformer.ApplyCustomTransform: the nine table steps use the corrected `Lookup`, not `LookupAsWritten`. A value naming an Object.prototype member (such as "constructor") therefore gets the table's fallback code in the dispatch, and in the payloads built through it, where the source returns the inherited member (see Findings).
- Metrics.RunMetrics.IncrementRetry: an endpoint named after an Object.prototype member (such as "constructor") finds an inherited function in `retries`, and `++` turns it into NaN. The model treats every name as an own key.
- `getMetrics`, `logSummary`, `startTimer` and the logger: console output, floating-point averages and the clock. The clock readings are the parameters `start` and `now`.
- Transformer.ConvertDob: computed exactly for dates whose pieces are integers naming a real calendar day of the years 100 to 9999. For other pieces, `Date.UTC` normalisation (overflowing days and months, years 0 to 99, NaN) comes from the `utcFallback` parameter.
- `convertToUnixTimestamp` and `convertToISO8601` (src/utils/transformer.ts:38-44) depend on JavaScript `Date` parsing. They are the `toUnixTimestamp` and `toIso8601` parameters. `toUnixTimestamp` may answer any value, where the source always yields a number. That number is NaN for an unparsable date, which the model's `Value` cannot hold, so its answer is not narrowed.
- `isValidDOB` (src/utils/validator.ts:11-18) depends on the clock and the local time zone. It is the `isValidDob` parameter.
- src/utils/llm.ts, the network call behind `applyTransformLLM`: it is the `extract` parameter, and may fail. It is a function, so two extractions of the same field and value get the same answer. The real service need not behave this way.
- The `axios.post` delivery: it is the `Poster` parameter, which answers the n-th post of a payload. It is a function, so two endpoints posting the same payload to the same URL get the same answer at each attempt. A real server need not behave this way. The response's `status` and `statusText` are read only for a log line, so any response other than null or undefined counts as a success. Reading them from null or undefined throws, and that counts as a failure.
- JsValues.StringForm: `String(...)` of a number is rendered only for integers below 10^21. A bare number of another kind fails the three regular-expression checks and names no table entry, which matches what its printed form does. An array holding such a number is treated as having no string form, so the e-mail check rejects it where JavaScript may accept it: `[1.5, "a@b.co"]` prints as `"1.5,a@b.co"`, which matches the e-mail pattern. No table key contains a comma, so the code tables are unaffected. The phone and address checks are unaffected too, since the printed form holds a '.', an 'e' or a ','.
- Key order of payload objects is not modelled; payloads are maps.
- Config.ValidationRule and Config.EndpointConfig.includeIf: customer closures are total functions that always answer. In the source either can throw, with two consequences. First, a validation rule that throws (src/utils/validator.ts:84, outside any `try`) aborts processFormSubmission at line 20 with no recorded failure, no post and no timing. The model instead rejects or passes, and `Pipeline.RejectedRunEffects` records one failure. Second, an inclusion predicate that throws (src/pipeline/processFormSubmission.ts:39, inside the endpoint's `try`) makes that endpoint post nothing and record one failure. The model has no such outcome.
- JsValues.StringToNumber: a decimal string is read as an exact real, not rounded to the nearest double as JavaScript's `Number` does. So the "creditCategory" step on `"579.99999999999999999"` gives "Poor" in the model. JavaScript reads 580 and gives "Fair". Numbers given as `Num` are unaffected.
- Customer validation rules are a sequence in the order `Object.entries` reports them. JavaScript's placement of integer-like keys first is not modelled.
- `typeof transformed === "object"` is true for Date and other class instances; the model's values have no such objects.
- src/main.ts, src/testRunner.ts and src/mock are a launcher and fixtures. src/types/customerConfig.ts is only shapes, modelled in `Config`.

## Findings

| source | as written | input that shows it | evidently intended | confidence | as-written member | corrected member |
|---|---|---|---|---|---|---|
| src/utils/transformer.ts:47-54 | the code tables are object literals, so `map[status] \|\| "UE"` (and `map[key] ?? fallback` in the other eight) also finds members inherited from Object.prototype | `employmentStatusToCode("constructor")` returns the Object constructor function, not "UE" | an input that names no table entry gets the table's fallback code | not executed | Transformer.LookupAsWrittenMissesFallback | Transformer.LookupCodeOrFallback |
