# EmailScraperPro core, modelled in Dafny

EmailScraperPro is a single-page app. It turns a free-text request ("Find 10
deal sourcers at VC firms in London") into an instruction for a chat model. It
then reads the model's reply as a JSON array of contact records, filters out
unusable addresses and lets the user download the records as CSV. This project
models the app's string logic and proves what it guarantees:

- `types.dfy` (module `Types`): `Option`, `Result` and the contact record
  `EmailResult`.
- `text.dfy` (module `Text`): the JavaScript string operations the code uses.
  These are `toLowerCase` (ASCII letters), `includes`, `startsWith`, `join`
  and `trim` (with ECMAScript's whitespace set). The module also holds a
  one-character `Split`, which the code never calls: it is the reading side
  of the CSV round trip below.
- `prompt_optimizer.dfy` (module `PromptOptimizer`): `optimizePrompt` and its
  seven extractors.
  - The three cumulative extractors are methods that push labels one test at a
    time, as the source does. They are proved equal to a declarative reading of
    a keyword table.
  - The first-match extractors are `if` chains, proved equal to the first-match
    reading of their tables.
  - The count extractor is a scanning matcher, proved to return the group of
    the leftmost match of `(\d+)\s*email` (case-insensitive).
  - The template is a list of lines joined with newlines, then trimmed.
    `ExtractInfo` fills it from `ExtractCount` and the table readings
    (`JobFunctions`, `Industry`, `Location`, `CompanySize`,
    `EmailRestrictions`, `OutputFormat`). The lemmas above prove these equal
    to the source's own functions.
- `openai_service.dfy` (module `OpenAiService`): what `generateEmails` does
  with the reply.
  - It cuts out the JSON array with the greedy bracket pattern.
  - It filters the parsed records.
  - It collapses every failure into one generic error.
  - The chat request and `JSON.parse` are parameters.
- `app.dfy` (module `App`): the CSV text `exportToCSV` builds, a reader that
  parses it back (to state the round trip), and the page state as a class
  whose `HandleSearch` method performs the guards and state updates of
  `handleSearch`. The reader (`ParseRow`, `ParseRows`, `ParseCsv`) is this
  model's own, not an RFC 4180 reader. It takes five comma-separated cells
  and then the rest of the line with its outer quotes removed. A standard
  CSV reader would misread a context that holds `"`, because the export does
  not escape quotes.

## Model

| member | source | states |
|---|---|---|
| PromptOptimizer.OptimizePromptStartsWithTask | src/utils/promptOptimizer.ts:14-15 | For every request, the instruction starts with "TASK: Generate a list of ", then the extracted count, then " professional email contacts"; the template's leading newline is gone. |
| PromptOptimizer.InstructionSurvivesTrim | src/utils/promptOptimizer.ts:14-47 | `.trim()` removes only the leading newline. The filled-in template body comes back whole, whatever the extracted values are. |
| PromptOptimizer.InstructionStartsWithTaskLine | src/utils/promptOptimizer.ts:15 | The untrimmed body opens with its first line, "TASK: Generate a list of" followed by the count. |
| PromptOptimizer.InstructionShowsLine | src/utils/promptOptimizer.ts:14-47 | Every line of the filled-in template occurs in the instruction. |
| PromptOptimizer.FieldLineNamesField | src/utils/promptOptimizer.ts:32-37 | Each field line of the JSON shape shows its field name in quotes. |
| PromptOptimizer.InstructionNamesFields | src/utils/promptOptimizer.ts:29-38 | For any extracted values, the OUTPUT FORMAT block names all six record fields in quotes. |
| PromptOptimizer.OptimizePromptNamesFields | src/utils/promptOptimizer.ts:29-38 | For every request, the instruction contains `"firstName"`, `"lastName"`, `"jobTitle"`, `"emailAddress"`, `"companyName"` and `"context"`. |
| PromptOptimizer.InstructionListsValues | src/utils/promptOptimizer.ts:17-27 | The TARGET PROFESSIONALS bullets carry the job functions, industry, location and company size. The last EMAIL REQUIREMENTS bullet carries the restrictions. |
| PromptOptimizer.OptimizePromptListsValues | src/utils/promptOptimizer.ts:3-27 | For every request, the instruction carries the values the extractors return for it, on their bullet lines. |
| PromptOptimizer.OutputFormatIsUnused | src/utils/promptOptimizer.ts:10-47 | The instruction is the same whatever the output format is: the value is computed and never used. |
| PromptOptimizer.RunEnd | src/utils/promptOptimizer.ts:53 | A maximal run: every character from the start up to the returned end satisfies the class, and the end is the text's end or a character outside it. |
| PromptOptimizer.RunEndAt | src/utils/promptOptimizer.ts:53 | A run is determined by its first failing index. |
| PromptOptimizer.EmailStartsWithLetter | src/utils/promptOptimizer.ts:53 | Where "email" matches case-insensitively, the first character is neither a digit nor whitespace. |
| PromptOptimizer.CountMatchIsMaximal | src/utils/promptOptimizer.ts:53 | Every match of `(\d+)\s*email` at a start uses the maximal digit run and the maximal whitespace run, so backtracking cannot change the group. |
| PromptOptimizer.MatchAtIff | src/utils/promptOptimizer.ts:53 | The matcher's test at a start succeeds exactly when the pattern has a match starting there. |
| PromptOptimizer.CountCaptureFrom | src/utils/promptOptimizer.ts:53 | A reported group is a non-empty run of digits. |
| PromptOptimizer.CountCaptureFromNone | src/utils/promptOptimizer.ts:53-54 | The matcher finds nothing exactly when no start matches. |
| PromptOptimizer.CountCaptureFromFirst | src/utils/promptOptimizer.ts:53-54 | The matcher reports the group of the first start that matches. |
| PromptOptimizer.ExtractCount | src/utils/promptOptimizer.ts:52-55 | The count is "25" or a non-empty string of digits. |
| PromptOptimizer.ExtractCountIsLeftmostMatch | src/utils/promptOptimizer.ts:52-55 | With no match the count is "25". Otherwise it is the digit group of the leftmost match. |
| PromptOptimizer.MatchedAppend | src/utils/promptOptimizer.ts:58-80 | Testing one more rule appends its label when it fires. |
| PromptOptimizer.MatchedUpToPrefix | src/utils/promptOptimizer.ts:58-80 | After `k` tests, the pushed list is what the first `k` rules of the table report. |
| PromptOptimizer.MatchedUpToAll | src/utils/promptOptimizer.ts:58-80 | After all tests, the pushed list is what the whole table reports. |
| PromptOptimizer.MatchedMembers | src/utils/promptOptimizer.ts:58-80 | A label is reported exactly when a rule carrying it fires. |
| PromptOptimizer.MatchedOrder | src/utils/promptOptimizer.ts:58-80 | Two firing rules report their labels in table order. |
| PromptOptimizer.MatchedDistinct | src/utils/promptOptimizer.ts:58-80 | With distinct labels in the table, no label is reported twice. |
| PromptOptimizer.CumulativeDefaultIff | src/utils/promptOptimizer.ts:82 | The cumulative answer is the default exactly when no rule fires. |
| PromptOptimizer.CumulativeSpec | src/utils/promptOptimizer.ts:57-83 | For any table with distinct labels, none of which begins the default, the cumulative answer is the default exactly when nothing fires. Otherwise it is the ", " join of every firing label, each once, in table order. |
| PromptOptimizer.JobFunctionsSpec | src/utils/promptOptimizer.ts:57-83 | The job functions are the default exactly when no keyword occurs. Otherwise they list each matched label once, in the order Deal Sourcers, Deal Originators, Investment Professionals, Investment Analysts, Investment Associates, Principals, Partners, joined with ", ". |
| PromptOptimizer.LocationSpec | src/utils/promptOptimizer.ts:98-115 | The location is "Global" exactly when no keyword occurs. Otherwise it lists each matched place once, in the order United Kingdom, London, United States, Europe, joined with ", ". |
| PromptOptimizer.EmailRestrictionsSpec | src/utils/promptOptimizer.ts:130-144 | The restrictions are the default exactly when no keyword occurs. Otherwise they list each matched clause once, in source order, joined with ", ". |
| PromptOptimizer.FirstWinsSpec | src/utils/promptOptimizer.ts:85-96 | The first-match reading returns the label of the first firing rule. |
| PromptOptimizer.FirstWinsDefault | src/utils/promptOptimizer.ts:95 | The first-match reading returns the default when no rule fires. |
| PromptOptimizer.FiresOne | src/utils/promptOptimizer.ts:63 | A one-pattern rule fires exactly when its keyword occurs. |
| PromptOptimizer.FiresTwo | src/utils/promptOptimizer.ts:60 | A two-pattern rule fires exactly when either keyword occurs, as the `\|\|` tests do. |
| PromptOptimizer.JobFunctionsStep0 | src/utils/promptOptimizer.ts:60-62 | The first test pushes "Deal Sourcers" exactly when the first rule fires. |
| PromptOptimizer.JobFunctionsStep1 | src/utils/promptOptimizer.ts:63-65 | The second test pushes "Deal Originators" exactly when the second rule fires. |
| PromptOptimizer.JobFunctionsStep2 | src/utils/promptOptimizer.ts:66-68 | The third test pushes "Investment Professionals" exactly when the third rule fires. |
| PromptOptimizer.JobFunctionsStep3 | src/utils/promptOptimizer.ts:69-71 | The fourth test pushes "Investment Analysts" exactly when the fourth rule fires. |
| PromptOptimizer.JobFunctionsStep4 | src/utils/promptOptimizer.ts:72-74 | The fifth test pushes "Investment Associates" exactly when the fifth rule fires. |
| PromptOptimizer.JobFunctionsStep5 | src/utils/promptOptimizer.ts:75-77 | The sixth test pushes "Principals" exactly when the sixth rule fires. |
| PromptOptimizer.JobFunctionsStep6 | src/utils/promptOptimizer.ts:78-80 | The seventh test pushes "Partners" exactly when the seventh rule fires. |
| PromptOptimizer.ExtractJobFunctions | src/utils/promptOptimizer.ts:57-83 | The seven pushes followed by the join-or-default compute the cumulative reading of the job-function table. |
| PromptOptimizer.JobFunctionRulesWellFormed | src/utils/promptOptimizer.ts:57-83 | The job-function labels are distinct, and none begins the default. |
| PromptOptimizer.JobFunctionsDefaultIff | src/utils/promptOptimizer.ts:57-83 | The job functions are "Investment professionals, deal sourcers, analysts" exactly when none of the eight keywords occurs. |
| PromptOptimizer.LocationStep0 | src/utils/promptOptimizer.ts:101-103 | The first test pushes "United Kingdom" exactly when its rule fires. |
| PromptOptimizer.LocationStep1 | src/utils/promptOptimizer.ts:104-106 | The second test pushes "London" exactly when its rule fires. |
| PromptOptimizer.LocationStep2 | src/utils/promptOptimizer.ts:107-109 | The third test pushes "United States" exactly when its rule fires. |
| PromptOptimizer.LocationStep3 | src/utils/promptOptimizer.ts:110-112 | The fourth test pushes "Europe" exactly when its rule fires. |
| PromptOptimizer.ExtractLocation | src/utils/promptOptimizer.ts:98-115 | The four pushes followed by the join-or-"Global" compute the cumulative reading of the location table. |
| PromptOptimizer.LocationRulesWellFormed | src/utils/promptOptimizer.ts:98-115 | The location labels are distinct, and none begins "Global". |
| PromptOptimizer.LocationGlobalIff | src/utils/promptOptimizer.ts:98-115 | The location is "Global" exactly when none of the six keywords occurs. |
| PromptOptimizer.BusinessMeansUnitedStates | src/utils/promptOptimizer.ts:107 | A request containing "business" lists "United States", because it contains "us". |
| PromptOptimizer.RestrictionsStep0 | src/utils/promptOptimizer.ts:133-135 | The first test pushes the personal-domain clause exactly when its rule fires. |
| PromptOptimizer.RestrictionsStep1 | src/utils/promptOptimizer.ts:136-138 | The second test pushes the corporate-domain clause exactly when its rule fires. |
| PromptOptimizer.RestrictionsStep2 | src/utils/promptOptimizer.ts:139-141 | The third test pushes the generic-address clause exactly when its rule fires. |
| PromptOptimizer.ExtractEmailRestrictions | src/utils/promptOptimizer.ts:130-144 | The three pushes followed by `join(', ') \|\| default` compute the cumulative reading of the restriction table. |
| PromptOptimizer.RestrictionRulesWellFormed | src/utils/promptOptimizer.ts:130-144 | The restriction clauses are distinct, and none begins the default. |
| PromptOptimizer.EmailRestrictionsDefaultIff | src/utils/promptOptimizer.ts:130-144 | The restrictions are "Professional corporate emails only" exactly when none of the four keywords occurs. |
| PromptOptimizer.ExtractIndustry | src/utils/promptOptimizer.ts:85-96 | The industry is always one of four labels. |
| PromptOptimizer.IndustryIsFirstMatch | src/utils/promptOptimizer.ts:85-96 | The `if` chain is the first-match reading of the industry table. |
| PromptOptimizer.VentureCapitalWins | src/utils/promptOptimizer.ts:86-88 | "venture capital" or "vc" gives "Venture Capital", whatever else the request says. |
| PromptOptimizer.PeopleMeansPrivateEquity | src/utils/promptOptimizer.ts:89-91 | Without a VC keyword, a request containing "people" reads as "Private Equity", because "people" contains "pe". |
| PromptOptimizer.ExtractCompanySize | src/utils/promptOptimizer.ts:117-128 | The size is always one of four labels. |
| PromptOptimizer.CompanySizeIsFirstMatch | src/utils/promptOptimizer.ts:117-128 | The `if` chain is the first-match reading of the size table. |
| PromptOptimizer.ExtractOutputFormat | src/utils/promptOptimizer.ts:146-151 | The format is one of two labels. It is "Structured format" exactly when neither "spreadsheet" nor "csv" occurs. |
| PromptOptimizer.OutputFormatIsFirstMatch | src/utils/promptOptimizer.ts:146-151 | The test is the first-match reading of a one-rule table. |
| Text.TrimStartSpec | src/utils/promptOptimizer.ts:47 | Trimming the start drops a whitespace prefix and nothing else, and leaves no leading whitespace. |
| Text.TrimEndSpec | src/utils/promptOptimizer.ts:47 | Trimming the end drops a whitespace suffix and nothing else, and leaves no trailing whitespace. |
| Text.TrimEmptyIffBlank | src/App.tsx:19 | `!prompt.trim()` holds exactly when every character of the prompt is whitespace. |
| OpenAiService.FirstIndex | src/utils/openaiService.ts:33 | The first occurrence of a character, or `None` when it is absent. |
| OpenAiService.LastIndex | src/utils/openaiService.ts:33 | The last occurrence of a character, or `None` when it is absent. |
| OpenAiService.ExtractJsonArray | src/utils/openaiService.ts:33 | An extracted text starts with `[`, ends with `]` and has at least two characters. |
| OpenAiService.ExtractJsonArrayIsRegexMatch | src/utils/openaiService.ts:33 | The extraction is a match of `\[[\s\S]*\]`, and it covers every other match: it starts leftmost and ends furthest, as the greedy pattern does. |
| OpenAiService.ExtractJsonArrayNoneIff | src/utils/openaiService.ts:33-36 | Extraction fails ("No valid JSON found") exactly when no `]` follows a `[` in the reply. |
| OpenAiService.ExtractJsonArraySurroundings | src/utils/openaiService.ts:33 | Text before the first `[` and after the last `]` is dropped, and the bracketed array is returned as is. |
| OpenAiService.IsKeptIffAcceptable | src/utils/openaiService.ts:41-52 | A record is kept exactly when both names are present, the address holds `@`, no blocked domain occurs in it and no generic mailbox starts it. |
| OpenAiService.IsKeptIgnoresOtherFields | src/utils/openaiService.ts:41-52 | Job title, company name and context never affect the filter. |
| OpenAiService.BareMailboxIsKept | src/utils/openaiService.ts:45 | "bob@" passes: nothing has to follow the `@`. |
| OpenAiService.InfoMailboxIsRefused | src/utils/openaiService.ts:49 | "info@acme.com" is refused. |
| OpenAiService.GmailAddressIsRefused | src/utils/openaiService.ts:46 | "jane@gmail.com" is refused. |
| OpenAiService.SupportMailboxIsKept | src/utils/openaiService.ts:49-51 | "support@acme.com" passes the filter, although the instruction (src/utils/promptOptimizer.ts:25) tells the model to avoid it. |
| OpenAiService.FilterResults | src/utils/openaiService.ts:41 | The filter keeps at most as many records as it was given, and exactly the passing ones. |
| OpenAiService.FilterIsSubsequence | src/utils/openaiService.ts:41 | The kept records are an order-preserving subsequence of the parsed ones. |
| OpenAiService.FilterIdempotent | src/utils/openaiService.ts:41 | Filtering twice gives the same result as filtering once. |
| OpenAiService.FilterKeepsPassingRecords | src/utils/openaiService.ts:41 | Records that all pass come back unchanged. |
| OpenAiService.FilterAppend | src/utils/openaiService.ts:41 | Filtering a concatenation filters each part and concatenates the results. |
| OpenAiService.GenerateEmails | src/utils/openaiService.ts:27-57 | Every failure is the one generic error. Every returned record passes the filter. |
| OpenAiService.GenerateEmailsSucceedsIff | src/utils/openaiService.ts:27-52 | A call succeeds exactly when the reply has non-empty content holding a bracketed array that parses. Its result is then the filtered parse. |
| OpenAiService.EmptyReplyFailsFirst | src/utils/openaiService.ts:27-30 | A missing or empty content fails with "No response" before extraction or parsing. |
| OpenAiService.NoArrayFailsBeforeParsing | src/utils/openaiService.ts:33-36 | Non-empty content without a bracketed array fails before the parser is consulted. |
| OpenAiService.FailuresAreIndistinguishable | src/utils/openaiService.ts:54-57 | Any two failing calls report the same generic error; there is no partial result. |
| App.ExportCsv | src/App.tsx:41-55 | Export produces nothing exactly when there are no results. |
| App.JoinHasNoNewline | src/App.tsx:46-54 | Joining line-free cells with a comma gives a line-free text. |
| App.HeaderHasNoNewline | src/App.tsx:44-46 | The header line holds no line break. |
| App.ExportFirstLineIsHeader | src/App.tsx:44-46 | Whatever the records hold, the first line of the file is the six column names joined with commas. |
| App.RowHasNoNewline | src/App.tsx:47-54 | A row of line-free fields holds no line break. |
| App.ExportLines | src/App.tsx:45-55 | With no line break in any field, the file's lines are the header and then one row per record, in result order: `results.length + 1` lines. |
| App.RowRoundTrip | src/App.tsx:47-54 | When the five unquoted fields hold no comma, `ParseRow` reads a row back as its record. The quoted context may hold anything, quotes included. |
| App.CommaInFirstNameBreaksRow | src/App.tsx:48 | A comma in the first name shifts the cells, so `ParseRow` no longer reads the row back as its record. |
| App.ParseRowsRoundTrip | src/App.tsx:47-54 | `ParseRows` reads comma-free records back from their rows, in order. |
| App.ExportRoundTrip | src/App.tsx:41-55 | With no line break in any field and no comma in an unquoted field, `ParseCsv` reads the exported file back as exactly the records it was made from. |
| App.SearchPage.constructor | src/App.tsx:11-16 | The page starts with an empty prompt, no results, no key, no optimized prompt, and neither loading nor the key dialog. |
| App.SearchPage.HandleSearch | src/App.tsx:18-39 | A whitespace-only prompt changes nothing. A missing key only opens the key dialog. Otherwise the instruction for the prompt is kept and sent with the key. Success replaces the results wholesale; failure keeps them and raises the alert. After a generation, loading is false on success and on failure; the two early returns leave it as it was. Every kept record passes the filter. |
| App.SearchPage.Generate | src/App.tsx:27-35 | The `try` block: the stored instruction is the optimized prompt, and it is the text that is delivered. |
| App.SearchPage.Deliver | src/App.tsx:31-35 | Success stores the generated records and reports it. Failure leaves the results as they were and raises the alert. |

## Left out

- The chat-completion request (src/utils/openaiService.ts:5-25): the model name, temperature, token limit and system message are network I/O against a foreign library. The reply is a `ProviderReply` parameter (`CallFailed` or the first choice's content), and `HandleSearch` takes the request as a `ChatProvider` function.
- `JSON.parse` (src/utils/openaiService.ts:38) is a foreign call. It is a `JsonParser` parameter that yields records or `None` when it throws. Elements that are not objects, and fields that are not strings, are not modelled: a record's fields are always strings.
- `console.error` (src/utils/openaiService.ts:55, src/App.tsx:34) is logging and is left out. `alert` is the `Failed(alert)` outcome of `HandleSearch`.
- The download in `exportToCSV` (src/App.tsx:57-63: Blob, object URL, anchor click) is browser I/O. The model stops at the CSV text and returns `None` where the source returns early.
- The JSX rendering and the components `ApiKeyModal`, `PromptInput` and `ResultsDisplay` are UI only and are not part of this model. Neither is `src/types`: its `EmailResult` is restated in `types.dfy`.
- Async execution and React state batching are not modelled. `HandleSearch` is one sequential step, so the intermediate `loading = true` state, which a render could observe while the request is pending, appears only inside the method.
- The `try` body of `handleSearch` is split into the methods `Generate` and `Deliver`. This split only organizes the proof; the source has no such split.
- `toLowerCase` folds ASCII letters only. Other characters with case mappings are left unchanged.
- App.ExportFirstLineIsHeader: it states the header as the join of the six column names in `HeaderFields`, not as one spelled-out literal.

## Where the code and its description differ

The model follows the code wherever the code and the app's design description disagree:

- The record filter checks only for an `@`, so `bob@` is kept (`OpenAiService.BareMailboxIsKept`).
- The filter does not refuse `support@` addresses, although the instruction asks the model to avoid them (`OpenAiService.SupportMailboxIsKept`).
- The count pattern needs "email" after the digits, so "Find 10 deal sourcers … no info@ addresses" asks for 25 contacts.
- The restriction keywords are "not info@" and "not admin@", so that request adds no generic-address clause.

These are recorded as the source's behaviour, not as defects, so no corrected variant is modelled.
