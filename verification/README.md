# CamPay payment client — a Dafny model of its decision logic

The client is a single Go program, `main.go`. It authenticates against the
CamPay mobile-money gateway and asks the user for a phone number and an amount.
It then requests a collection, polls the transaction's status until it is
final, and prints a summary.

This project models the parts of that program that decide things. The HTTP
calls, the JSON codecs and the terminal are abstracted into parameters. The
model covers:

- **Configuration** (`Config`):
  - Both credentials must be set.
  - The environment defaults to `DEV`.
  - Only the exact string `PROD` selects the production gateway; every other
    value selects the demo gateway.
- **Prompting** (`Prompt`):
  - `promptUser` skips lines that are blank after trimming. It returns the
    first non-blank line, trimmed, or the read error that came first.
    Standard input is a sequence of read results.
- **Phone numbers** (`Prompt`):
  - Trim the input, then delete every space character.
  - A nine-character number starting with `6` gets the country code `237`
    in front.
  - The result must start with `237` and be exactly twelve characters long.
- **Amounts** (`Prompt`, `Decimal`):
  - `strconv.Atoi` (optional sign, decimal digits, 64-bit range) must
    succeed, and the value must be positive.
- **Status polling** (`Poller`):
  - `normalizeStatus` trims and upper-cases a status.
  - The loop makes at most forty status checks. It stops at the first check
    error or at the first `SUCCESSFUL`/`FAILED` status, and reports every
    other status before trying again.
  - The gateway's answers are a sequence of outcomes.
- **Gateway errors** (`Errors`):
  - `formatAPIError` uses the structured `code - message` form exactly when
    the body decoded and carried a non-empty message. Otherwise it uses the
    raw body.
  - `Errors.Message` gives the text each error is printed with.
- **Final verdict** (`Display`): the switch at the end of `displayFinalStatus`.

`Text` models the parts of Go's `strings` package that these operations use
(`TrimSpace`, `ToUpper`, `ReplaceAll(s, " ", "")`), restricted to ASCII.
`Decimal` models `strconv.Atoi` and the `%d` verb. `Wrappers` holds `Option`
and `Result`.

### Phone numbers are not checked for digits

The example numbers in `promptPhone`'s prompt contain only digits
(main.go:218), but the code never checks that the characters are digits. After
trimming and removing spaces, it checks only three things (main.go:228-232):
the length, the leading `6` of a local number, and the `237` prefix. The model
does what the code does:

- `Prompt.LocalNumberCharactersNotChecked` proves that any nine characters
  that start with a `6` and contain no white space are accepted, letters
  included.
- `Prompt.PhoneAcceptedShapes` characterises the accepted inputs exactly.

## Model

| member | source | states |
|---|---|---|
| Config.BaseUrl | main.go:97-100 | the gateway is always one of the two CamPay URLs, and it is the production one exactly when the environment is the string "PROD" |
| Config.Configure | main.go:86-100 | configuration fails with the missing-credentials error exactly when the user name or the password is empty; otherwise the credentials are kept, an empty environment becomes "DEV", and the base URL is production exactly for "PROD" |
| Config.DemoUnlessExactlyProd | main.go:93-100 | with credentials present, any environment other than exactly "PROD" (other casings, the default, anything else) talks to the demo gateway |
| Errors.FormatApiError | main.go:349-355 | the HTTP status is always kept; the error is structured exactly when the body decoded and its message is non-empty, carrying the decoded code and message; otherwise it carries the raw body verbatim |
| Errors.ApiErrorText | main.go:352-354 | both gateway error formats begin with "API error (" and continue past it |
| Errors.Message | main.go:72-73 | the text printed for each error: a gateway error's text begins "API error (", a foreign error's text is printed as it is, and the client's own texts (main.go:91, 233, 246, 310 and Go's "EOF") are non-empty and never begin "API error (" |
| Errors.FixedMessagesDistinct | main.go:72-73 | the client's own error texts are pairwise different, so the printed text tells which error ended the run |
| Errors.ApiErrorTextMentionsStatus | main.go:352-354 | every gateway error text starts with "API error (" and contains the decimal HTTP status |
| Errors.ApiErrorTextMentionsCode | main.go:351-352 | the structured text contains the gateway's error code |
| Errors.ApiErrorTextMentionsMessage | main.go:351-352 | the structured text contains the gateway's error message |
| Errors.ApiErrorTextMentionsEnvelope | main.go:351-352 | the structured text contains both the gateway's error code and its message |
| Errors.ApiErrorTextMentionsBody | main.go:354 | the raw text contains the response body unchanged |
| Errors.TimeoutDistinctFromGatewayErrors | main.go:310 | the polling-timeout message differs from every gateway error message |
| Errors.StructuredErrorExample | main.go:351-352 | a 400 response whose body decodes to code ER201 and message "Invalid amount" reads "API error (400): ER201 - Invalid amount" |
| Errors.RawErrorExample | main.go:354 | a 500 response whose body is not JSON reads "API error (500): internal error" |
| Text.TrimSpace | main.go:210 | trimming never lengthens a string and leaves no white space at either end |
| Text.TrimSpaceIgnoresPadding | main.go:210 | white space added at either end of a string does not change its trimmed form |
| Text.TrimSpaceEmpty | main.go:210-211 | a line trims to the empty string exactly when it consists only of white space |
| Text.TrimSpaceFixpoint | main.go:224 | a string with no white space at either end is unchanged by trimming |
| Text.TrimSpaceIdempotent | main.go:224 | trimming twice is the same as trimming once, so the second trim in `promptPhone` changes nothing |
| Text.UpperChar | main.go:346 | an upper-cased character is not a lower-case letter, is white space exactly when the original is, and non-letters are unchanged |
| Text.UpperCharOfLetter | main.go:346 | a lower-case letter becomes the capital with the same place in the alphabet |
| Text.ToUpper | main.go:346 | upper-casing keeps the length; the character-by-character mapping is `Text.ToUpperPointwise` |
| Text.ToUpperEqualIffIgnoringCase | main.go:346 | two strings of equal length upper-case to the same string exactly when they differ at most in the case of their letters (case equality defined on character codes) |
| Text.ToUpperPointwise | main.go:346 | upper-casing a string upper-cases each character in place |
| Text.ToUpperIdempotent | main.go:346 | an upper-cased string has no lower-case letter, and upper-casing it again changes nothing |
| Text.ToUpperKeepsTrimmed | main.go:346 | upper-casing a trimmed string leaves it trimmed |
| Text.TrimSpaceToUpper | main.go:346 | trimming and upper-casing commute |
| Text.RemoveSpaces | main.go:225 | removing spaces leaves no space character and never lengthens the string |
| Text.RemoveSpacesKeepsOthers | main.go:225 | every character other than a space occurs in the result exactly as often as in the input |
| Text.RemoveSpacesAppend | main.go:225 | removing spaces distributes over concatenation |
| Text.RemoveSpacesFixpoint | main.go:225 | a string without spaces is unchanged |
| Text.RemoveSpacesKeepsEnds | main.go:224-225 | on a trimmed non-empty string, removing spaces keeps its first and last characters |
| Decimal.Atoi | main.go:244 | parsing succeeds exactly on an optional sign followed by one or more decimal digits whose value lies in the signed 64-bit range, and then yields that value |
| Decimal.ShortLiteralsParse | main.go:244 | every well-formed literal of fewer than 19 characters parses, because it cannot overflow 64 bits |
| Decimal.FormatNat | main.go:352 | the decimal rendering of a natural number is non-empty, all digits, and has no leading zero |
| Decimal.FormatInt | main.go:352 | `%d` gives a non-empty text that starts with a minus sign exactly for negative numbers, and only digits otherwise |
| Decimal.FormatNatValue | main.go:352 | the digits of the decimal rendering denote the number rendered |
| Decimal.AtoiFormatRoundTrip | main.go:244 | every 64-bit integer printed with `%d` parses back to itself |
| Decimal.AtoiLeadingZero | main.go:244 | a leading zero in front of a digit string changes neither whether it parses nor its value |
| Prompt.FirstNonBlank | main.go:210-213 | the number of lines `promptUser` skips: every line before it is blank, and the line at it (if any) is not |
| Prompt.FirstNonBlankUnique | main.go:210-213 | any position preceded only by blank lines and holding a non-blank one is the position `FirstNonBlank` finds |
| Prompt.PromptUser | main.go:201-214 | an answer is the trimmed, non-empty text of a line read successfully, preceded only by blank lines; a failure is end of input or the error of one of the reads |
| Prompt.PromptUserStopsAtFirstNonBlank | main.go:205-214 | if read k is the first non-blank one, the prompt answers with it trimmed after k+1 reads, or fails with its error |
| Prompt.PromptUserAllBlank | main.go:205-212 | input made only of blank lines ends in end of input |
| Prompt.PromptUserIgnoresLaterInput | main.go:201-214 | once a prompt has its answer, nothing that follows in the input can change it |
| Prompt.Despace | main.go:224-225 | the normalised number contains no space and has no white space at either end |
| Prompt.NormalizePhone | main.go:224-230 | after the local-number rule the number still contains no space and has no white space at either end |
| Prompt.ValidatePhone | main.go:224-235 | an accepted number starts with 237, has exactly twelve characters and no spaces; a rejected one is the invalid-phone error |
| Prompt.PhoneAcceptedShapes | main.go:228-235 | an input is accepted exactly when, with spaces removed, it is a nine-character number starting with 6 (returned with 237 in front) or a twelve-character one starting with 237 (returned unchanged) |
| Prompt.LocalNumberCharactersNotChecked | main.go:228-232 | any nine characters without white space that start with 6 are accepted, digits or not |
| Prompt.PromptPhone | main.go:217-235 | a prompt failure is passed through; otherwise the phone is accepted exactly when the answer validates, the accepted phone is the validated answer (a 237-prefixed twelve-character number) read with the same number of lines, and a rejected answer is the invalid-phone error |
| Prompt.PromptPhoneLocalNumber | main.go:201-235 | a local number typed on the first non-blank line, with spaces or padding, is returned with 237 in front, and k+1 lines have been read |
| Prompt.ValidateAmount | main.go:244-249 | an amount is accepted exactly when `Atoi` succeeds with a positive value; the accepted value is the parsed one and lies between 1 and the largest 64-bit integer; a rejection is the invalid-amount error |
| Prompt.AmountRoundTrip | main.go:244-249 | every positive 64-bit amount typed in decimal is accepted unchanged |
| Prompt.AmountLeadingZero | main.go:244-249 | a leading zero in a typed amount is ignored: "0500" is accepted as 500, and "00" is rejected like "0" |
| Prompt.PromptAmount | main.go:238-249 | a prompt failure is passed through; otherwise the amount is accepted exactly when the answer validates, the accepted amount is the parsed value (at least 1) with the same number of lines read, and a rejected answer is the invalid-amount error |
| Prompt.PromptAmountTyped | main.go:201-249 | a positive amount typed in decimal on the first non-blank line, with any padding, is the answer, and k+1 lines have been read |
| Poller.NormalizeStatus | main.go:345-347 | the normal form is never longer than the status and has no white space at either end |
| Poller.NormalizeStatusUpper | main.go:345-347 | the normal form has no lower-case letter |
| Poller.NormalizeStatusFixpoint | main.go:345-347 | a status already trimmed and upper-case is its own normal form |
| Poller.NormalizeStatusIdempotent | main.go:345-347 | normalising twice is normalising once |
| Poller.NormalizeStatusIgnoresPaddingAndCase | main.go:345-347 | surrounding white space does not change the normal form, and neither does upper-casing the status first |
| Poller.NormalizeStatusIgnoresCase | main.go:345-347 | two statuses that differ only in the case of their letters have the same normal form |
| Poller.SuccessfulIgnoringCase | main.go:346 | "successful" and "SUCCESSFUL" differ only in letter case |
| Poller.SuccessfulNormalForm | main.go:345-347 | "SUCCESSFUL" is its own normal form |
| Poller.PaddedLowerCaseSuccessful | main.go:300-302 | the status " successful\n" normalises to SUCCESSFUL and so ends the poll |
| Poller.PollWith | main.go:290-311 | polling makes at most the budgeted number of checks; it times out only after using the whole budget with every check reported, otherwise it returns what the last check gave; a returned transaction always has a terminal status |
| Poller.PollReportsEachAttempt | main.go:300-307 | each progress report is the normalised status of a non-terminal snapshot, in attempt order |
| Poller.PollStopsOnDecisive | main.go:296-304 | when polling stops before the budget runs out, the check it stopped on was an error or a terminal status |
| Poller.Poll | main.go:290-311 | at most forty checks are made, and a returned transaction has status SUCCESSFUL or FAILED after normalisation |
| Poller.PollStopsAtFirstDecisive | main.go:294-304 | if check k is the first error or terminal status, polling returns it after exactly k+1 checks with k progress reports |
| Poller.PollTimesOut | main.go:294-310 | if no check within the budget is decisive, polling makes exactly that many checks, reports each, and times out |
| Poller.TimeoutOnlyWhenBudgetSpent | main.go:296-310 | polling ends in the timeout error exactly when every check in the budget was made and reported; a failed status check, whose error is a gateway or library error, never looks like a timeout |
| Poller.PendingContinues | main.go:300-307 | a PENDING snapshot keeps the loop going and is reported as PENDING |
| Poller.SuccessfulStops | main.go:300-303 | a SUCCESSFUL snapshot ends the loop |
| Poller.PendingPendingSuccessful | main.go:290-311 | PENDING, PENDING, SUCCESSFUL: the third snapshot is returned after three checks and two PENDING reports |
| Display.ClassifyFinalStatus | main.go:376-383 | the verdict is success exactly for the normalised status SUCCESSFUL and failure exactly for FAILED; anything else is unknown and is shown with the status as the gateway sent it |
| Display.PolledTransactionHasVerdict | main.go:302-303 | a transaction returned by the poll always gets a definite success or failure verdict |

## Left out

- HTTP transport, the three gateway requests and their headers: a status
  check is an abstract outcome, a decoded snapshot or an error.
- `getAuthToken` and `collectPayment`, and the order in which `run` calls
  things: they are request and response plumbing around the modelled
  decisions.
- JSON encoding and decoding: `formatAPIError` receives what `json.Unmarshal`
  produced, as an `Option`. The texts of Go's own transport and decode errors
  become `Error.Opaque`.
- Loading `.env`, reading the environment, printing, and the process exit
  code: these are I/O. `Errors.Message` gives the texts `main` prints.
- The five-second sleep between attempts: timing is not modelled. Each
  progress report stands for one printed line followed by one sleep.
- The float `Amount` of a transaction, and the external reference built from
  the clock: floating point and time are left out.
- Poller.PollWith: it needs at least as many outcomes as its budget. An
  exhausted gateway has no counterpart in the program.
- Non-ASCII text: `Text` treats only the six ASCII white-space characters as
  space and upper-cases only `a`-`z`. Go's `TrimSpace` and `ToUpper` also
  handle Unicode white space and letters, and `len` counts bytes. Both agree
  with the model on ASCII input.
- Decimal.Atoi: returns `None` for both of Go's errors, syntax and range.
  The only caller turns both into the same invalid-amount error.
- Decimal.Atoi: assumes Go's `int` is 64 bits wide.
- Prompt.PromptUser: Go creates a new `bufio.Reader` on each call, which
  could drop buffered input between prompts. The model assumes each line is
  consumed exactly once.
